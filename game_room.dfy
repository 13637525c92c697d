/**
 The authoritative game room: the players map and the latest-input map,
 the "input" and "shoot" message handlers, the simulation step (movement
 then respawn) and the join/leave lifecycle.

 Date.now(), Math.random() and Math.sin/Math.cos are not computed here: the
 caller passes the current time, the random spawn coordinates and the two
 trigonometric functions in.
 */
module GameRoom {
  import opened GameState

  /** Movement speed, in units per second. */
  const Speed: real := 5.0
  /** At or above this many non-spectators, a joining session becomes a spectator. */
  const ActiveCap: nat := 8
  /** Delay between a kill and the respawn, in milliseconds. */
  const RespawnDelayMs: int := 30000
  /** Range of a shot. */
  const MaxShotDist: real := 30.0
  /** Half of the width and depth of a player's hit box. */
  const HalfWidth: real := 0.3
  /** Height of a player's hit box, which stands on y = 0. */
  const BoxHeight: real := 1.8
  /** Direction components smaller than this in magnitude count as zero in the slab test ... */
  const Epsilon: real := 0.000001
  /** ... and get this reciprocal instead of 1 / v. */
  const BigReciprocal: real := 1000000.0

  /** ax moves forward/back, ay strafes, yaw is the facing angle. */
  datatype InputMsg = InputMsg(ax: real, ay: real, yaw: real)

  /** A shot: ray origin (ox, oy, oz), direction (dx, dy, dz) and the client's timestamp t (unused). */
  datatype ShootMsg = ShootMsg(ox: real, oy: real, oz: real, dx: real, dy: real, dz: real, t: real)

  /** A value of Math.random() * 10. */
  type SpawnCoord = r: real | 0.0 <= r < 10.0

  function Lookup<K, V>(m: map<K, V>, k: K): Option<V>
  {
    if k in m then Some(m[k]) else None
  }

  /** The gate shared by the "input" handler and handleShoot: the sender has an
      alive, non-spectator player. */
  predicate CanAct(players: map<string, Player>, sessionId: string)
  {
    sessionId in players && !players[sessionId].spectator && players[sessionId].alive
  }

  // ---------------------------------------------------------------------------
  // The "input" handler

  /** The inputs map after an "input" message from sessionId. */
  function StoreInput(players: map<string, Player>, inputs: map<string, InputMsg>,
                      sessionId: string, data: InputMsg): (r: map<string, InputMsg>)
    ensures CanAct(players, sessionId) ==> sessionId in r && r[sessionId] == data
    ensures !CanAct(players, sessionId) ==> r == inputs
    ensures forall id :: id != sessionId ==> Lookup(r, id) == Lookup(inputs, id)
  {
    if CanAct(players, sessionId) then inputs[sessionId := data] else inputs
  }

  /** Stored inputs do not accumulate: of two accepted messages, only the second remains. */
  lemma {:induction false} LatestInputWins(players: map<string, Player>, inputs: map<string, InputMsg>,
                                           sessionId: string, first: InputMsg, second: InputMsg)
    requires CanAct(players, sessionId)
    ensures StoreInput(players, StoreInput(players, inputs, sessionId, first), sessionId, second)
         == inputs[sessionId := second]
  {
  }

  // ---------------------------------------------------------------------------
  // Movement

  /** The pose update of a moving player (lines 35-38): face the input yaw and
      step along the forward/strafe frame for dtSec seconds. */
  function Advance(p: Player, i: InputMsg, dtSec: real, sin: real -> real, cos: real -> real): (q: Player)
    ensures q.id == p.id && q.alive == p.alive && q.spectator == p.spectator
    ensures q.respawnAt == p.respawnAt && q.y == p.y && q.yaw == i.yaw
  {
    var fwdX, fwdZ := sin(i.yaw), cos(i.yaw);
    p.(yaw := i.yaw,
       x := p.x + (fwdX * i.ax + fwdZ * i.ay) * Speed * dtSec,
       z := p.z + (fwdZ * i.ax - fwdX * i.ay) * Speed * dtSec)
  }

  /** Where a player ends up after one movement step of dtSec seconds under the
      stored input inp; sin and cos stand for Math.sin and Math.cos. */
  function Move(p: Player, inp: Option<InputMsg>, dtSec: real,
                sin: real -> real, cos: real -> real): (q: Player)
    ensures q.id == p.id && q.alive == p.alive && q.spectator == p.spectator
    ensures q.respawnAt == p.respawnAt && q.y == p.y
    ensures p.spectator || !p.alive || inp.None? ==> q == p
    ensures !p.spectator && p.alive && inp.Some? ==> q.yaw == inp.value.yaw
  {
    if p.spectator || !p.alive || inp.None? then p
    else Advance(p, inp.value, dtSec, sin, cos)
  }

  /** An idle input (ax = ay = 0) turns the player but does not displace it. */
  lemma IdleInputStaysPut(p: Player, yaw: real, dtSec: real, sin: real -> real, cos: real -> real)
    ensures Move(p, Some(InputMsg(0.0, 0.0, yaw)), dtSec, sin, cos).x == p.x
    ensures Move(p, Some(InputMsg(0.0, 0.0, yaw)), dtSec, sin, cos).z == p.z
  {
  }

  lemma SumOfSquares(s: real, c: real, a: real, b: real)
    ensures (s * a + c * b) * (s * a + c * b) + (c * a - s * b) * (c * a - s * b)
         == (s * s + c * c) * (a * a + b * b)
  {
  }

  /** When sin and cos are a genuine unit vector at the input's yaw, a moving
      player is displaced by exactly |(ax, ay)| * Speed * dtSec: the movement
      frame is a rotation. */
  lemma {:induction false} MoveIsRotation(p: Player, i: InputMsg, dtSec: real,
                                          sin: real -> real, cos: real -> real)
    requires !p.spectator && p.alive
    requires sin(i.yaw) * sin(i.yaw) + cos(i.yaw) * cos(i.yaw) == 1.0
    ensures var q := Move(p, Some(i), dtSec, sin, cos);
            (q.x - p.x) * (q.x - p.x) + (q.z - p.z) * (q.z - p.z)
            == (i.ax * i.ax + i.ay * i.ay) * (Speed * dtSec) * (Speed * dtSec)
  {
    var q := Move(p, Some(i), dtSec, sin, cos);
    var s, c, k := sin(i.yaw), cos(i.yaw), Speed * dtSec;
    var u, w := s * i.ax + c * i.ay, c * i.ax - s * i.ay;
    assert q.x - p.x == u * k && q.z - p.z == w * k;
    SumOfSquares(s, c, i.ax, i.ay);
    assert u * u + w * w == i.ax * i.ax + i.ay * i.ay;
    calc {
      (q.x - p.x) * (q.x - p.x) + (q.z - p.z) * (q.z - p.z);
      (u * k) * (u * k) + (w * k) * (w * k);
      (u * u + w * w) * (k * k);
      (i.ax * i.ax + i.ay * i.ay) * k * k;
    }
  }

  /** The movement pass over the whole map. */
  function Moved(players: map<string, Player>, inputs: map<string, InputMsg>, dtSec: real,
                 sin: real -> real, cos: real -> real): map<string, Player>
  {
    map id | id in players :: Move(players[id], Lookup(inputs, id), dtSec, sin, cos)
  }

  // ---------------------------------------------------------------------------
  // Respawn

  /** The respawn condition `!p.alive && p.respawnAt && now >= p.respawnAt`;
      a respawnAt of 0 is falsy in the source and so never fires. */
  predicate RespawnDue(p: Player, now: int)
  {
    !p.alive && p.respawnAt.Some? && p.respawnAt.value != 0 && now >= p.respawnAt.value
  }

  /** One player after the respawn pass, with (sx, sz) the fresh random spawn point. */
  function Respawn(p: Player, now: int, sx: SpawnCoord, sz: SpawnCoord): (q: Player)
    ensures RespawnDue(p, now) ==>
              q.alive && q.respawnAt.None? && q.x == sx && q.y == 0.0 && q.z == sz
              && q.id == p.id && q.yaw == p.yaw && q.spectator == p.spectator
    ensures !RespawnDue(p, now) ==> q == p
    ensures LivenessConsistent(p) ==> LivenessConsistent(q)
  {
    if RespawnDue(p, now) then p.(alive := true, respawnAt := None, x := sx, y := 0.0, z := sz)
    else p
  }

  /** The respawn pass over the whole map; spawn(id) is the random point drawn for id. */
  function Respawned(players: map<string, Player>, now: int,
                     spawn: string -> (SpawnCoord, SpawnCoord)): map<string, Player>
  {
    map id | id in players :: Respawn(players[id], now, spawn(id).0, spawn(id).1)
  }

  /** What a full simulation step does to each player: a player that is dead at
      the start never moves, and is alive at the end exactly when its respawn was
      due; a spectator or a player without input keeps its pose unless respawned. */
  lemma {:induction false} StepEffect(players: map<string, Player>, inputs: map<string, InputMsg>,
                                      dtSec: real, now: int, sin: real -> real, cos: real -> real,
                                      spawn: string -> (SpawnCoord, SpawnCoord), id: string)
    requires id in players
    ensures var after := Respawned(Moved(players, inputs, dtSec, sin, cos), now, spawn);
            var p, q := players[id], after[id];
            id in after && q.id == p.id && q.spectator == p.spectator
            && (!p.alive ==> (q.alive <==> RespawnDue(p, now)))
            && (!p.alive && !RespawnDue(p, now) ==> q == p)
            && (!p.alive && RespawnDue(p, now) ==> q.x == spawn(id).0 && q.y == 0.0 && q.z == spawn(id).1)
            && (p.alive ==> q.alive && q.y == p.y)
            && (p.alive && (p.spectator || id !in inputs) ==> q == p)
            && (p.alive && !p.spectator && id in inputs ==> q.yaw == inputs[id].yaw)
  {
    var moved := Moved(players, inputs, dtSec, sin, cos);
    assert moved[id] == Move(players[id], Lookup(inputs, id), dtSec, sin, cos);
    var after := Respawned(moved, now, spawn);
    assert after[id] == Respawn(moved[id], now, spawn(id).0, spawn(id).1);
    if players[id].alive {
      assert !RespawnDue(moved[id], now);
    }
  }

  // ---------------------------------------------------------------------------
  // Ray against box (rayHitsAABB)

  function Abs(v: real): real { if v < 0.0 then -v else v }
  function Min(a: real, b: real): real { if a <= b then a else b }
  function Max(a: real, b: real): real { if a >= b then a else b }

  /** The guarded reciprocal `inv`. */
  function Inv(v: real): (r: real)
    ensures r != 0.0
    ensures Abs(v) >= Epsilon ==> r * v == 1.0
    ensures Abs(v) < Epsilon ==> r == BigReciprocal
  {
    if Abs(v) < Epsilon then BigReciprocal else 1.0 / v
  }

  /** The parametric interval [tmin, tmax] the slab method computes. */
  datatype Interval = Interval(tmin: real, tmax: real)

  /** Intersection of the three per-axis intervals (t1, t2), (t3, t4), (t5, t6),
      whichever way round each pair is. */
  function Combine(t1: real, t2: real, t3: real, t4: real, t5: real, t6: real): (iv: Interval)
    ensures iv.tmin >= Min(t1, t2) && iv.tmin >= Min(t3, t4) && iv.tmin >= Min(t5, t6)
    ensures iv.tmax <= Max(t1, t2) && iv.tmax <= Max(t3, t4) && iv.tmax <= Max(t5, t6)
    ensures iv.tmin == Min(t1, t2) || iv.tmin == Min(t3, t4) || iv.tmin == Min(t5, t6)
    ensures iv.tmax == Max(t1, t2) || iv.tmax == Max(t3, t4) || iv.tmax == Max(t5, t6)
  {
    Interval(Max(Max(Min(t1, t2), Min(t3, t4)), Min(t5, t6)),
             Min(Min(Max(t1, t2), Max(t3, t4)), Max(t5, t6)))
  }

  /** The final decision of rayHitsAABB on the combined interval. */
  function Decide(iv: Interval, maxDist: real): (hit: bool)
    ensures iv.tmax < 0.0 || iv.tmin > iv.tmax ==> !hit
    ensures hit <==> 0.0 <= iv.tmin <= iv.tmax && iv.tmin <= maxDist
  {
    if iv.tmax < 0.0 || iv.tmin > iv.tmax then false
    else iv.tmin >= 0.0 && iv.tmin <= maxDist
  }

  /** Entry and exit parameters of the ray along one axis, for the slab [lo, hi]. */
  function AxisSpan(lo: real, hi: real, o: real, d: real): (real, real)
  {
    ((lo - o) * Inv(d), (hi - o) * Inv(d))
  }

  /** The slab interval of shot s against the box of player t: x and z within
      HalfWidth of the player, y from 0 to BoxHeight. */
  function SlabInterval(s: ShootMsg, t: Player): Interval
  {
    var sx := AxisSpan(t.x - HalfWidth, t.x + HalfWidth, s.ox, s.dx);
    var sy := AxisSpan(0.0, BoxHeight, s.oy, s.dy);
    var sz := AxisSpan(t.z - HalfWidth, t.z + HalfWidth, s.oz, s.dz);
    Combine(sx.0, sx.1, sy.0, sy.1, sz.0, sz.1)
  }

  function RayHitsAABB(s: ShootMsg, t: Player, maxDist: real): (hit: bool)
    ensures hit ==> 0.0 <= SlabInterval(s, t).tmin <= maxDist
    ensures hit ==> SlabInterval(s, t).tmin <= SlabInterval(s, t).tmax
  {
    Decide(SlabInterval(s, t), maxDist)
  }

  /** Swapping the two values of any axis pair leaves the decision unchanged. */
  lemma SlabOrderIrrelevant(t1: real, t2: real, t3: real, t4: real, t5: real, t6: real, maxDist: real)
    ensures Decide(Combine(t2, t1, t3, t4, t5, t6), maxDist) == Decide(Combine(t1, t2, t3, t4, t5, t6), maxDist)
    ensures Decide(Combine(t1, t2, t4, t3, t5, t6), maxDist) == Decide(Combine(t1, t2, t3, t4, t5, t6), maxDist)
    ensures Decide(Combine(t1, t2, t3, t4, t6, t5), maxDist) == Decide(Combine(t1, t2, t3, t4, t5, t6), maxDist)
  {
  }

  lemma MulStrictPos(x: real, y: real, k: real)
    requires x < y && k > 0.0
    ensures x * k < y * k
  {
  }

  lemma MulStrictNeg(x: real, y: real, k: real)
    requires x < y && k < 0.0
    ensures y * k < x * k
  {
  }

  lemma MulMonoPos(x: real, y: real, k: real)
    requires x <= y && k >= 0.0
    ensures x * k <= y * k
  {
  }

  lemma MulMonoNeg(x: real, y: real, k: real)
    requires x <= y && k <= 0.0
    ensures y * k <= x * k
  {
  }

  lemma MulAssoc(x: real, y: real, z: real)
    ensures (x * y) * z == x * (y * z)
  {
  }

  /** If the origin lies strictly between lo and hi, one end of the axis interval is negative. */
  lemma {:induction false} StraddleNegative(lo: real, hi: real, o: real, d: real)
    requires lo < o < hi
    ensures Min(AxisSpan(lo, hi, o, d).0, AxisSpan(lo, hi, o, d).1) < 0.0
  {
    var k := Inv(d);
    var sp := AxisSpan(lo, hi, o, d);
    assert sp.0 == (lo - o) * k && sp.1 == (hi - o) * k;
    if k > 0.0 {
      MulStrictPos(lo - o, 0.0, k);
      assert sp.0 < 0.0;
    } else {
      MulStrictNeg(0.0, hi - o, k);
      assert sp.1 < 0.0;
    }
  }

  /** A shot fired from inside a player's box does not hit that player. */
  lemma {:induction false} OriginInsideMisses(s: ShootMsg, t: Player, maxDist: real)
    requires t.x - HalfWidth < s.ox < t.x + HalfWidth
    requires 0.0 < s.oy < BoxHeight
    requires t.z - HalfWidth < s.oz < t.z + HalfWidth
    ensures !RayHitsAABB(s, t, maxDist)
  {
    StraddleNegative(t.x - HalfWidth, t.x + HalfWidth, s.ox, s.dx);
    StraddleNegative(0.0, BoxHeight, s.oy, s.dy);
    StraddleNegative(t.z - HalfWidth, t.z + HalfWidth, s.oz, s.dz);
    assert SlabInterval(s, t).tmin < 0.0;
  }

  /** tm lies in the ray's interval for the slab [lo, hi] of one axis. */
  predicate WithinSpan(lo: real, hi: real, o: real, d: real, tm: real)
  {
    Min(AxisSpan(lo, hi, o, d).0, AxisSpan(lo, hi, o, d).1) <= tm
    && tm <= Max(AxisSpan(lo, hi, o, d).0, AxisSpan(lo, hi, o, d).1)
  }

  /** The ray point at parameter tm lies between lo and hi along one axis. */
  predicate AxisContains(lo: real, hi: real, o: real, d: real, tm: real)
  {
    lo <= o + tm * d <= hi
  }

  lemma AxisShift(lo: real, hi: real, o: real, d: real, tm: real)
    requires lo - o <= tm * d <= hi - o
    ensures AxisContains(lo, hi, o, d, tm)
  {
  }

  /** Along one axis with a non-degenerate direction, any parameter inside the
      axis interval puts the ray point between lo and hi. */
  lemma {:induction false} AxisPointInside(lo: real, hi: real, o: real, d: real, tm: real)
    requires lo <= hi && Abs(d) >= Epsilon
    requires WithinSpan(lo, hi, o, d, tm)
    ensures AxisContains(lo, hi, o, d, tm)
  {
    var k := Inv(d);
    assert k * d == 1.0;
    var a, b := (lo - o) * k, (hi - o) * k;
    assert AxisSpan(lo, hi, o, d).0 == a && AxisSpan(lo, hi, o, d).1 == b;
    MulAssoc(lo - o, k, d);
    MulAssoc(hi - o, k, d);
    assert a * d == lo - o && b * d == hi - o;
    if d > 0.0 {
      assert k > 0.0 by { if k < 0.0 { MulStrictNeg(0.0, d, k); } }
      MulMonoPos(lo - o, hi - o, k);
      assert a <= tm <= b;
      MulMonoPos(a, tm, d);
      MulMonoPos(tm, b, d);
      assert lo - o == a * d <= tm * d <= b * d == hi - o;
      AxisShift(lo, hi, o, d, tm);
    } else {
      assert k < 0.0 by { if k > 0.0 { MulStrictPos(d, 0.0, k); } }
      MulMonoNeg(lo - o, hi - o, k);
      assert b <= tm <= a;
      MulMonoNeg(tm, a, d);
      MulMonoNeg(b, tm, d);
      assert lo - o == a * d <= tm * d <= b * d == hi - o;
      AxisShift(lo, hi, o, d, tm);
    }
  }

  /** On a hit, the entry parameter tmin lies in the interval of every axis. */
  lemma {:induction false} HitEntryWithinAllSpans(s: ShootMsg, t: Player, maxDist: real)
    requires RayHitsAABB(s, t, maxDist)
    ensures WithinSpan(t.x - HalfWidth, t.x + HalfWidth, s.ox, s.dx, SlabInterval(s, t).tmin)
    ensures WithinSpan(0.0, BoxHeight, s.oy, s.dy, SlabInterval(s, t).tmin)
    ensures WithinSpan(t.z - HalfWidth, t.z + HalfWidth, s.oz, s.dz, SlabInterval(s, t).tmin)
  {
  }

  /** Soundness of a hit when no direction component is below Epsilon: the ray
      point at the entry parameter tmin lies in the player's box, within maxDist
      of the origin along the ray. */
  lemma {:induction false} HitPointInBox(s: ShootMsg, t: Player, maxDist: real)
    requires RayHitsAABB(s, t, maxDist)
    requires Abs(s.dx) >= Epsilon && Abs(s.dy) >= Epsilon && Abs(s.dz) >= Epsilon
    ensures 0.0 <= SlabInterval(s, t).tmin <= maxDist
    ensures AxisContains(t.x - HalfWidth, t.x + HalfWidth, s.ox, s.dx, SlabInterval(s, t).tmin)
    ensures AxisContains(0.0, BoxHeight, s.oy, s.dy, SlabInterval(s, t).tmin)
    ensures AxisContains(t.z - HalfWidth, t.z + HalfWidth, s.oz, s.dz, SlabInterval(s, t).tmin)
  {
    var tm := SlabInterval(s, t).tmin;
    HitEntryWithinAllSpans(s, t, maxDist);
    AxisPointInside(t.x - HalfWidth, t.x + HalfWidth, s.ox, s.dx, tm);
    AxisPointInside(0.0, BoxHeight, s.oy, s.dy, tm);
    AxisPointInside(t.z - HalfWidth, t.z + HalfWidth, s.oz, s.dz, tm);
  }

  /** A shot straight down from (0, 5, 0) hits a player standing at the origin. */
  lemma ShotFromAboveHits(t: Player)
    requires t.x == 0.0 && t.z == 0.0
    ensures SlabInterval(ShootMsg(0.0, 5.0, 0.0, 0.0, -1.0, 0.0, 0.0), t) == Interval(3.2, 5.0)
    ensures RayHitsAABB(ShootMsg(0.0, 5.0, 0.0, 0.0, -1.0, 0.0, 0.0), t, MaxShotDist)
  {
  }

  // ---------------------------------------------------------------------------
  // Shooting

  /** What a shot from shooterId does to the player stored under id. */
  function ShotTarget(shooterId: string, id: string, target: Player, s: ShootMsg, now: int): (q: Player)
    ensures q.id == target.id && q.spectator == target.spectator
    ensures q.x == target.x && q.y == target.y && q.z == target.z && q.yaw == target.yaw
    ensures q != target <==> id != shooterId && target.alive && RayHitsAABB(s, target, MaxShotDist)
    ensures q != target ==> !q.alive && q.respawnAt == Some(now + RespawnDelayMs)
    ensures LivenessConsistent(target) ==> LivenessConsistent(q)
  {
    if id != shooterId && target.alive && RayHitsAABB(s, target, MaxShotDist) then
      target.(alive := false, respawnAt := Some(now + RespawnDelayMs))
    else target
  }

  /** The players map after an accepted shot: every hit is applied, with no early exit. */
  function Shot(players: map<string, Player>, shooterId: string, s: ShootMsg, now: int): map<string, Player>
  {
    map id | id in players :: ShotTarget(shooterId, id, players[id], s, now)
  }

  /** A shot from a player at the origin, down from (0, 5, 0), kills another
      alive player standing at the origin and leaves the shooter as it was. */
  lemma ShotScenario(shooter: Player, target: Player, now: int)
    requires shooter.alive && !shooter.spectator
    requires target.alive && target.x == 0.0 && target.z == 0.0
    ensures var after := Shot(map["a" := shooter, "b" := target], "a",
                              ShootMsg(0.0, 5.0, 0.0, 0.0, -1.0, 0.0, 0.0), now);
            after["a"] == shooter
            && !after["b"].alive && after["b"].respawnAt == Some(now + 30000)
  {
    ShotFromAboveHits(target);
  }

  // ---------------------------------------------------------------------------
  // The roster and the active-player cap

  function ActiveIds(players: map<string, Player>): set<string>
  {
    set id | id in players && !players[id].spectator
  }

  /** countActivePlayers: the number of non-spectators. */
  function ActiveCount(players: map<string, Player>): nat
  {
    |ActiveIds(players)|
  }

  lemma {:induction false} SubsetCard<T>(a: set<T>, b: set<T>)
    requires a <= b
    ensures |a| <= |b|
  {
    assert b == a + (b - a);
  }

  /** A join never pushes the non-spectator count over the cap. */
  lemma {:induction false} JoinKeepsCap(players: map<string, Player>, sessionId: string, p: Player)
    requires ActiveCount(players) <= ActiveCap
    requires p.spectator == (ActiveCount(players) >= ActiveCap)
    ensures ActiveCount(players[sessionId := p]) <= ActiveCap
  {
    var after := players[sessionId := p];
    if p.spectator {
      assert ActiveIds(after) <= ActiveIds(players);
      SubsetCard(ActiveIds(after), ActiveIds(players));
    } else {
      assert ActiveIds(after) <= ActiveIds(players) + {sessionId};
      SubsetCard(ActiveIds(after), ActiveIds(players) + {sessionId});
    }
  }

  /** A leave never raises the non-spectator count. */
  lemma {:induction false} LeaveKeepsCap(players: map<string, Player>, sessionId: string)
    ensures ActiveCount(players - {sessionId}) <= ActiveCount(players)
  {
    assert ActiveIds(players - {sessionId}) <= ActiveIds(players);
    SubsetCard(ActiveIds(players - {sessionId}), ActiveIds(players));
  }

  /** Two maps with the same keys and the same spectator flags have the same roster. */
  lemma SameRoster(before: map<string, Player>, after: map<string, Player>)
    requires after.Keys == before.Keys
    requires forall id :: id in after ==> after[id].spectator == before[id].spectator
    ensures ActiveIds(after) == ActiveIds(before)
  {
  }

  /** The room invariant over the players map: every player is stored under its
      own id, obeys the liveness invariant, and at most ActiveCap are not spectators. */
  ghost predicate RoomInvariant(players: map<string, Player>)
  {
    && (forall id :: id in players ==> players[id].id == id && LivenessConsistent(players[id]))
    && ActiveCount(players) <= ActiveCap
  }

  /** A simulation step keeps the room invariant. */
  lemma {:induction false} StepKeepsInvariant(players: map<string, Player>, inputs: map<string, InputMsg>,
                                              dtSec: real, now: int, sin: real -> real, cos: real -> real,
                                              spawn: string -> (SpawnCoord, SpawnCoord))
    requires RoomInvariant(players)
    ensures RoomInvariant(Respawned(Moved(players, inputs, dtSec, sin, cos), now, spawn))
  {
    var after := Respawned(Moved(players, inputs, dtSec, sin, cos), now, spawn);
    forall id | id in after
      ensures after[id].id == id && LivenessConsistent(after[id])
      ensures after[id].spectator == players[id].spectator
    {
      StepEffect(players, inputs, dtSec, now, sin, cos, spawn, id);
    }
    SameRoster(players, after);
  }

  /** An accepted shot keeps the room invariant. */
  lemma {:induction false} ShotKeepsInvariant(players: map<string, Player>, shooterId: string,
                                              s: ShootMsg, now: int)
    requires RoomInvariant(players)
    ensures RoomInvariant(Shot(players, shooterId, s, now))
  {
    var after := Shot(players, shooterId, s, now);
    forall id | id in after
      ensures after[id].id == id && LivenessConsistent(after[id])
      ensures after[id].spectator == players[id].spectator
    {
      assert after[id] == ShotTarget(shooterId, id, players[id], s, now);
    }
    SameRoster(players, after);
  }

  // ---------------------------------------------------------------------------
  // The room

  class Room {
    var players: map<string, Player>
    var inputs: map<string, InputMsg>

    ghost predicate Valid()
      reads this
    {
      RoomInvariant(players)
    }

    /** onCreate: an empty state and no stored inputs. */
    constructor ()
      ensures Valid()
      ensures players == map[] && inputs == map[]
    {
      players := map[];
      inputs := map[];
    }

    /** The "input" message handler. */
    method OnInput(sessionId: string, data: InputMsg)
      requires Valid()
      modifies this
      ensures Valid()
      ensures players == old(players)
      ensures inputs == StoreInput(old(players), old(inputs), sessionId, data)
    {
      if sessionId !in players { return; }
      var p := players[sessionId];
      if p.spectator || !p.alive { return; }
      inputs := inputs[sessionId := data];
    }

    /** countActivePlayers. */
    method CountActivePlayers() returns (n: nat)
      ensures n == ActiveCount(players)
    {
      n := 0;
      var todo := players.Keys;
      while todo != {}
        invariant todo <= players.Keys
        invariant n == |ActiveIds(players) - todo|
        decreases todo
      {
        var id :| id in todo;
        if !players[id].spectator {
          assert ActiveIds(players) - (todo - {id}) == (ActiveIds(players) - todo) + {id};
          n := n + 1;
        } else {
          assert ActiveIds(players) - (todo - {id}) == ActiveIds(players) - todo;
        }
        todo := todo - {id};
      }
      assert ActiveIds(players) - todo == ActiveIds(players);
    }

    /** onJoin, with (sx, sz) the random spawn point. */
    method OnJoin(sessionId: string, sx: SpawnCoord, sz: SpawnCoord)
      requires Valid()
      modifies this
      ensures Valid()
      ensures inputs == old(inputs)
      ensures sessionId in players
      ensures players == old(players)[sessionId := players[sessionId]]
      ensures var p := players[sessionId];
              p.id == sessionId && p.alive && p.respawnAt.None?
              && p.x == sx && p.y == 0.0 && p.z == sz && p.yaw == 0.0
              && (p.spectator <==> ActiveCount(old(players)) >= ActiveCap)
    {
      var p := NewPlayer(sessionId);
      var n := CountActivePlayers();
      p := p.(spectator := n >= ActiveCap);
      p := p.(x := sx, y := 0.0, z := sz);
      JoinKeepsCap(players, sessionId, p);
      players := players[sessionId := p];
    }

    /** onLeave: only the player entry goes; the stored input stays. */
    method OnLeave(sessionId: string)
      requires Valid()
      modifies this
      ensures Valid()
      ensures inputs == old(inputs)
      ensures players == old(players) - {sessionId}
    {
      LeaveKeepsCap(players, sessionId);
      players := players - {sessionId};
    }

    /** update(dt): the movement pass then the respawn pass. dt is in
        milliseconds; sin and cos stand for Math.sin and Math.cos, now for
        Date.now() and spawn(id) for the two Math.random() * 10 draws. */
    method Update(dt: real, now: int, sin: real -> real, cos: real -> real,
                  spawn: string -> (SpawnCoord, SpawnCoord))
      requires Valid()
      modifies this
      ensures Valid()
      ensures inputs == old(inputs)
      ensures players == Respawned(Moved(old(players), old(inputs), dt / 1000.0, sin, cos), now, spawn)
    {
      var dtSec := dt / 1000.0;
      StepKeepsInvariant(players, inputs, dtSec, now, sin, cos, spawn);
      MovePass(dtSec, sin, cos);
      RespawnPass(now, spawn);
    }

    /** The first loop of update: apply the stored inputs. */
    method MovePass(dtSec: real, sin: real -> real, cos: real -> real)
      modifies this
      ensures inputs == old(inputs)
      ensures players == Moved(old(players), old(inputs), dtSec, sin, cos)
    {
      ghost var start := players;
      var todo := players.Keys;
      while todo != {}
        invariant inputs == old(inputs)
        invariant todo <= start.Keys && players.Keys == start.Keys
        invariant forall id :: id in players ==>
                    players[id] == if id in todo then start[id]
                                   else Move(start[id], Lookup(inputs, id), dtSec, sin, cos)
        decreases todo
      {
        var id :| id in todo;
        var p := players[id];
        if !p.spectator && p.alive && id in inputs {
          players := players[id := Advance(p, inputs[id], dtSec, sin, cos)];
        }
        todo := todo - {id};
      }
    }

    /** The second loop of update: bring back the players whose respawn is due. */
    method RespawnPass(now: int, spawn: string -> (SpawnCoord, SpawnCoord))
      modifies this
      ensures inputs == old(inputs)
      ensures players == Respawned(old(players), now, spawn)
    {
      ghost var start := players;
      var todo := players.Keys;
      while todo != {}
        invariant inputs == old(inputs)
        invariant todo <= start.Keys && players.Keys == start.Keys
        invariant forall id :: id in players ==>
                    players[id] == if id in todo then start[id]
                                   else Respawn(start[id], now, spawn(id).0, spawn(id).1)
        decreases todo
      {
        var id :| id in todo;
        var p := players[id];
        if !p.alive && p.respawnAt.Some? && p.respawnAt.value != 0 && now >= p.respawnAt.value {
          var (sx, sz) := spawn(id);
          p := p.(alive := true, respawnAt := None, x := sx, y := 0.0, z := sz);
          players := players[id := p];
        }
        todo := todo - {id};
      }
    }

    /** The "shoot" message handler, handleShoot; now stands for Date.now(). */
    method HandleShoot(sessionId: string, s: ShootMsg, now: int)
      requires Valid()
      modifies this
      ensures Valid()
      ensures inputs == old(inputs)
      ensures players == if CanAct(old(players), sessionId) then Shot(old(players), sessionId, s, now)
                         else old(players)
    {
      if sessionId !in players { return; }
      var shooter := players[sessionId];
      if shooter.spectator || !shooter.alive { return; }

      ghost var start := players;
      var todo := players.Keys;
      while todo != {}
        invariant inputs == old(inputs)
        invariant todo <= start.Keys && players.Keys == start.Keys
        invariant forall id :: id in players ==>
                    players[id] == if id in todo then start[id]
                                   else ShotTarget(sessionId, id, start[id], s, now)
        decreases todo
      {
        var id :| id in todo;
        var target := players[id];
        if id != sessionId && target.alive && RayHitsAABB(s, target, MaxShotDist) {
          target := target.(alive := false, respawnAt := Some(now + RespawnDelayMs));
          players := players[id := target];
        }
        todo := todo - {id};
      }
      assert players == Shot(start, sessionId, s, now);
      ShotKeepsInvariant(start, sessionId, s, now);
    }
  }
}
