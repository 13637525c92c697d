/**
 The browser client's per-frame logic: the key state and the input message
 built from it, the structural reconciliation of the local meshes map against
 the replicated players map, local prediction of the own mesh, and the
 exponential smoothing of every mesh toward its server position.

 A mesh is reduced to its position; the scene graph, materials and camera are
 not modelled. Math.sin/Math.cos of the local yaw and the frame time are
 passed in by the caller.
 */
module Client {
  import opened GameState
  import GameRoom

  /** Blend factor of the smoothing step. */
  const SmoothFactor: real := 0.25
  /** Height at which a mesh is placed. */
  const MeshHeight: real := 0.9
  /** Local prediction speed, in units per second. */
  const PredictSpeed: real := 5.0
  /** Yaw change per pixel of horizontal mouse movement. */
  const MouseSensitivity: real := 0.003

  /** The key codes whose default browser action is suppressed. */
  const MoveKeys: set<string> := {"KeyW", "KeyA", "KeyS", "KeyD", "Space"}

  /** A visual representation of a player, reduced to its position. */
  datatype Mesh = Mesh(x: real, y: real, z: real)

  /** The mesh created for a player that has none yet. */
  function MeshFor(p: PlayerView): Mesh
  {
    Mesh(p.x, MeshHeight, p.z)
  }

  // ---------------------------------------------------------------------------
  // Keys and the input message

  /** A key counts as held when it was pressed and not released since; a key
      never touched is absent from the record, which reads as not held. */
  predicate Pressed(keys: map<string, bool>, code: string)
  {
    code in keys && keys[code]
  }

  /** One movement axis: +1 for the positive key, -1 for the negative key. */
  function KeyAxis(keys: map<string, bool>, positive: string, negative: string): (a: int)
    ensures -1 <= a <= 1
    ensures a == 0 <==> (Pressed(keys, positive) <==> Pressed(keys, negative))
    ensures a == 1 <==> Pressed(keys, positive) && !Pressed(keys, negative)
    ensures a == -1 <==> !Pressed(keys, positive) && Pressed(keys, negative)
  {
    (if Pressed(keys, positive) then 1 else 0) + (if Pressed(keys, negative) then -1 else 0)
  }

  /** ax: forward with W, back with S. */
  function ForwardAxis(keys: map<string, bool>): int
  {
    KeyAxis(keys, "KeyW", "KeyS")
  }

  /** ay: right with D, left with A. */
  function StrafeAxis(keys: map<string, bool>): int
  {
    KeyAxis(keys, "KeyD", "KeyA")
  }

  /** isMoveKey. */
  function IsMoveKey(code: string): (r: bool)
    ensures r <==> code in MoveKeys
  {
    code == "KeyW" || code == "KeyA" || code == "KeyS" || code == "KeyD" || code == "Space"
  }

  /** Holding both keys of a pair cancels that axis, whatever else is held. */
  lemma OppositeKeysCancel(keys: map<string, bool>)
    ensures var held := keys["KeyW" := true]["KeyS" := true]["KeyA" := true]["KeyD" := true];
            ForwardAxis(held) == 0 && StrafeAxis(held) == 0
  {
  }

  // ---------------------------------------------------------------------------
  // Reconciliation, as functions of the meshes and players maps

  /** The meshes after the add pass: every player gets a mesh, existing meshes are kept. */
  function WithMissing(meshes: map<string, Mesh>, players: map<string, PlayerView>): map<string, Mesh>
  {
    map id | id in meshes.Keys + players.Keys :: if id in meshes then meshes[id] else MeshFor(players[id])
  }

  /** The meshes after the remove pass: those of departed players are dropped. */
  function WithoutStale(meshes: map<string, Mesh>, players: map<string, PlayerView>): map<string, Mesh>
  {
    map id | id in meshes && id in players :: meshes[id]
  }

  /** Both passes, in order. */
  function Reconciled(meshes: map<string, Mesh>, players: map<string, PlayerView>): map<string, Mesh>
  {
    WithoutStale(WithMissing(meshes, players), players)
  }

  /** myPlayerRef after the add pass. */
  function RefAfterAdd(ref: Option<PlayerView>, meshes: map<string, Mesh>,
                       players: map<string, PlayerView>, myId: string): Option<PlayerView>
  {
    if myId in players && myId !in meshes then Some(players[myId]) else ref
  }

  /** myPlayerRef after the remove pass. */
  function RefAfterRemove(ref: Option<PlayerView>, meshes: map<string, Mesh>,
                          players: map<string, PlayerView>, myId: string): Option<PlayerView>
  {
    if myId in meshes && myId !in players then None else ref
  }

  /** myPlayerRef after both passes. */
  function RefAfterReconcile(ref: Option<PlayerView>, meshes: map<string, Mesh>,
                             players: map<string, PlayerView>, myId: string): Option<PlayerView>
  {
    RefAfterRemove(RefAfterAdd(ref, meshes, players, myId), WithMissing(meshes, players), players, myId)
  }

  /** After reconciliation the meshes are keyed exactly by the players; a mesh that
      existed is kept as it was and a new one is built from the player. */
  lemma {:induction false} ReconciledShape(meshes: map<string, Mesh>, players: map<string, PlayerView>)
    ensures Reconciled(meshes, players).Keys == players.Keys
    ensures forall id :: id in players && id in meshes ==> Reconciled(meshes, players)[id] == meshes[id]
    ensures forall id :: id in players && id !in meshes ==> Reconciled(meshes, players)[id] == MeshFor(players[id])
  {
    var added := WithMissing(meshes, players);
    assert added.Keys == meshes.Keys + players.Keys;
    assert Reconciled(meshes, players).Keys == players.Keys;
  }

  /** The own reference follows the own mesh: it is set when the own mesh is
      created, cleared when it is removed, and otherwise left alone. */
  lemma {:induction false} RefFollowsMesh(ref: Option<PlayerView>, meshes: map<string, Mesh>,
                                          players: map<string, PlayerView>, myId: string)
    ensures myId in players && myId !in meshes ==>
              RefAfterReconcile(ref, meshes, players, myId) == Some(players[myId])
    ensures myId !in players && myId in meshes ==> RefAfterReconcile(ref, meshes, players, myId) == None
    ensures (myId in players <==> myId in meshes) ==> RefAfterReconcile(ref, meshes, players, myId) == ref
    ensures (ref.Some? <==> myId in meshes) ==>
              (RefAfterReconcile(ref, meshes, players, myId).Some? <==> myId in Reconciled(meshes, players))
  {
    ReconciledShape(meshes, players);
  }

  /** Reconciling a second time against the same players changes nothing. */
  lemma {:induction false} ReconcileIdempotent(ref: Option<PlayerView>, meshes: map<string, Mesh>,
                                               players: map<string, PlayerView>, myId: string)
    ensures Reconciled(Reconciled(meshes, players), players) == Reconciled(meshes, players)
    ensures RefAfterReconcile(RefAfterReconcile(ref, meshes, players, myId),
                              Reconciled(meshes, players), players, myId)
         == RefAfterReconcile(ref, meshes, players, myId)
  {
    var once := Reconciled(meshes, players);
    ReconciledShape(meshes, players);
    ReconciledShape(once, players);
    var twice := Reconciled(once, players);
    assert forall id :: id in twice ==> twice[id] == once[id];
    assert twice == once;
  }

  /** Reconciling against the replicated copy of the room's players leaves exactly
      one mesh per player in the room. */
  lemma {:induction false} MeshesTrackRoom(meshes: map<string, Mesh>, roomPlayers: map<string, Player>)
    ensures Reconciled(meshes, SyncedPlayers(roomPlayers)).Keys == roomPlayers.Keys
  {
    ReconciledShape(meshes, SyncedPlayers(roomPlayers));
  }

  // ---------------------------------------------------------------------------
  // Prediction and smoothing

  /** The own mesh moved by local prediction for dtSec seconds under axes (ax, ay). */
  function PredictedMesh(m: Mesh, ax: int, ay: int, yaw: real, dtSec: real,
                         sin: real -> real, cos: real -> real): (r: Mesh)
    ensures r.y == m.y
  {
    var fwdX, fwdZ := sin(yaw), cos(yaw);
    m.(x := m.x + (fwdX * ax as real - fwdZ * ay as real) * PredictSpeed * dtSec,
       z := m.z + (fwdZ * ax as real + fwdX * ay as real) * PredictSpeed * dtSec)
  }

  /** The meshes map after local prediction of the mesh stored under myId. */
  function Predicted(meshes: map<string, Mesh>, myId: string, keys: map<string, bool>, yaw: real,
                     dtSec: real, sin: real -> real, cos: real -> real): (r: map<string, Mesh>)
    ensures r.Keys == meshes.Keys
    ensures forall id :: id in r && id != myId ==> r[id] == meshes[id]
  {
    if myId in meshes then
      meshes[myId := PredictedMesh(meshes[myId], ForwardAxis(keys), StrafeAxis(keys), yaw, dtSec, sin, cos)]
    else meshes
  }

  /** With no movement key effectively held, prediction leaves every mesh where it was. */
  lemma {:induction false} IdlePredictionStaysPut(meshes: map<string, Mesh>, myId: string,
                                                  keys: map<string, bool>, yaw: real, dtSec: real,
                                                  sin: real -> real, cos: real -> real)
    requires ForwardAxis(keys) == 0 && StrafeAxis(keys) == 0
    ensures Predicted(meshes, myId, keys, yaw, dtSec, sin, cos) == meshes
  {
    if myId in meshes {
      var m := meshes[myId];
      assert PredictedMesh(m, 0, 0, yaw, dtSec, sin, cos) == m;
    }
  }

  /** Pure strafing is predicted in the opposite direction to the server's
      movement step: the two formulas disagree on the sign of the ay terms. */
  lemma {:induction false} StrafeSignsDiffer(m: Mesh, p: Player, ay: int, yaw: real, dtSec: real,
                                             sin: real -> real, cos: real -> real)
    requires p.alive && !p.spectator
    ensures var q := GameRoom.Move(p, Some(GameRoom.InputMsg(0.0, ay as real, yaw)), dtSec, sin, cos);
            var r := PredictedMesh(m, 0, ay, yaw, dtSec, sin, cos);
            r.x - m.x == -(q.x - p.x) && r.z - m.z == -(q.z - p.z)
  {
    var q := GameRoom.Move(p, Some(GameRoom.InputMsg(0.0, ay as real, yaw)), dtSec, sin, cos);
    var k := ay as real * PredictSpeed * dtSec;
    assert q.x - p.x == cos(yaw) * k;
    assert q.z - p.z == -sin(yaw) * k;
  }

  /** lerp. */
  function Lerp(a: real, b: real, t: real): real
  {
    a + (b - a) * t
  }

  /** One smoothing step keeps the side of the target and cuts the remaining
      distance to exactly three quarters; a value at the target stays there. */
  lemma SmoothingStep(a: real, b: real)
    ensures Lerp(a, b, SmoothFactor) - b == (a - b) * 0.75
    ensures a == b ==> Lerp(a, b, SmoothFactor) == a
  {
  }

  /** The position after n frames of smoothing toward a fixed target. */
  function SmoothedN(a: real, b: real, n: nat): real
    decreases n
  {
    if n == 0 then a else SmoothedN(Lerp(a, b, SmoothFactor), b, n - 1)
  }

  function Pow(r: real, n: nat): real
  {
    if n == 0 then 1.0 else r * Pow(r, n - 1)
  }

  /** After n frames without new server data the distance to the server position
      is (3/4)^n of what it was: the mesh converges to the target geometrically. */
  lemma {:induction false} SmoothingConverges(a: real, b: real, n: nat)
    ensures SmoothedN(a, b, n) - b == (a - b) * Pow(0.75, n)
    decreases n
  {
    if n > 0 {
      var a' := Lerp(a, b, SmoothFactor);
      SmoothingConverges(a', b, n - 1);
      SmoothingStep(a, b);
      assert SmoothedN(a, b, n) == SmoothedN(a', b, n - 1);
      assert a' - b == (a - b) * 0.75;
      calc {
        SmoothedN(a, b, n) - b;
        (a' - b) * Pow(0.75, n - 1);
        ((a - b) * 0.75) * Pow(0.75, n - 1);
        { GameRoom.MulAssoc(a - b, 0.75, Pow(0.75, n - 1)); }
        (a - b) * (0.75 * Pow(0.75, n - 1));
        (a - b) * Pow(0.75, n);
      }
    }
  }

  /** One mesh smoothed toward its player's server position. */
  function Smoothed(m: Mesh, p: PlayerView): (r: Mesh)
    ensures r.y == m.y
    ensures r.x - p.x == (m.x - p.x) * 0.75 && r.z - p.z == (m.z - p.z) * 0.75
  {
    m.(x := Lerp(m.x, p.x, SmoothFactor), z := Lerp(m.z, p.z, SmoothFactor))
  }

  /** The smoothing pass: every mesh with a player moves toward it. */
  function SmoothedAll(meshes: map<string, Mesh>, players: map<string, PlayerView>): map<string, Mesh>
  {
    map id | id in meshes :: if id in players then Smoothed(meshes[id], players[id]) else meshes[id]
  }

  // ---------------------------------------------------------------------------
  // The client

  class ClientView {
    /** The local session id. */
    const myId: string
    /** The local player's state object, when the local mesh exists. */
    var myPlayerRef: Option<PlayerView>
    /** The mouse-driven facing angle. */
    var yaw: real
    /** Which keys are held, by key code. */
    var keys: map<string, bool>
    /** One mesh per known player id. */
    var meshes: map<string, Mesh>

    /** The own reference is set exactly while the own mesh exists. */
    ghost predicate Valid()
      reads this
    {
      myPlayerRef.Some? <==> myId in meshes
    }

    constructor (sessionId: string)
      ensures Valid()
      ensures myId == sessionId && myPlayerRef == None && yaw == 0.0
      ensures keys == map[] && meshes == map[]
    {
      myId := sessionId;
      myPlayerRef := None;
      yaw := 0.0;
      keys := map[];
      meshes := map[];
    }

    /** The keydown listener; returns whether the default action is prevented
        and whether a "melee" message is sent. */
    method KeyDown(code: string) returns (preventDefault: bool, sendMelee: bool)
      requires Valid()
      modifies this
      ensures Valid()
      ensures keys == old(keys)[code := true]
      ensures preventDefault == IsMoveKey(code) && sendMelee == (code == "Space")
      ensures meshes == old(meshes) && myPlayerRef == old(myPlayerRef) && yaw == old(yaw)
    {
      preventDefault := IsMoveKey(code);
      keys := keys[code := true];
      sendMelee := code == "Space";
    }

    /** The keyup listener. */
    method KeyUp(code: string) returns (preventDefault: bool)
      requires Valid()
      modifies this
      ensures Valid()
      ensures keys == old(keys)[code := false]
      ensures preventDefault == IsMoveKey(code)
      ensures meshes == old(meshes) && myPlayerRef == old(myPlayerRef) && yaw == old(yaw)
    {
      preventDefault := IsMoveKey(code);
      keys := keys[code := false];
    }

    /** The mousemove listener. */
    method MouseMove(movementX: real)
      requires Valid()
      modifies this
      ensures Valid()
      ensures yaw == old(yaw) - movementX * MouseSensitivity
      ensures keys == old(keys) && meshes == old(meshes) && myPlayerRef == old(myPlayerRef)
    {
      yaw := yaw - movementX * MouseSensitivity;
    }

    /** sendInput: the "input" message for the current keys and yaw. */
    method SendInput() returns (msg: GameRoom.InputMsg)
      ensures msg.ax in {-1.0, 0.0, 1.0} && msg.ay in {-1.0, 0.0, 1.0}
      ensures msg.ax == 1.0 <==> Pressed(keys, "KeyW") && !Pressed(keys, "KeyS")
      ensures msg.ax == -1.0 <==> Pressed(keys, "KeyS") && !Pressed(keys, "KeyW")
      ensures msg.ay == 1.0 <==> Pressed(keys, "KeyD") && !Pressed(keys, "KeyA")
      ensures msg.ay == -1.0 <==> Pressed(keys, "KeyA") && !Pressed(keys, "KeyD")
      ensures msg.yaw == yaw
    {
      var ax := (if Pressed(keys, "KeyW") then 1 else 0) + (if Pressed(keys, "KeyS") then -1 else 0);
      var ay := (if Pressed(keys, "KeyD") then 1 else 0) + (if Pressed(keys, "KeyA") then -1 else 0);
      msg := GameRoom.InputMsg(ax as real, ay as real, yaw);
    }

    /** Reconciliation pass a): create a mesh for every player that has none. */
    method AddMissing(players: map<string, PlayerView>)
      modifies this
      ensures meshes == WithMissing(old(meshes), players)
      ensures myPlayerRef == RefAfterAdd(old(myPlayerRef), old(meshes), players, myId)
      ensures keys == old(keys) && yaw == old(yaw)
    {
      var todo := players.Keys;
      while todo != {}
        invariant todo <= players.Keys
        invariant keys == old(keys) && yaw == old(yaw)
        invariant meshes.Keys == old(meshes).Keys + (players.Keys - todo)
        invariant forall id :: id in meshes ==>
                    meshes[id] == if id in old(meshes) then old(meshes)[id] else MeshFor(players[id])
        invariant myPlayerRef == if myId in players && myId !in todo && myId !in old(meshes)
                                 then Some(players[myId]) else old(myPlayerRef)
        decreases todo
      {
        var id :| id in todo;
        if id !in meshes {
          meshes := meshes[id := MeshFor(players[id])];
          if id == myId {
            myPlayerRef := Some(players[id]);
          }
        }
        todo := todo - {id};
      }
      assert meshes.Keys == WithMissing(old(meshes), players).Keys;
    }

    /** Reconciliation pass b): drop the mesh of every id the server no longer has. */
    method RemoveStale(players: map<string, PlayerView>)
      modifies this
      ensures meshes == WithoutStale(old(meshes), players)
      ensures myPlayerRef == RefAfterRemove(old(myPlayerRef), old(meshes), players, myId)
      ensures keys == old(keys) && yaw == old(yaw)
    {
      var todo := meshes.Keys;
      while todo != {}
        invariant todo <= old(meshes).Keys
        invariant keys == old(keys) && yaw == old(yaw)
        invariant forall id :: id in meshes <==> id in old(meshes) && (id in todo || id in players)
        invariant forall id :: id in meshes ==> meshes[id] == old(meshes)[id]
        invariant myPlayerRef == if myId in old(meshes) && myId !in players && myId !in todo
                                 then None else old(myPlayerRef)
        decreases todo
      {
        var id :| id in todo;
        if id !in players {
          meshes := meshes - {id};
          if id == myId {
            myPlayerRef := None;
          }
        }
        todo := todo - {id};
      }
      assert meshes.Keys == WithoutStale(old(meshes), players).Keys;
    }

    /** Both reconciliation passes against the replicated players map. */
    method Reconcile(players: map<string, PlayerView>)
      requires Valid()
      modifies this
      ensures Valid()
      ensures meshes == Reconciled(old(meshes), players)
      ensures meshes.Keys == players.Keys
      ensures myPlayerRef == RefAfterReconcile(old(myPlayerRef), old(meshes), players, myId)
      ensures keys == old(keys) && yaw == old(yaw)
    {
      RefFollowsMesh(myPlayerRef, meshes, players, myId);
      ReconciledShape(meshes, players);
      AddMissing(players);
      RemoveStale(players);
    }

    /** Local prediction of the own mesh from the held keys. */
    method Predict(dtSec: real, sin: real -> real, cos: real -> real)
      requires Valid()
      modifies this
      ensures Valid()
      ensures meshes == Predicted(old(meshes), myId, keys, yaw, dtSec, sin, cos)
      ensures keys == old(keys) && yaw == old(yaw) && myPlayerRef == old(myPlayerRef)
    {
      if myId in meshes {
        var m := meshes[myId];
        var ax := (if Pressed(keys, "KeyW") then 1 else 0) + (if Pressed(keys, "KeyS") then -1 else 0);
        var ay := (if Pressed(keys, "KeyD") then 1 else 0) + (if Pressed(keys, "KeyA") then -1 else 0);
        assert ax == ForwardAxis(keys) && ay == StrafeAxis(keys);
        m := PredictedMesh(m, ax, ay, yaw, dtSec, sin, cos);
        meshes := meshes[myId := m];
      }
    }

    /** The smoothing loop: every mesh moves a quarter of the way to its player. */
    method Smooth(players: map<string, PlayerView>)
      requires Valid()
      modifies this
      ensures Valid()
      ensures meshes == SmoothedAll(old(meshes), players)
      ensures keys == old(keys) && yaw == old(yaw) && myPlayerRef == old(myPlayerRef)
    {
      var todo := players.Keys;
      while todo != {}
        invariant todo <= players.Keys
        invariant keys == old(keys) && yaw == old(yaw) && myPlayerRef == old(myPlayerRef)
        invariant meshes.Keys == old(meshes).Keys
        invariant forall id :: id in meshes ==>
                    meshes[id] == if id in players && id !in todo then Smoothed(old(meshes)[id], players[id])
                                  else old(meshes)[id]
        decreases todo
      {
        var id :| id in todo;
        if id in meshes {
          var m := meshes[id];
          var p := players[id];
          m := m.(x := Lerp(m.x, p.x, SmoothFactor), z := Lerp(m.z, p.z, SmoothFactor));
          meshes := meshes[id := m];
        }
        todo := todo - {id};
      }
    }

    /** One frame of tick: send the input, reconcile when the players map is
        available, predict the own mesh, then smooth toward the server. */
    method Tick(players: Option<map<string, PlayerView>>, dtSec: real,
                sin: real -> real, cos: real -> real) returns (msg: GameRoom.InputMsg)
      requires Valid()
      modifies this
      ensures Valid()
      ensures msg == GameRoom.InputMsg(ForwardAxis(keys) as real, StrafeAxis(keys) as real, yaw)
      ensures keys == old(keys) && yaw == old(yaw)
      ensures myPlayerRef == if players.Some? then RefAfterReconcile(old(myPlayerRef), old(meshes), players.value, myId)
                             else old(myPlayerRef)
      ensures players.Some? ==> meshes.Keys == players.value.Keys
      ensures meshes ==
                var rec := if players.Some? then Reconciled(old(meshes), players.value) else old(meshes);
                var pred := Predicted(rec, myId, keys, yaw, dtSec, sin, cos);
                if players.Some? then SmoothedAll(pred, players.value) else pred
    {
      msg := SendInput();
      if players.Some? {
        Reconcile(players.value);
      }
      Predict(dtSec, sin, cos);
      if players.Some? {
        Smooth(players.value);
      }
    }
  }
}
