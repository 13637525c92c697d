# proto-multi: authoritative game room and client reconciliation, in Dafny

This project models the core of a small real-time multiplayer game built on Colyseus.

- **State (`state.dfy`, module `GameState`).** The `Player` record, with its schema defaults, the liveness invariant (`respawnAt` present exactly when the player is dead), and the view a client receives. `respawnAt` has no schema decorator, so it is not part of that view.
- **Room (`game_room.dfy`, module `GameRoom`).** The `Room` class holds the `players` map and the latest-input map `inputs`. Its methods model:
  - the `"input"` handler;
  - `update`, as a movement pass then a respawn pass;
  - `onJoin`, with the eight-player cap for non-spectators;
  - `onLeave`;
  - `countActivePlayers`;
  - `handleShoot`, with the slab ray/box test `rayHitsAABB`.

  Each method is proved against a pure function of the old state. The room invariant holds across every operation: every player is stored under its own id, obeys the liveness invariant, and at most 8 players are not spectators.
- **Client (`client.dfy`, module `Client`).** The `ClientView` class covers:
  - the key record and the input message built from it (`sendInput`, `isMoveKey`);
  - the two structural reconciliation passes of `tick` over the `meshes` map, with `myPlayerRef`;
  - local prediction of the own mesh;
  - the 0.25 smoothing step.

  The class invariant is that `myPlayerRef` is set exactly while the own mesh exists.

Positions, yaw and time deltas are idealised as `real`. Timestamps are integer milliseconds. Several values are parameters instead of being computed:
- `Date.now()` is a `now` parameter.
- Each pair of `Math.random() * 10` draws is a value of the subset type `SpawnCoord` (reals in [0, 10)).
- `Math.sin` and `Math.cos` are function parameters `sin`, `cos`.

The model follows the code as written, including where it departs from the game's intended design:
- `onLeave` deletes the player but not the stored input.
- `handleShoot` can kill spectators, because its target filter checks only the id and `alive`.
- Ranged kills produce no notification.
- There is no melee handler, cooldown table or colour.

The client's local prediction and the server's movement step use opposite signs for strafing. `Client.StrafeSignsDiffer` states this. Nothing claims that the two agree.

## Model

| member | source | states |
|---|---|---|
| `GameState.NewPlayer` | server/src/schema/State.ts:4-12 | A fresh player is alive, not a spectator, at x = y = z = 0 with yaw 0, has no respawnAt, and so satisfies the liveness invariant |
| `GameState.RespawnAtNotSynced` | server/src/schema/State.ts:12 | respawnAt is not synchronised: players differing only in it look identical to clients |
| `GameState.RespawnTimesNotSynced` | server/src/schema/State.ts:12-16 | Two rooms whose players differ only in their respawn times give clients identical replicated maps |
| `GameState.SyncedAfterPut` | server/src/rooms/GameRoom.ts:58 | Setting one player in the room, as a join does, changes the replicated map in exactly that entry, which becomes the player's synced view |
| `GameState.SyncedAfterDelete` | server/src/rooms/GameRoom.ts:62 | Deleting one player, as a leave does, removes exactly that entry from the replicated map |
| `GameRoom.StoreInput` | server/src/rooms/GameRoom.ts:16-20 | An input from an absent, spectator or dead sender leaves the inputs map as it was. Otherwise the sender's entry becomes exactly the message. Every other session's entry is untouched |
| `GameRoom.LatestInputWins` | server/src/rooms/GameRoom.ts:16-20 | Two accepted inputs in a row leave only the second: no accumulation |
| `GameRoom.Move` | server/src/rooms/GameRoom.ts:30-39 | Spectators, dead players and players without a stored input are unchanged. A moving player's yaw becomes the input yaw. y, alive, spectator, id and respawnAt never change |
| `GameRoom.IdleInputStaysPut` | server/src/rooms/GameRoom.ts:35-38 | An input with ax = ay = 0 leaves x and z unchanged |
| `GameRoom.MoveIsRotation` | server/src/rooms/GameRoom.ts:35-38 | When sin² + cos² = 1 at the input yaw, the squared displacement is (ax² + ay²)·(speed·dt)². The movement frame is a rotation |
| `GameRoom.Respawn` | server/src/rooms/GameRoom.ts:43-48 | A player that is dead, has a truthy respawnAt and has reached it becomes alive with respawnAt cleared, y = 0 and x, z the spawn draw in [0, 10). Any other player is unchanged. The liveness invariant is preserved |
| `GameRoom.StepEffect` | server/src/rooms/GameRoom.ts:25-50 | Over a whole update: a player dead at the start never moves, and it ends alive exactly when its respawn was due. An alive player stays alive and keeps y. An alive spectator or input-less player is unchanged. A mover takes the input yaw |
| `GameRoom.StepKeepsInvariant` | server/src/rooms/GameRoom.ts:25-50 | A full update keeps the room invariant (own-id keys, liveness invariant, at most 8 non-spectators) |
| `GameRoom.Inv` | server/src/rooms/GameRoom.ts:104 | The guarded reciprocal is never 0. It is the exact reciprocal for a component of magnitude at least 1e-6, and 1e6 below that |
| `GameRoom.Combine` | server/src/rooms/GameRoom.ts:109-110 | tmin is one of the three per-axis entry values and is at least each of them. tmax is one of the three exit values and is at most each of them |
| `GameRoom.Decide` | server/src/rooms/GameRoom.ts:111-112 | False whenever tmax < 0 or tmin > tmax. True exactly when 0 ≤ tmin ≤ tmax and tmin ≤ maxDist |
| `GameRoom.RayHitsAABB` | server/src/rooms/GameRoom.ts:99-113 | A hit implies 0 ≤ tmin ≤ maxDist and tmin ≤ tmax |
| `GameRoom.SlabOrderIrrelevant` | server/src/rooms/GameRoom.ts:106-110 | Swapping the two values of any axis pair (t1/t2, t3/t4, t5/t6) does not change the decision |
| `GameRoom.StraddleNegative` | server/src/rooms/GameRoom.ts:106-109 | An origin strictly inside an axis slab makes that axis's entry value negative |
| `GameRoom.OriginInsideMisses` | server/src/rooms/GameRoom.ts:101-112 | A shot whose origin is strictly inside the target's box is a miss |
| `GameRoom.AxisPointInside` | server/src/rooms/GameRoom.ts:106-108 | For an axis whose direction component has magnitude at least 1e-6, any parameter within that axis's interval gives a ray point within the slab |
| `GameRoom.HitEntryWithinAllSpans` | server/src/rooms/GameRoom.ts:109-111 | On a hit, tmin lies within the interval of every axis |
| `GameRoom.HitPointInBox` | server/src/rooms/GameRoom.ts:99-113 | If every direction component has magnitude at least 1e-6, a hit means the ray point at tmin lies in the box (0.6 × 1.8 × 0.6, standing on y = 0, centred on the player's x and z) with 0 ≤ tmin ≤ maxDist |
| `GameRoom.ShotFromAboveHits` | server/src/rooms/GameRoom.ts:99-113 | A ray from (0, 5, 0) pointing down gives the interval [3.2, 5] against a player at the origin, so it hits |
| `GameRoom.ShotTarget` | server/src/rooms/GameRoom.ts:89-96 | A player changes exactly when it is not the shooter, is alive and is hit; spectators are included. A changed player is dead with respawnAt = now + 30000. Position, yaw, id and spectator never change, and the liveness invariant is preserved |
| `GameRoom.ShotScenario` | server/src/rooms/GameRoom.ts:83-97 | A shot down from (0, 5, 0) kills an alive player at the origin with respawnAt = now + 30000 and leaves the shooter unchanged |
| `GameRoom.ShotKeepsInvariant` | server/src/rooms/GameRoom.ts:83-97 | An accepted shot keeps the room invariant |
| `GameRoom.JoinKeepsCap` | server/src/rooms/GameRoom.ts:52-59 | If the joiner is a spectator exactly when 8 or more non-spectators exist, a join never pushes the count above 8 |
| `GameRoom.LeaveKeepsCap` | server/src/rooms/GameRoom.ts:61-63 | A leave never raises the number of non-spectators |
| `GameRoom.Room.constructor` | server/src/rooms/GameRoom.ts:11-14 | A new room has no players and no stored inputs |
| `GameRoom.Room.OnInput` | server/src/rooms/GameRoom.ts:16-20 | The players map is untouched; the inputs map becomes StoreInput of the old state; the room invariant holds |
| `GameRoom.Room.CountActivePlayers` | server/src/rooms/GameRoom.ts:65-69 | The counting loop returns exactly the number of non-spectators |
| `GameRoom.Room.OnJoin` | server/src/rooms/GameRoom.ts:52-59 | Only the sessionId entry changes. It becomes an alive player with that id, no respawnAt, yaw 0, y = 0 and x, z the spawn draw. It is a spectator iff at least 8 non-spectators existed before. Inputs are untouched and the invariant holds |
| `GameRoom.Room.OnLeave` | server/src/rooms/GameRoom.ts:61-63 | Exactly the leaver's player is removed, every other player is untouched, and the stored inputs (including the leaver's) stay |
| `GameRoom.Room.Update` | server/src/rooms/GameRoom.ts:25-50 | The new players map is the respawn pass applied to the movement pass at dt/1000 seconds; inputs are untouched; the room invariant holds |
| `GameRoom.Room.MovePass` | server/src/rooms/GameRoom.ts:29-39 | The loop over players applies Move to every player with its stored input |
| `GameRoom.Room.RespawnPass` | server/src/rooms/GameRoom.ts:41-49 | The loop over players applies Respawn to every player with its spawn draw |
| `GameRoom.Room.HandleShoot` | server/src/rooms/GameRoom.ts:83-97 | A no-op unless the shooter is present, not a spectator and alive. Otherwise every player is replaced by ShotTarget (no early exit). Inputs are untouched and the invariant holds |
| `Client.KeyAxis` | client/src/main.ts:102-103 | An axis is in {-1, 0, 1}. It is 0 exactly when both or neither of its keys are held, and ±1 exactly when only the positive or only the negative key is held |
| `Client.IsMoveKey` | client/src/main.ts:170-172 | True exactly for KeyW, KeyA, KeyS, KeyD and Space |
| `Client.OppositeKeysCancel` | client/src/main.ts:102-103 | Holding W with S and A with D gives ax = ay = 0 |
| `Client.ReconciledShape` | client/src/main.ts:189-216 | After both passes the meshes' keys equal the players' keys. Existing meshes are kept as they were, and each new one is `MeshFor` its player: at the player's x and z, at height 0.9 |
| `Client.MeshesTrackRoom` | client/src/main.ts:189-216 | Reconciling against the replicated room state leaves one mesh per player in the room |
| `Client.RefFollowsMesh` | client/src/main.ts:189-216 | myPlayerRef becomes the own player when the own mesh is created and null when it is removed. It is otherwise unchanged, and stays set exactly while the own mesh exists |
| `Client.ReconcileIdempotent` | client/src/main.ts:189-216 | Reconciling twice against the same players gives the same meshes and the same myPlayerRef as once |
| `Client.PredictedMesh` | client/src/main.ts:227-228 | Local prediction never changes a mesh's height |
| `Client.Predicted` | client/src/main.ts:219-228 | Prediction keeps the set of meshes and touches no mesh other than the own one |
| `Client.IdlePredictionStaysPut` | client/src/main.ts:222-228 | With ax = ay = 0, prediction leaves every mesh in place |
| `Client.StrafeSignsDiffer` | client/src/main.ts:227-228 | For pure strafing, the client predicts exactly the opposite displacement to the server's movement step (server/src/rooms/GameRoom.ts lines 37-38) |
| `Client.SmoothingStep` | client/src/main.ts:236-257 | One smoothing step leaves exactly 3/4 of the distance to the target, and a value already at the target stays put |
| `Client.SmoothingConverges` | client/src/main.ts:236-257 | After n frames toward a fixed target the distance is (3/4)^n of the original |
| `Client.Smoothed` | client/src/main.ts:250-257 | A smoothed mesh keeps its height and is 3/4 as far from its player on x and on z |
| `Client.ClientView.constructor` | client/src/main.ts:87-99 | A new client has no meshes, no held keys, yaw 0 and no own reference |
| `Client.ClientView.KeyDown` | client/src/main.ts:173 | The key becomes held; the default action is prevented exactly for move keys; a melee message is sent exactly for Space |
| `Client.ClientView.KeyUp` | client/src/main.ts:174 | The key becomes released; the default action is prevented exactly for move keys |
| `Client.ClientView.MouseMove` | client/src/main.ts:176 | yaw decreases by 0.003 per pixel of horizontal movement |
| `Client.ClientView.SendInput` | client/src/main.ts:101-105 | The message has ax = [W] − [S] and ay = [D] − [A], each in {-1, 0, 1}, and the current yaw |
| `Client.ClientView.AddMissing` | client/src/main.ts:191-205 | The loop gives every player a mesh without replacing existing ones. myPlayerRef is set when the own mesh is created |
| `Client.ClientView.RemoveStale` | client/src/main.ts:207-215 | The loop drops exactly the meshes whose id the server no longer has. myPlayerRef is cleared when the own mesh goes |
| `Client.ClientView.Reconcile` | client/src/main.ts:189-216 | The meshes' keys equal the players' keys afterwards. The reference invariant holds |
| `Client.ClientView.Predict` | client/src/main.ts:219-228 | The own mesh, if present, moves by the prediction formula with the current keys and yaw |
| `Client.ClientView.Smooth` | client/src/main.ts:238-262 | Every mesh with a player moves a quarter of the way toward its server position; others stay |
| `Client.ClientView.Tick` | client/src/main.ts:181-266 | One frame does four things in order. It sends the key-derived input, reconciles when the players map is available, predicts, then smooths. After a reconcile the meshes' keys equal the players' keys and myPlayerRef is the reconciled reference; without a players map myPlayerRef is unchanged |

## Left out

- Transport and bootstrap: server/src/index.ts and client/src/net.ts (HTTP and WebSocket setup) are not part of this model.
- Colyseus machinery: the `maxClients = 32` session limit (server/src/rooms/GameRoom.ts:10, so `GameRoom.Room.OnJoin` accepts any number of sessions), `setPatchRate`, `setSimulationInterval`, delta encoding and broadcast order are not modelled. Each update, input, shot, join and leave is one atomic call. The `onAdd`/`onChange`/`onRemove` callbacks and the initial hydration on the client are not modelled either; the per-frame reconciliation is the only structural step modelled.
- Rendering: the Three.js scene, lights, HDRI, materials and opacity, camera follow, pointer lock and `renderer.render` are not modelled. A mesh is only a position, and `myPlayerRef` holds a copy of the player rather than a live reference.
- `handleInput` (server/src/rooms/GameRoom.ts:71-81) is not modelled, because it is never registered as a handler.
- Floating point: all arithmetic is over exact reals. `sin` and `cos` are arbitrary functions, so nothing is claimed about float-exact positions. NaN and infinite values in messages are not represented, and messages are assumed to have the declared shape.
- GameRoom.Room.HandleShoot: the source calls `Date.now()` once per kill. The model uses one `now` for the whole shot, so all kills of one shot get the same respawnAt.
- GameRoom.Room.Update: the random spawn draws are a function `spawn` of the player id, fixed for one call. The order in which `Math.random()` is consumed across players is not modelled.
- GameRoom.HitPointInBox: soundness is stated only for directions whose every component has magnitude at least 1e-6. For smaller components the 1e6 substitute makes the test approximate.
- GameRoom.RayHitsAABB: completeness is not stated. A ray that starts inside or on the box can meet it and still be rejected, because tmin < 0.
- The `"melee"` message the client sends has no server handler in these files, and the colour the client reads does not exist in the schema. Neither is modelled beyond `KeyDown` reporting that the message is sent.
