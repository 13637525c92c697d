/**
 The replicated world state of the room: one Player record per connected
 session, keyed by session id. Positions and yaw are idealised as reals;
 respawnAt is a millisecond timestamp.
 */
module GameState {

  datatype Option<T> = None | Some(value: T)

  /** A player as the server room stores it. respawnAt is the only field
      without a schema type, so it stays on the server. */
  datatype Player = Player(
    id: string,
    alive: bool,
    x: real,
    y: real,
    z: real,
    yaw: real,
    spectator: bool,
    respawnAt: Option<int>)

  /** The part of a Player that the schema synchronises to clients. */
  datatype PlayerView = PlayerView(
    id: string,
    alive: bool,
    x: real,
    y: real,
    z: real,
    yaw: real,
    spectator: bool)

  /** The room's liveness invariant: a respawn time is pending exactly while the player is dead. */
  predicate LivenessConsistent(p: Player)
  {
    p.respawnAt.Some? <==> !p.alive
  }

  /** A player built with the schema defaults; the room sets the id straight after. */
  function NewPlayer(id: string): (p: Player)
    ensures p.id == id
    ensures p.alive && !p.spectator
    ensures p.x == 0.0 && p.y == 0.0 && p.z == 0.0 && p.yaw == 0.0
    ensures p.respawnAt == None
    ensures LivenessConsistent(p)
  {
    Player(id, true, 0.0, 0.0, 0.0, 0.0, false, None)
  }

  /** What a client receives for a player: every decorated field, and nothing else. */
  function Synced(p: Player): PlayerView
  {
    PlayerView(p.id, p.alive, p.x, p.y, p.z, p.yaw, p.spectator)
  }

  /** The client's copy of the players map. */
  function SyncedPlayers(players: map<string, Player>): map<string, PlayerView>
  {
    map id | id in players :: Synced(players[id])
  }

  /** respawnAt never reaches a client: two players differing only in it look the same. */
  lemma RespawnAtNotSynced(p: Player, r: Option<int>)
    ensures Synced(p.(respawnAt := r)) == Synced(p)
  {
  }

  /** A player who joins, or whose record changes, reaches clients as exactly
      that one entry of the replicated map; nothing else is re-sent. */
  lemma SyncedAfterPut(players: map<string, Player>, id: string, p: Player)
    ensures SyncedPlayers(players[id := p]) == SyncedPlayers(players)[id := Synced(p)]
  {
  }

  /** A player who leaves disappears from the replicated map, and only that player. */
  lemma SyncedAfterDelete(players: map<string, Player>, id: string)
    ensures SyncedPlayers(players - {id}) == SyncedPlayers(players) - {id}
  {
  }

  /** Two rooms whose players differ only in their respawn times replicate identically. */
  lemma RespawnTimesNotSynced(players: map<string, Player>, others: map<string, Player>)
    requires players.Keys == others.Keys
    requires forall id :: id in players ==> others[id] == players[id].(respawnAt := others[id].respawnAt)
    ensures SyncedPlayers(players) == SyncedPlayers(others)
  {
  }
}
