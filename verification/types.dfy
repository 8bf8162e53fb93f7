/**
 * The values the lobby coordinator works on: identifiers, the player record,
 * the two tables (player directory and lobby registry) and the messages it
 * sends to connections.
 */
module LobbyTypes {

  datatype Option<+T> = None | Some(value: T)

  /** Player and lobby identifiers are opaque text. */
  type PlayerId = string
  type LobbyId = string

  /** A handle for one live or dead client connection (a websocket). */
  type Conn = nat

  /** `MINIMUM_PLAYERS_TO_START_THE_GAME`. */
  const MinPlayersToStart: nat := 2

  /**
   * A `Player` as the directory stores it: the connection it was created
   * with (never reassigned) and the lobby it created, if any. The id is the
   * directory key.
   */
  datatype Player = Player(conn: Conn, lobbyId: Option<LobbyId>)

  /**
   * A lobby's own member table. It holds the same `Player` objects as the
   * directory, but only their connections are ever read through it.
   */
  type Members = map<PlayerId, Conn>

  /** The coordinator's two tables. */
  datatype Tables = Tables(lobbies: map<LobbyId, Members>, players: map<PlayerId, Player>)

  /** The human-readable text of a lobby notification: one case per f-string, holding its parameters. */
  datatype Text =
    | LobbyCreated(lobby: LobbyId, player: PlayerId)
    | PlayerJoined(player: PlayerId, lobby: LobbyId)
    | PlayerLeaving(player: PlayerId, lobby: LobbyId)
    | PlayerLeft(player: PlayerId)
    | StartingGame(lobby: LobbyId)

  /** The three outbound payloads. */
  datatype Msg =
    | Notice(text: Text, lobbyId: LobbyId, gameStarted: bool)  // {"message", "lobby_id", "game_started"}
    | LobbyList(ids: seq<LobbyId>)                              // {"lobbylist": [...]}
    | CannotJoin(requested: Option<LobbyId>)                    // {"message": "cannot join ..."}

  /** One `websocket.send` of a payload to a connection. */
  datatype Send = Send(to: Conn, msg: Msg)

  /** Python's `del m[k]`: defined only when the key is present (otherwise KeyError). */
  function Delete<K, V>(m: map<K, V>, k: K): (r: map<K, V>)
    requires k in m
    ensures r.Keys == m.Keys - {k}
    ensures forall j :: j in r ==> r[j] == m[j]
  {
    m - {k}
  }

  /** Deleting keys one at a time removes the set of them. */
  lemma DeleteMore<K, V>(m: map<K, V>, done: set<K>, k: K)
    requires k in m && k !in done
    ensures Delete(m - done, k) == m - (done + {k})
  {
  }

  /** Removing two key sets one after the other removes their union. */
  lemma DeleteBoth<K, V>(m: map<K, V>, a: set<K>, b: set<K>)
    ensures (m - a) - b == m - (a + b)
  {
  }

  /** `order` lists every element of `s` exactly once (an iteration order of `s`). */
  ghost predicate Enumerates<T(!new)>(order: seq<T>, s: set<T>)
  {
    && (forall i, j :: 0 <= i < j < |order| ==> order[i] != order[j])
    && (forall x :: x in order <==> x in s)
  }
}
