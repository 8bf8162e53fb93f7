# Game-Lobby coordinator in Dafny

This project models the coordinator of the Game-Lobby server (`backend/server.py`). It keeps two
tables:

- the **player directory** maps a player id to a `Player`. A `Player` holds the connection the
  record was created with and the `lobby_id` of the lobby the player created, if any.
- the **lobby registry** maps a lobby id to that lobby's member table, which lists the connection
  of each member.

Client requests change these tables. So do two periodic sweeps:

- `check_game_start` starts, and then deletes, every lobby that has reached
  `MINIMUM_PLAYERS_TO_START_THE_GAME` (2) members.
- `clear_lobbies` drops members whose connection is no longer live, then drops the lobbies left
  empty.

`process_message` routes a decoded request to `create`, `join`, `list` or `leave`.

The operations are modelled in five modules:

- `LobbyTypes` (`types.dfy`): identifiers, the `Player` record, the two tables (`Tables`), and
  the payloads sent to connections (`Send`, `Msg`).
- `Broadcast` (`broadcast.dfy`): `Lobby.notify`. A `while` loop sends one notice to each
  member's connection. It is proved equal to `Fanout` along the order it took. The lemmas show
  that every member gets the notice exactly once.
- `Sweeps` (`sweeps.dfy`): the specification functions of the two sweeps.
  - `GameStart` and `Clear` give the new tables.
  - `StartSends` and `ClearSends` give the notices, along the iteration order each loop took.
  - `StartNotices`, `ClearNotices` and `ClearAnnounces` say what those notices are and who receives them.
- `Actions` (`actions.dfy`): one specification function per request handler (`JoinStep`,
  `LeaveStep`, `CreateStep`) and `Dispatch`. Each handler also has a predicate that describes
  its sends.
- `Server` (`server.dfy`): the class `LobbyServer`, with the two dictionaries as `map` fields
  that its methods update in place.
  - Each sweep is a method with the source's loops. The loops run over key snapshots: collect the
    set to delete, then delete.
  - Each method is proved against the specification function of `Sweeps`/`Actions`:
    `Snapshot() == Spec(old(Snapshot()))`, plus exactly what it sends.
  - `ProcessMessage` drives the object.

`Invariants` (`invariants.dfy`) holds the properties that span requests:

- Every handler keeps the tables *consistent*: no empty lobby, and a set `lobby_id` names a lobby
  that lists the player.
- The handlers and `clear_lobbies` keep lobby members *registered*: each member has a directory
  record with the same connection. `check_game_start` does not, as shown below.
- When the sweep that closes a leave does not raise, the leave raises exactly when the player is
  unknown or has no lobby.
- Concrete runs show where the code lets the tables drift apart.

Python's dictionary iteration order is not modelled. Each loop picks its next key
nondeterministically (`:|`). A ghost out-parameter records the order taken, and the contracts
about sends hold for whatever order was taken. Sends are returned as a sequence of
`Send(connection, payload)`, in the order they are made.

Raising an exception is part of the model. `action_leave` reads `player.lobby_id` before its
guard, so it raises on an unknown player or one whose `lobby_id` is `None`. It also raises when
the named lobby is missing, and when the lobby does not list the player. `LeaveStep` and
`CreateStep` return `raised` and the tables as left at that point, and `Dispatch` reports the
outcome `Raised`. The sweeps' unguarded `del self.players[...]` raises a KeyError. These KeyErrors
are preconditions instead:

- `ClearSafe`: each dead member is in the directory and dead in one lobby only.
- `LeaveSafe`, `CreateSafe`, `DispatchSafe`: the sweep that closes `action_leave`, whether the
  request is a leave or a create's nested leave, meets `ClearSafe`. `LeaveStep`, `CreateStep`
  and `Dispatch` require them, and so does every lemma about those functions.
  `RegisteredLeaveSafe` and `RegisteredCreateSafe` show they hold on registered tables where
  nobody is in two lobbies.
- For `CheckGameStart`: every member of a started lobby is in the directory.

The model follows the code, which differs from the intended design in these places:

- `action_join` does not set the joiner's `lobby_id` (lines 156-166). So a player who has only
  joined cannot leave, and a creator who joins another lobby is listed by two lobbies.
- A repeated request does not rebind a player's connection. The directory keeps the first one.

## Model

| member | source | states |
|---|---|---|
| Broadcast.Notify | backend/server.py:48-60 | the sends are `Fanout` along an iteration order of the lobby's member ids; whatever that order, there is one send per member, every member's connection gets the `{message, lobby_id, game_started}` notice, and nothing else is sent |
| Broadcast.BroadcastReachesMembers | backend/server.py:55-60 | a notification makes as many sends as the lobby has members, reaches every member's connection, and sends only that message and only to members |
| Broadcast.EnumerationsPermute | backend/server.py:55 | two iteration orders of the same key set hold the same keys, each once; only the order can differ |
| Sweeps.GameStart | backend/server.py:75-92 | every lobby with at least 2 members leaves the registry, no lobby with at least 2 members remains, and smaller lobbies are untouched; every member of a started lobby leaves the directory; a player listed only by smaller lobbies keeps its record; nothing is added |
| Sweeps.StartNotices | backend/server.py:87-89 | each started lobby sends exactly as many `game_started=True` "Starting Game" notices as it has members, and every one of its members receives one; every send is such a notice, to a member of a started lobby |
| Sweeps.Clear | backend/server.py:94-117 | no remaining lobby is empty and every remaining member's connection is live; a dead member leaves its lobby and the directory; a live member stays in its lobby with the same connection, so the lobby stays; a player found dead nowhere keeps its record; nothing is added |
| Sweeps.ClearNotices | backend/server.py:107-110 | `clear_lobbies` sends only "player X left the lobby" notices about members found dead, each to another member of the same lobby; the departed member is deleted before the notice, so it is not told |
| Sweeps.ClearAnnounces | backend/server.py:107-110 | every member found dead is announced, in its lobby, to every member of that lobby whose connection is live; live members are never deleted, so all of them are still listed when each notice goes out |
| Actions.JoinStep | backend/server.py:148-166 | the directory changes only by creating an unknown player on the requesting connection, and `lobby_id` is untouched; an unknown lobby leaves the registry unchanged; a known lobby gains the player under its stored connection, and no other lobby or member changes |
| Actions.JoinReplies | backend/server.py:160-166 | a failed join sends one "cannot join" reply, to the player's stored connection rather than the requesting one; a successful join notifies every member of the lobby, the newcomer included, once each |
| Actions.LeaveStep | backend/server.py:168-181 | when the closing sweep does not raise (`LeaveSafe`), a leave raises exactly when the player is unknown, has no lobby, names a missing lobby, or is not listed by a truthy-named lobby, and then the tables are unchanged; a lobby id `""` is falsy, so the leave neither raises nor removes and the tables are unchanged; for a non-empty lobby id, the player is off its lobby, which is gone if the player was its last member; the player keeps its record with `lobby_id` None unless it is found dead in another lobby; the sweep that follows keeps every other live member where it was with its connection, drops every other dead member from its lobby and the directory, keeps the record of every other player found dead nowhere, and leaves no empty lobby; nothing is added |
| Actions.LeftLobbyKeeps | backend/server.py:178-180 | taking the leaver off its lobby removes only that one entry and sets only its `lobby_id` to None; a lobby whose only member was the leaver is left empty |
| Actions.LeaveTellsLeaver | backend/server.py:175-179 | the leaving notice goes out before the removal, so the leaver and every other member of the lobby receive it |
| Actions.CreateStep | backend/server.py:119-138 | when the nested leave's sweep does not raise (`CreateSafe`), only the nested leave can raise; a creator in no lobby gets the new lobby with itself as the only member, under its stored connection, and `lobby_id` set to the new id |
| Actions.ListRepeatable | backend/server.py:140-146 | a list reply goes to the requesting connection and names every lobby id exactly once; two replies over the same registry hold the same ids |
| Actions.Dispatch | backend/server.py:184-205 | when the nested sweep does not raise (`DispatchSafe`): a missing action, a missing player or an empty player changes nothing (Malformed); an unknown action changes nothing (Ignored); list changes nothing; only create and leave can raise, and they add no lobby but the drawn id |
| Server.LobbyServer.constructor | backend/server.py:68-73 | both tables start empty |
| Server.LobbyServer.CheckGameStart | backend/server.py:75-92 | the new tables are `GameStart` of the old, and the sends are the start notices along the order the lobbies and members were visited |
| Server.LobbyServer.StartingLobbies | backend/server.py:79-85 | the collected lobby ids are exactly the lobbies with at least 2 members, and the collected player ids are exactly their members; nothing changes |
| Server.LobbyServer.AnnounceStarts | backend/server.py:87-89 | each started lobby is notified once, in the order visited, and then deleted; the directory is unchanged |
| Server.LobbyServer.DropPlayers | backend/server.py:91-92 | the directory loses exactly the collected ids |
| Server.LobbyServer.PurgeLobby | backend/server.py:100-110 | one lobby keeps exactly its live members; its dead members leave the directory; each departure is announced to the members still listed |
| Server.LobbyServer.PurgeAll | backend/server.py:98-113 | every lobby is purged once; the lobbies left empty are collected; the players found dead anywhere leave the directory |
| Server.LobbyServer.DropLobbies | backend/server.py:115-117 | the registry loses exactly the collected empty lobbies |
| Server.LobbyServer.ClearLobbies | backend/server.py:94-117 | the new tables are `Clear` of the old, and the sends are the departure notices along the order taken |
| Server.LobbyServer.Join | backend/server.py:148-166 | the new tables are `JoinStep` of the old, and the sends are the failure reply or the join notice to every member |
| Server.LobbyServer.Leave | backend/server.py:168-181 | the raised flag and the new tables are `LeaveStep` of the old; the sends are the leaving notice to the old lobby, then the sweep's notices |
| Server.LobbyServer.Create | backend/server.py:119-138 | the raised flag and the new tables are `CreateStep` of the old; the sends are the nested leave's, then the "created" notice to the new lobby |
| Server.LobbyServer.List | backend/server.py:140-146 | one reply to the requester naming every lobby id once; no table changes |
| Server.ProcessMessage | backend/server.py:184-205 | the outcome and the new tables are `Dispatch` of the old; the sends are those of the one handler routed to, or none |
| Invariants.InitialConsistent | backend/server.py:68-73 | the empty server is consistent and registered |
| Invariants.GameStartConsistent | backend/server.py:75-92 | `check_game_start` keeps the tables consistent |
| Invariants.ClearKeepsMember | backend/server.py:102-109 | a player that `clear_lobbies` keeps in the directory keeps its record and every lobby that listed it |
| Invariants.ClearConsistent | backend/server.py:94-117 | `clear_lobbies` leaves no empty lobby and keeps `lobby_id` sound |
| Invariants.JoinConsistent | backend/server.py:148-166 | `action_join` keeps the tables consistent |
| Invariants.LeftLobbySound | backend/server.py:178-180 | taking the leaver off its lobby and clearing its `lobby_id` keeps `lobby_id` sound |
| Invariants.LeaveConsistent | backend/server.py:168-181 | when its closing sweep does not raise, `action_leave` keeps the tables consistent, whether or not it raises |
| Invariants.LeaveRaisesOnlyWhenOutside | backend/server.py:174-177 | on consistent tables, and when the closing sweep does not raise, a leave raises if and only if the player is unknown or has no `lobby_id` |
| Invariants.OpenedConsistent | backend/server.py:126-132 | registering a lobby under a fresh id, with the creator as its member, keeps the tables consistent |
| Invariants.CreateNeverRaises | backend/server.py:126-135 | with a fresh id, and when the nested sweep does not raise, create's nested leave never raises |
| Invariants.AssignedConsistent | backend/server.py:137 | setting `lobby_id` to a lobby that lists the player keeps the tables consistent |
| Invariants.CreateConsistent | backend/server.py:119-138 | `action_create` with a fresh id, when its nested sweep does not raise, keeps the tables consistent |
| Invariants.DispatchConsistent | backend/server.py:184-205 | when the nested sweep does not raise, every routed request keeps the tables consistent; only a leave raises, and only for an unknown player or one with no `lobby_id` |
| Invariants.RegisteredClearSafe | backend/server.py:107-109 | on registered tables where nobody is in two lobbies, the sweep's deletions never raise |
| Invariants.RegisteredLeaveSafe | backend/server.py:177-181 | on registered tables where nobody is in two lobbies, the sweep that closes a leave never raises |
| Invariants.RegisteredCreateSafe | backend/server.py:126-135 | on consistent, registered tables where nobody is in two lobbies, and with a fresh id, the sweep in create's nested leave never raises, although the creator is briefly listed by two lobbies |
| Invariants.JoinRegistered | backend/server.py:156-165 | `action_join` keeps every member registered, under its stored connection |
| Invariants.ClearRegistered | backend/server.py:102-109 | `clear_lobbies` keeps every member registered |
| Invariants.LeaveRegistered | backend/server.py:177-181 | when its closing sweep does not raise, `action_leave` keeps every member registered |
| Invariants.CreateRegistered | backend/server.py:126-135 | when its nested sweep does not raise, `action_create` keeps every member registered |
| Invariants.CreateMovesCreator | backend/server.py:119-138 | with a fresh id, a live creator and a nested sweep that does not raise, create does not raise and adds exactly one lobby, which lists the creator alone; the creator's `lobby_id` is the new id; a truthy old lobby, if it remains, no longer lists the creator |
| Invariants.CreateKeepsOthers | backend/server.py:126-138 | with a fresh id and a nested sweep that does not raise, create leaves every other live member of every old lobby where it was, with the same connection |
| Invariants.CreateKeepsRecords | backend/server.py:126-138 | with a fresh id and a nested sweep that does not raise, create keeps the directory record of every other player found dead nowhere |
| Invariants.CreateThenListed | backend/test_basic_functionality.py:51-57 | a list reply after a create whose nested sweep does not raise includes the new lobby's id |
| Invariants.CreatorLeaves | backend/server.py:134-135 | when its sweep does not raise, create's nested leave takes the creator off its old lobby only; the new lobby still lists it, and the creator keeps its record |
| Invariants.ClearKeepsSolo | backend/server.py:102-113 | a one-member lobby with a live member survives `clear_lobbies` unchanged |
| Invariants.TwoLobbiesReachable | backend/server.py:119-166 | from an empty server, p creates L1, q creates L2 and p joins L2, and neither create's nested sweep can raise; then p is listed by both lobbies |
| Invariants.JoinAllowsTwoLobbies | backend/server.py:164-165 | that state is consistent and registered, but p is in two lobbies and its `lobby_id` is still L1 |
| Invariants.DisconnectInTwoLobbiesRaises | backend/server.py:107-109 | once p's connection is gone, q's leave removes q, but its sweep then deletes p from the directory twice and raises KeyError |
| Invariants.DeadTwiceUnsafe | backend/server.py:107-109 | a member found dead in two lobbies makes `clear_lobbies` delete it from the directory twice |
| Invariants.GameStartStrandsMember | backend/server.py:84-92 | starting L2 deletes p from the directory although L1 still lists p; the next sweep that finds p dead raises |
| Invariants.TwoLobbiesStart | backend/server.py:81-85 | in that state only L2 starts, and its members are q and p |
| Invariants.JoinerCannotLeave | backend/server.py:174-177 | a player who only joined a lobby is listed by it, but its leave request raises because its `lobby_id` is None |

## Left out

- WebSocket transport and JSON: `handle_connection`, `websocket.send`/`ping`, and `json.loads`/`json.dumps` are I/O. A request is a decoded record with optional `action`, `player` and `lobby_id` fields, and a send is a `Send(connection, payload)` value. A notice's `message` is the `Text` value, which names the f-string and holds its parameters; the formatted string is not built.
- JSON values of other types: the model takes every field as text or absent. A non-string `player` or `lobby_id`, or any non-dict payload, is not modelled.
- `handle_connection` and `ping_clients` drive the sweeps. They remove a connection from `CONNECTED_CLIENTS` and then call `clear_lobbies`, or call `check_game_start` on each heartbeat. They are not modelled. The live set is a `live: set<Conn>` parameter of every operation that sweeps.
- Concurrency: the asyncio interleaving at each `await` is not modelled. Each request and each sweep is atomic.
- Send failures are not modelled: every send succeeds. The code aborts a `notify` at the first failed send, and the intended design skips the failed recipient; the model does neither.
- `main`, argparse, `ts()`/`datetime` and the `print` diagnostics are start-up glue, clock access and logging.
- `uuid.uuid4()` is randomness. The drawn lobby id is a parameter `id`. The lemmas about create require it to be fresh. `Server.LobbyServer.Create` does not, and then it overwrites the lobby, as the source would.
- Python's dictionary order is not modelled. Each loop may visit keys in any order.
- Actions.ListRepeatable: two list replies over the same registry are shown to hold the same ids, each once, not the identical list that Python's insertion-ordered dict gives, because dictionary order is not modelled.
- `Server.LobbyServer.CheckGameStart`: the KeyError that `del self.players[...]` raises for a started member with no directory record is a precondition, not an outcome. `GameStartStrandsMember` shows such a member can arise.
- `Server.LobbyServer.ClearLobbies`: the KeyError for a dead member that is not in the directory, or is dead in two lobbies, is a precondition (`ClearSafe`), not an outcome. `Leave`, `Create` and `ProcessMessage` inherit it (`LeaveSafe`, `CreateSafe`, `DispatchSafe`), as do the functions `LeaveStep`, `CreateStep` and `Dispatch` and the lemmas about them, so none of them says what happens when that sweep raises. `DisconnectInTwoLobbiesRaises` shows such tables can arise.
- The frontend (`frontend/frontend.js`) is browser UI code, and the two test scripts need a running server. One test expectation is stated as `CreateThenListed`.
