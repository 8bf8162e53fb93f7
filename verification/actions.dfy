/**
 * The four client requests of `LobbyServer` (`action_create`, `action_join`,
 * `action_list`, `action_leave`) and the dispatcher `process_message`, as
 * functions of the tables, with the sends each one makes.
 */
module Actions {
  import opened LobbyTypes
  import opened Broadcast
  import opened Sweeps

  // ---------------------------------------------------------------------
  // What a request sends
  // ---------------------------------------------------------------------

  /** `sends` is one run of `notify(text, game_started)` over `members` of lobby `l`. */
  ghost predicate IsBroadcast(sends: seq<Send>, l: LobbyId, members: Members, text: Text, gameStarted: bool)
  {
    exists order :: Enumerates(order, members.Keys) && sends == Fanout(order, members, Notice(text, l, gameStarted))
  }

  /** `sends` is one run of `clear_lobbies` over `lobbies`. */
  ghost predicate IsClearOutput(sends: seq<Send>, lobbies: map<LobbyId, Members>, live: set<Conn>)
  {
    exists purges :: ValidClear(purges, lobbies, live) && sends == ClearSends(purges, lobbies)
  }

  /** A broadcast sends its notice once to each member, and to nobody else. */
  lemma BroadcastShape(sends: seq<Send>, l: LobbyId, members: Members, text: Text, gameStarted: bool)
    requires IsBroadcast(sends, l, members, text, gameStarted)
    ensures |sends| == |members|
    ensures forall k :: k in members ==> Send(members[k], Notice(text, l, gameStarted)) in sends
    ensures forall s :: s in sends ==> s.msg == Notice(text, l, gameStarted) && exists k :: k in members && s.to == members[k]
  {
    var order :| Enumerates(order, members.Keys) && sends == Fanout(order, members, Notice(text, l, gameStarted));
    BroadcastReachesMembers(order, members, Notice(text, l, gameStarted));
  }

  // ---------------------------------------------------------------------
  // action_join
  // ---------------------------------------------------------------------

  /** `if player_id not in self.players`: an unknown id gets a record on the requesting connection. */
  function WithPlayer(t: Tables, p: PlayerId, conn: Conn): Tables
  {
    if p in t.players then t else t.(players := t.players[p := Player(conn, None)])
  }

  /** The connection the player's record holds once get-or-create has run. */
  function StoredConn(t: Tables, p: PlayerId, conn: Conn): Conn
  {
    if p in t.players then t.players[p].conn else conn
  }

  /** The requested lobby exists (`self.lobbies.get(lobby_id)` finds a Lobby). */
  predicate JoinFinds(t: Tables, requested: Option<LobbyId>)
  {
    requested.Some? && requested.value in t.lobbies
  }

  /** The tables after `action_join`. */
  function JoinStep(t: Tables, p: PlayerId, requested: Option<LobbyId>, conn: Conn): (r: Tables)
    // the directory changes only by the lazy creation of the player; lobby_id is not touched
    ensures r.players.Keys == t.players.Keys + {p}
    ensures forall q :: q in t.players ==> r.players[q] == t.players[q]
    ensures p !in t.players ==> r.players[p] == Player(conn, None)
    // an unknown lobby leaves the registry alone
    ensures !JoinFinds(t, requested) ==> r.lobbies == t.lobbies
    // a known lobby gains (or re-lists) the player under its stored connection; nothing else changes
    ensures JoinFinds(t, requested) ==>
              var l := requested.value;
              && r.lobbies.Keys == t.lobbies.Keys
              && (forall l' :: l' in t.lobbies && l' != l ==> r.lobbies[l'] == t.lobbies[l'])
              && r.lobbies[l].Keys == t.lobbies[l].Keys + {p}
              && r.lobbies[l][p] == StoredConn(t, p, conn)
              && (forall q :: q in t.lobbies[l] && q != p ==> r.lobbies[l][q] == t.lobbies[l][q])
  {
    var t1 := WithPlayer(t, p, conn);
    if JoinFinds(t1, requested) then
      var l := requested.value;
      t1.(lobbies := t1.lobbies[l := t1.lobbies[l][p := t1.players[p].conn]])
    else
      t1
  }

  /** What `action_join` sends. */
  ghost predicate IsJoinOutput(sends: seq<Send>, t: Tables, p: PlayerId, requested: Option<LobbyId>, conn: Conn)
  {
    if JoinFinds(t, requested) then
      var l := requested.value;
      IsBroadcast(sends, l, JoinStep(t, p, requested, conn).lobbies[l], PlayerJoined(p, l), false)
    else
      sends == [Send(StoredConn(t, p, conn), CannotJoin(requested))]
  }

  /**
   * A failed join answers once, on the connection stored for the player
   * (not necessarily the requesting one); a successful join tells every
   * member of the lobby, the newcomer included.
   */
  lemma JoinReplies(sends: seq<Send>, t: Tables, p: PlayerId, requested: Option<LobbyId>, conn: Conn)
    requires IsJoinOutput(sends, t, p, requested, conn)
    ensures !JoinFinds(t, requested) ==>
              |sends| == 1 && sends[0].msg == CannotJoin(requested) &&
              sends[0].to == (if p in t.players then t.players[p].conn else conn)
    ensures JoinFinds(t, requested) ==>
              var l := requested.value;
              && |sends| == |t.lobbies[l].Keys + {p}|
              && Send(StoredConn(t, p, conn), Notice(PlayerJoined(p, l), l, false)) in sends
              && forall q :: q in t.lobbies[l] ==>
                   Send(JoinStep(t, p, requested, conn).lobbies[l][q], Notice(PlayerJoined(p, l), l, false)) in sends
  {
    if JoinFinds(t, requested) {
      var l := requested.value;
      var r := JoinStep(t, p, requested, conn);
      BroadcastShape(sends, l, r.lobbies[l], PlayerJoined(p, l), false);
      assert |r.lobbies[l]| == |r.lobbies[l].Keys|;
    }
  }

  // ---------------------------------------------------------------------
  // action_leave
  // ---------------------------------------------------------------------

  /** `self.lobbies[player.lobby_id]` succeeds, so the leaving notice goes out. */
  predicate LeaveNotifies(t: Tables, p: PlayerId)
  {
    p in t.players && t.players[p].lobbyId.Some? && t.players[p].lobbyId.value in t.lobbies
  }

  /** The lobby a player leaves: the one its record names. */
  function LeaveLobby(t: Tables, p: PlayerId): LobbyId
    requires LeaveNotifies(t, p)
  {
    t.players[p].lobbyId.value
  }

  /** The guard `player.lobby_id` is truthy and `del lobby.players[player_id]` succeeds. */
  predicate LeaveRemoves(t: Tables, p: PlayerId)
  {
    LeaveNotifies(t, p) && LeaveLobby(t, p) != "" && p in t.lobbies[LeaveLobby(t, p)]
  }

  /** The tables once the player is off its lobby and its `lobby_id` is None. */
  function LeftLobby(t: Tables, p: PlayerId): Tables
    requires LeaveRemoves(t, p)
  {
    var l := LeaveLobby(t, p);
    Tables(t.lobbies[l := Delete(t.lobbies[l], p)], t.players[p := t.players[p].(lobbyId := None)])
  }

  /** The sweep at the end of `action_leave` does not raise. */
  ghost predicate LeaveSafe(t: Tables, p: PlayerId, live: set<Conn>)
  {
    LeaveRemoves(t, p) ==> ClearSafe(LeftLobby(t, p), live)
  }

  /** The tables an action leaves and whether it raised an exception. */
  datatype Effect = Effect(raised: bool, after: Tables)

  /** The effect of `action_leave`. */
  function LeaveStep(t: Tables, p: PlayerId, live: set<Conn>): (e: Effect)
    // the KeyError of the closing sweep is a precondition
    requires LeaveSafe(t, p, live)
    // raises (AttributeError / KeyError) on an unknown player, a missing or
    // unknown lobby, or a lobby that does not list the player; the tables are then untouched
    ensures e.raised <==> !LeaveNotifies(t, p) || (LeaveLobby(t, p) != "" && p !in t.lobbies[LeaveLobby(t, p)])
    ensures e.raised || !LeaveRemoves(t, p) ==> e.after == t
    // otherwise the player is off its lobby, which is gone if it had no other member
    ensures LeaveRemoves(t, p) ==>
              var l := LeaveLobby(t, p);
              && (l in e.after.lobbies ==> p !in e.after.lobbies[l])
              && (t.lobbies[l].Keys == {p} ==> l !in e.after.lobbies)
    // and the player stays in the directory with lobby_id None, unless it is found dead in another lobby
    ensures LeaveRemoves(t, p) &&
            (forall l' :: l' in t.lobbies && l' != LeaveLobby(t, p) && p in t.lobbies[l'] ==> t.lobbies[l'][p] in live) ==>
              p in e.after.players && e.after.players[p] == t.players[p].(lobbyId := None)
    // the sweep that follows: every other live member stays where it was, every other dead one is dropped
    ensures LeaveRemoves(t, p) ==>
              forall l, k :: l in t.lobbies && k in t.lobbies[l] && (l != LeaveLobby(t, p) || k != p) && t.lobbies[l][k] in live ==>
                l in e.after.lobbies && k in e.after.lobbies[l] && e.after.lobbies[l][k] == t.lobbies[l][k]
    ensures LeaveRemoves(t, p) ==>
              forall l, k :: l in t.lobbies && k in t.lobbies[l] && (l != LeaveLobby(t, p) || k != p) && t.lobbies[l][k] !in live ==>
                k !in e.after.players && (l in e.after.lobbies ==> k !in e.after.lobbies[l])
    ensures LeaveRemoves(t, p) ==>
              forall q :: q in t.players && q != p && (forall l :: l in t.lobbies && q in t.lobbies[l] ==> t.lobbies[l][q] in live) ==>
                q in e.after.players && e.after.players[q] == t.players[q]
    ensures LeaveRemoves(t, p) ==> forall l :: l in e.after.lobbies ==> e.after.lobbies[l] != map[]
    // nothing is added
    ensures forall l :: l in e.after.lobbies ==> l in t.lobbies && e.after.lobbies[l].Keys <= t.lobbies[l].Keys
    ensures e.after.players.Keys <= t.players.Keys
  {
    if !LeaveNotifies(t, p) then Effect(true, t)
    else if LeaveLobby(t, p) == "" then Effect(false, t)
    else if p !in t.lobbies[LeaveLobby(t, p)] then Effect(true, t)
    else
      var left := LeftLobby(t, p);
      LeftLobbyKeeps(t, p);
      Effect(false, Clear(left, live))
  }

  /** Taking the leaver off its lobby touches no other entry, and empties the lobby if it was the last member. */
  lemma LeftLobbyKeeps(t: Tables, p: PlayerId)
    requires LeaveRemoves(t, p)
    ensures var l := LeaveLobby(t, p);
            var left := LeftLobby(t, p);
            && left.lobbies.Keys == t.lobbies.Keys
            && (forall l', k :: l' in t.lobbies && k in t.lobbies[l'] && (l' != l || k != p) ==>
                  k in left.lobbies[l'] && left.lobbies[l'][k] == t.lobbies[l'][k])
            && (forall l' :: l' in left.lobbies ==> left.lobbies[l'].Keys <= t.lobbies[l'].Keys)
            && p !in left.lobbies[l]
            && (t.lobbies[l].Keys == {p} ==> left.lobbies[l] == map[])
            && left.players.Keys == t.players.Keys
            && (forall q :: q in t.players && q != p ==> left.players[q] == t.players[q])
            && left.players[p] == t.players[p].(lobbyId := None)
  {
  }

  /** What `action_leave` sends: the leaving notice to the whole lobby, then the sweep's notices. */
  ghost predicate IsLeaveOutput(sends: seq<Send>, t: Tables, p: PlayerId, live: set<Conn>)
  {
    if !LeaveNotifies(t, p) then sends == []
    else
      var l := LeaveLobby(t, p);
      var n := |t.lobbies[l]|;
      && n <= |sends|
      && IsBroadcast(sends[..n], l, t.lobbies[l], PlayerLeaving(p, l), false)
      && if LeaveRemoves(t, p) then IsClearOutput(sends[n..], LeftLobby(t, p).lobbies, live) else sends[n..] == []
  }

  /**
   * `action_leave` notifies before it removes: the leaver receives its own
   * leaving notice, as does every other member of the lobby.
   */
  lemma LeaveTellsLeaver(sends: seq<Send>, t: Tables, p: PlayerId, live: set<Conn>)
    requires IsLeaveOutput(sends, t, p, live)
    requires LeaveRemoves(t, p)
    ensures var l := LeaveLobby(t, p);
            && Send(t.lobbies[l][p], Notice(PlayerLeaving(p, l), l, false)) in sends
            && forall q :: q in t.lobbies[l] ==> Send(t.lobbies[l][q], Notice(PlayerLeaving(p, l), l, false)) in sends
  {
    var l := LeaveLobby(t, p);
    var n := |t.lobbies[l]|;
    BroadcastShape(sends[..n], l, t.lobbies[l], PlayerLeaving(p, l), false);
    forall q | q in t.lobbies[l] ensures Send(t.lobbies[l][q], Notice(PlayerLeaving(p, l), l, false)) in sends {
      var s := Send(t.lobbies[l][q], Notice(PlayerLeaving(p, l), l, false));
      assert s in sends[..n];
      var i :| 0 <= i < n && sends[..n][i] == s;
      assert sends[i] == s;
    }
  }

  // ---------------------------------------------------------------------
  // action_create
  // ---------------------------------------------------------------------

  /** Get-or-create, then the new lobby `id` listing only the creator. */
  function Opened(t: Tables, p: PlayerId, conn: Conn, id: LobbyId): Tables
  {
    var t1 := WithPlayer(t, p, conn);
    Tables(t1.lobbies[id := map[p := t1.players[p].conn]], t1.players)
  }

  /**
   * `player.lobby_id = lobby.id`. The Player object is written whether or
   * not the sweep has dropped it from the directory; a dropped one is never
   * read again, so only a listed one matters.
   */
  function Assigned(t: Tables, p: PlayerId, id: LobbyId): Tables
  {
    if p in t.players then t.(players := t.players[p := t.players[p].(lobbyId := Some(id))]) else t
  }

  /** The nested `action_leave` of `action_create` does not raise in its sweep. */
  ghost predicate CreateSafe(t: Tables, p: PlayerId, conn: Conn, id: LobbyId, live: set<Conn>)
  {
    LeaveSafe(Opened(t, p, conn, id), p, live)
  }

  /** The effect of `action_create` with `id` as the lobby id drawn. */
  function CreateStep(t: Tables, p: PlayerId, conn: Conn, id: LobbyId, live: set<Conn>): (e: Effect)
    requires CreateSafe(t, p, conn, id, live)
    // the nested leave is the only thing that can raise
    ensures e.raised ==> e == LeaveStep(Opened(t, p, conn, id), p, live)
    // a creator in no lobby just gets the new lobby
    ensures (p !in t.players || t.players[p].lobbyId.None?) ==>
              && !e.raised
              && e.after.lobbies == t.lobbies[id := map[p := StoredConn(t, p, conn)]]
              && e.after.players == t.players[p := Player(StoredConn(t, p, conn), Some(id))]
  {
    var entered := Opened(t, p, conn, id);
    if entered.players[p].lobbyId.Some? then
      var left := LeaveStep(entered, p, live);
      if left.raised then left else Effect(false, Assigned(left.after, p, id))
    else
      Effect(false, Assigned(entered, p, id))
  }

  /** The members the closing `lobby.notify` reaches: the Lobby object leaves the registry only once empty. */
  function CreatedMembers(t: Tables, id: LobbyId): Members
  {
    if id in t.lobbies then t.lobbies[id] else map[]
  }

  /** What `action_create` sends: the nested leave's sends, then the "created" notice. */
  ghost predicate IsCreateOutput(sends: seq<Send>, t: Tables, p: PlayerId, conn: Conn, id: LobbyId, live: set<Conn>)
    requires CreateSafe(t, p, conn, id, live)
  {
    var entered := Opened(t, p, conn, id);
    var e := CreateStep(t, p, conn, id, live);
    exists cut ::
      && 0 <= cut <= |sends|
      && (if entered.players[p].lobbyId.Some? then IsLeaveOutput(sends[..cut], entered, p, live) else sends[..cut] == [])
      && if e.raised then sends[cut..] == []
         else IsBroadcast(sends[cut..], id, CreatedMembers(e.after, id), LobbyCreated(id, p), false)
  }

  // ---------------------------------------------------------------------
  // action_list
  // ---------------------------------------------------------------------

  /** What `action_list` sends: one reply, to the requesting connection, listing every lobby id once. */
  ghost predicate IsListOutput(sends: seq<Send>, lobbies: map<LobbyId, Members>, conn: Conn)
  {
    |sends| == 1 && sends[0].to == conn && sends[0].msg.LobbyList? && Enumerates(sends[0].msg.ids, lobbies.Keys)
  }

  /**
   * Two list replies over the same registry carry the same ids, each once;
   * only their order (the dictionary's, not modelled) may differ.
   */
  lemma ListRepeatable(a: seq<Send>, b: seq<Send>, lobbies: map<LobbyId, Members>, c1: Conn, c2: Conn)
    requires IsListOutput(a, lobbies, c1) && IsListOutput(b, lobbies, c2)
    ensures multiset(a[0].msg.ids) == multiset(b[0].msg.ids) == multiset(lobbies.Keys)
    ensures |a[0].msg.ids| == |lobbies|
  {
    EnumerationsPermute(a[0].msg.ids, b[0].msg.ids, lobbies.Keys);
    DistinctMultiset(a[0].msg.ids, lobbies.Keys);
    EnumerationLength(a[0].msg.ids, lobbies.Keys);
  }

  // ---------------------------------------------------------------------
  // process_message
  // ---------------------------------------------------------------------

  /** A decoded request: the `action`, `player` and `lobby_id` fields, each possibly absent. */
  datatype Request = Request(action: Option<string>, player: Option<PlayerId>, lobbyId: Option<LobbyId>)

  /** How `process_message` ended. */
  datatype Outcome =
    | Malformed   // missing action or player, or an empty player: a warning, nothing else
    | Ignored     // an action other than create/join/list/leave
    | Completed   // the action ran to its end
    | Raised      // the action raised an exception

  /** `action` and a non-empty `player` are both present. */
  predicate WellFormed(req: Request)
  {
    req.action.Some? && req.player.Some? && req.player.value != ""
  }

  datatype Dispatched = Dispatched(outcome: Outcome, after: Tables)

  function Finished(e: Effect): Dispatched
  {
    Dispatched(if e.raised then Raised else Completed, e.after)
  }

  /** The effect of `process_message` on the tables; `id` is the lobby id a create would draw. */
  function Dispatch(t: Tables, conn: Conn, req: Request, id: LobbyId, live: set<Conn>): (r: Dispatched)
    requires DispatchSafe(t, conn, req, id, live)
    ensures !WellFormed(req) ==> r == Dispatched(Malformed, t)
    ensures WellFormed(req) && req.action.value !in {"create", "join", "list", "leave"} ==> r == Dispatched(Ignored, t)
    ensures WellFormed(req) && req.action.value == "list" ==> r == Dispatched(Completed, t)
    ensures r.outcome == Raised ==> WellFormed(req) && req.action.value in {"create", "leave"} && r.after.lobbies.Keys <= t.lobbies.Keys + {id}
  {
    if !WellFormed(req) then Dispatched(Malformed, t)
    else
      var p := req.player.value;
      match req.action.value
      case "create" => Finished(CreateStep(t, p, conn, id, live))
      case "join" => Dispatched(Completed, JoinStep(t, p, req.lobbyId, conn))
      case "list" => Dispatched(Completed, t)
      case "leave" => Finished(LeaveStep(t, p, live))
      case _ => Dispatched(Ignored, t)
  }

  /** The sweeps nested in the request do not raise. */
  ghost predicate DispatchSafe(t: Tables, conn: Conn, req: Request, id: LobbyId, live: set<Conn>)
  {
    WellFormed(req) ==>
      && (req.action.value == "create" ==> CreateSafe(t, req.player.value, conn, id, live))
      && (req.action.value == "leave" ==> LeaveSafe(t, req.player.value, live))
  }

  /** What `process_message` sends: those of the one action it routes to, or nothing. */
  ghost predicate IsDispatchOutput(sends: seq<Send>, t: Tables, conn: Conn, req: Request, id: LobbyId, live: set<Conn>)
    requires DispatchSafe(t, conn, req, id, live)
  {
    if !WellFormed(req) then sends == []
    else
      var p := req.player.value;
      match req.action.value
      case "create" => IsCreateOutput(sends, t, p, conn, id, live)
      case "join" => IsJoinOutput(sends, t, p, req.lobbyId, conn)
      case "list" => IsListOutput(sends, t.lobbies, conn)
      case "leave" => IsLeaveOutput(sends, t, p, live)
      case _ => sends == []
  }
}
