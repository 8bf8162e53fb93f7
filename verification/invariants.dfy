/**
 * Properties of the coordinator's tables across requests and sweeps: which
 * invariants each handler keeps, when the handlers raise, and where the
 * tables drift apart.
 */
module Invariants {
  import opened LobbyTypes
  import opened Sweeps
  import opened Actions

  // ---------------------------------------------------------------------
  // Consistency: no empty lobby, and every lobby_id names a lobby listing its player
  // ---------------------------------------------------------------------

  /** No lobby in the registry has an empty member table. */
  ghost predicate NonEmptyLobbies(t: Tables)
  {
    forall l :: l in t.lobbies ==> t.lobbies[l] != map[]
  }

  /** A player's `lobby_id`, when set, names a registered lobby that lists the player. */
  ghost predicate LobbyIdSound(t: Tables)
  {
    forall p :: p in t.players && t.players[p].lobbyId.Some? ==>
      t.players[p].lobbyId.value in t.lobbies && p in t.lobbies[t.players[p].lobbyId.value]
  }

  ghost predicate Consistent(t: Tables)
  {
    NonEmptyLobbies(t) && LobbyIdSound(t)
  }

  /** The server starts consistent. */
  lemma InitialConsistent()
    ensures Consistent(Tables(map[], map[]))
    ensures Registered(Tables(map[], map[]))
  {
  }

  /** `check_game_start` keeps the tables consistent. */
  lemma GameStartConsistent(t: Tables)
    requires Consistent(t)
    ensures Consistent(GameStart(t))
  {
    var r := GameStart(t);
    var started := Started(t.lobbies);
    forall p | p in r.players && r.players[p].lobbyId.Some?
      ensures r.players[p].lobbyId.value in r.lobbies && p in r.lobbies[r.players[p].lobbyId.value]
    {
      var l := t.players[p].lobbyId.value;
      assert p !in MembersOf(t.lobbies, started);
      assert l !in started;
    }
  }

  /** A player `clear_lobbies` keeps in the directory keeps its record and every lobby it was listed in. */
  lemma ClearKeepsMember(t: Tables, live: set<Conn>, p: PlayerId, l: LobbyId)
    requires p in Clear(t, live).players
    requires l in t.lobbies && p in t.lobbies[l]
    ensures Clear(t, live).players[p] == t.players[p]
    ensures l in Clear(t, live).lobbies && p in Clear(t, live).lobbies[l]
  {
    assert p !in DeadOf(t.lobbies, t.lobbies.Keys, live);
    assert t.lobbies[l][p] in live;
  }

  /** `clear_lobbies` keeps `lobby_id` sound and leaves no empty lobby. */
  lemma ClearConsistent(t: Tables, live: set<Conn>)
    requires LobbyIdSound(t)
    ensures Consistent(Clear(t, live))
  {
    var r := Clear(t, live);
    forall p | p in r.players && r.players[p].lobbyId.Some?
      ensures r.players[p].lobbyId.value in r.lobbies && p in r.lobbies[r.players[p].lobbyId.value]
    {
      ClearKeepsMember(t, live, p, t.players[p].lobbyId.value);
    }
  }

  /** `action_join` keeps the tables consistent. */
  lemma JoinConsistent(t: Tables, p: PlayerId, requested: Option<LobbyId>, conn: Conn)
    requires Consistent(t)
    ensures Consistent(JoinStep(t, p, requested, conn))
  {
  }

  /** Taking the leaver off its lobby keeps `lobby_id` sound. */
  lemma LeftLobbySound(t: Tables, p: PlayerId)
    requires LobbyIdSound(t) && LeaveRemoves(t, p)
    ensures LobbyIdSound(LeftLobby(t, p))
  {
  }

  /** `action_leave` keeps the tables consistent, whether or not it raises. */
  lemma LeaveConsistent(t: Tables, p: PlayerId, live: set<Conn>)
    requires Consistent(t) && LeaveSafe(t, p, live)
    ensures Consistent(LeaveStep(t, p, live).after)
  {
    if LeaveRemoves(t, p) {
      LeftLobbySound(t, p);
      ClearConsistent(LeftLobby(t, p), live);
    }
  }

  /**
   * Under a sound `lobby_id`, an `action_leave` whose closing sweep does not
   * raise raises exactly for an unknown player or one in no lobby.
   */
  lemma LeaveRaisesOnlyWhenOutside(t: Tables, p: PlayerId, live: set<Conn>)
    requires LobbyIdSound(t) && LeaveSafe(t, p, live)
    ensures LeaveStep(t, p, live).raised <==> p !in t.players || t.players[p].lobbyId.None?
  {
  }

  /** Opening a lobby under a fresh id keeps the tables consistent. */
  lemma OpenedConsistent(t: Tables, p: PlayerId, conn: Conn, id: LobbyId)
    requires Consistent(t) && id !in t.lobbies
    ensures Consistent(Opened(t, p, conn, id))
  {
    var t1 := WithPlayer(t, p, conn);
    assert Consistent(t1);
    var o := Opened(t, p, conn, id);
    assert o.players == t1.players;
    forall l | l in o.lobbies ensures o.lobbies[l] != map[] {
      if l == id {
        assert p in o.lobbies[l];
      } else {
        assert o.lobbies[l] == t.lobbies[l];
      }
    }
    forall q | q in o.players && o.players[q].lobbyId.Some?
      ensures o.players[q].lobbyId.value in o.lobbies && q in o.lobbies[o.players[q].lobbyId.value]
    {
      var x := t1.players[q].lobbyId.value;
      assert x in t.lobbies && q in t.lobbies[x];
      assert x != id;
      assert o.lobbies[x] == t.lobbies[x];
    }
  }

  /** With a fresh lobby id, a sound `lobby_id` and a nested sweep that does not raise, `action_create` never raises. */
  lemma CreateNeverRaises(t: Tables, p: PlayerId, conn: Conn, id: LobbyId, live: set<Conn>)
    requires Consistent(t) && id !in t.lobbies && CreateSafe(t, p, conn, id, live)
    ensures !CreateStep(t, p, conn, id, live).raised
  {
    var o := Opened(t, p, conn, id);
    OpenedConsistent(t, p, conn, id);
    LeaveRaisesOnlyWhenOutside(o, p, live);
  }

  /** `action_create` with a fresh lobby id keeps the tables consistent. */
  lemma CreateConsistent(t: Tables, p: PlayerId, conn: Conn, id: LobbyId, live: set<Conn>)
    requires Consistent(t) && id !in t.lobbies && CreateSafe(t, p, conn, id, live)
    ensures Consistent(CreateStep(t, p, conn, id, live).after)
  {
    var o := Opened(t, p, conn, id);
    OpenedConsistent(t, p, conn, id);
    CreateNeverRaises(t, p, conn, id, live);
    var left := if o.players[p].lobbyId.Some? then LeaveStep(o, p, live).after else o;
    assert CreateStep(t, p, conn, id, live).after == Assigned(left, p, id);
    LeaveConsistent(o, p, live);
    // the creator, if still listed, is a member of the new lobby
    if p in left.players {
      if o.players[p].lobbyId.Some? && LeaveRemoves(o, p) {
        ClearKeepsMember(LeftLobby(o, p), live, p, id);
      }
      assert id in left.lobbies && p in left.lobbies[id];
    }
    AssignedConsistent(left, p, id);
  }

  /** Setting `lobby_id` to a lobby that lists the player keeps the tables consistent. */
  lemma AssignedConsistent(t: Tables, p: PlayerId, id: LobbyId)
    requires Consistent(t)
    requires p in t.players ==> id in t.lobbies && p in t.lobbies[id]
    ensures Consistent(Assigned(t, p, id))
  {
  }

  /** Every request `process_message` routes keeps the tables consistent, given a fresh lobby id and sweeps that do not raise. */
  lemma DispatchConsistent(t: Tables, conn: Conn, req: Request, id: LobbyId, live: set<Conn>)
    requires Consistent(t) && id !in t.lobbies && DispatchSafe(t, conn, req, id, live)
    ensures Consistent(Dispatch(t, conn, req, id, live).after)
    ensures Dispatch(t, conn, req, id, live).outcome == Raised ==>
              req.action == Some("leave") && (req.player.value !in t.players || t.players[req.player.value].lobbyId.None?)
  {
    if WellFormed(req) {
      var p := req.player.value;
      match req.action.value
      case "create" => CreateConsistent(t, p, conn, id, live); CreateNeverRaises(t, p, conn, id, live);
      case "join" => JoinConsistent(t, p, req.lobbyId, conn);
      case "list" =>
      case "leave" => LeaveConsistent(t, p, live); LeaveRaisesOnlyWhenOutside(t, p, live);
      case _ =>
    }
  }

  // ---------------------------------------------------------------------
  // Registration: every listed member is in the directory, under the same connection
  // ---------------------------------------------------------------------

  /** Each member a lobby lists has a directory record holding the connection the lobby holds. */
  ghost predicate Registered(t: Tables)
  {
    forall l, k :: l in t.lobbies && k in t.lobbies[l] ==> k in t.players && t.lobbies[l][k] == t.players[k].conn
  }

  /** No player is listed by two lobbies. */
  ghost predicate SingleMembership(t: Tables)
  {
    forall l, l', k :: l in t.lobbies && l' in t.lobbies && k in t.lobbies[l] && k in t.lobbies[l'] ==> l == l'
  }

  /** The sweep's unguarded deletions succeed on registered tables where nobody is in two lobbies. */
  lemma RegisteredClearSafe(t: Tables, live: set<Conn>)
    requires Registered(t) && SingleMembership(t)
    ensures ClearSafe(t, live)
  {
  }

  /** On registered tables where nobody is in two lobbies, the sweep that closes `action_leave` does not raise. */
  lemma RegisteredLeaveSafe(t: Tables, p: PlayerId, live: set<Conn>)
    requires Registered(t) && SingleMembership(t)
    ensures LeaveSafe(t, p, live)
  {
    if LeaveRemoves(t, p) {
      LeftLobbyKeeps(t, p);
      var left := LeftLobby(t, p);
      assert Registered(left);
      assert SingleMembership(left);
      RegisteredClearSafe(left, live);
    }
  }

  /**
   * On consistent, registered tables where nobody is in two lobbies, and
   * with a fresh id, the sweep nested in `action_create` does not raise:
   * the creator is listed by its old lobby and the new one, and leaves the old one first.
   */
  lemma RegisteredCreateSafe(t: Tables, p: PlayerId, conn: Conn, id: LobbyId, live: set<Conn>)
    requires Consistent(t) && Registered(t) && SingleMembership(t) && id !in t.lobbies
    ensures CreateSafe(t, p, conn, id, live)
  {
    var o := Opened(t, p, conn, id);
    if LeaveRemoves(o, p) {
      LeftLobbyKeeps(o, p);
      var left := LeftLobby(o, p);
      var l0 := LeaveLobby(o, p);
      assert l0 in t.lobbies && p in t.lobbies[l0] && l0 != id;
      assert Registered(left) by {
        forall l, k | l in left.lobbies && k in left.lobbies[l] ensures k in left.players && left.lobbies[l][k] == left.players[k].conn {
          if l != id {
            assert k in t.lobbies[l];
          }
        }
      }
      assert SingleMembership(left) by {
        forall l, l', k | l in left.lobbies && l' in left.lobbies && k in left.lobbies[l] && k in left.lobbies[l'] ensures l == l' {
          if k != p && l != id && l' != id {
            assert k in t.lobbies[l] && k in t.lobbies[l'];
          }
        }
      }
      RegisteredClearSafe(left, live);
    }
  }

  lemma JoinRegistered(t: Tables, p: PlayerId, requested: Option<LobbyId>, conn: Conn)
    requires Registered(t)
    ensures Registered(JoinStep(t, p, requested, conn))
  {
  }

  /** `clear_lobbies` keeps members registered: a member is dead in every lobby or in none. */
  lemma ClearRegistered(t: Tables, live: set<Conn>)
    requires Registered(t)
    ensures Registered(Clear(t, live))
  {
    var r := Clear(t, live);
    forall l, k | l in r.lobbies && k in r.lobbies[l] ensures k in r.players && r.lobbies[l][k] == r.players[k].conn {
      assert k in t.lobbies[l] && r.lobbies[l][k] == t.lobbies[l][k] == t.players[k].conn;
      assert forall l' :: l' in t.lobbies && k in t.lobbies[l'] ==> t.lobbies[l'][k] in live;
    }
  }

  lemma LeaveRegistered(t: Tables, p: PlayerId, live: set<Conn>)
    requires Registered(t) && LeaveSafe(t, p, live)
    ensures Registered(LeaveStep(t, p, live).after)
  {
    if LeaveRemoves(t, p) {
      ClearRegistered(LeftLobby(t, p), live);
    }
  }

  lemma CreateRegistered(t: Tables, p: PlayerId, conn: Conn, id: LobbyId, live: set<Conn>)
    requires Registered(t) && CreateSafe(t, p, conn, id, live)
    ensures Registered(CreateStep(t, p, conn, id, live).after)
  {
    var o := Opened(t, p, conn, id);
    assert Registered(o);
    LeaveRegistered(o, p, live);
  }

  /**
   * `action_create` moves a live creator: on registered, consistent tables
   * and a fresh id, a creator whose connection is live ends up alone in the
   * new lobby with `lobby_id` set to it, and (unless its old lobby id was
   * the empty, falsy string) off the lobby it was in.
   */
  lemma CreateMovesCreator(t: Tables, p: PlayerId, conn: Conn, id: LobbyId, live: set<Conn>)
    requires Consistent(t) && Registered(t) && id !in t.lobbies
    requires StoredConn(t, p, conn) in live && CreateSafe(t, p, conn, id, live)
    ensures var e := CreateStep(t, p, conn, id, live);
            && !e.raised
            && id in e.after.lobbies && e.after.lobbies[id] == map[p := StoredConn(t, p, conn)]
            && e.after.lobbies.Keys <= t.lobbies.Keys + {id}
            && p in e.after.players && e.after.players[p] == Player(StoredConn(t, p, conn), Some(id))
            && (p in t.players && t.players[p].lobbyId.Some? && t.players[p].lobbyId.value != "" ==>
                  var prev := t.players[p].lobbyId.value;
                  prev in e.after.lobbies ==> p !in e.after.lobbies[prev])
  {
    CreateNeverRaises(t, p, conn, id, live);
    var o := Opened(t, p, conn, id);
    var c := StoredConn(t, p, conn);
    OpenedConsistent(t, p, conn, id);
    assert o.players[p].conn == c;
    if o.players[p].lobbyId.Some? && LeaveRemoves(o, p) {
      var r := CreatorLeaves(t, p, conn, id, live);
      assert CreateStep(t, p, conn, id, live).after == Assigned(r, p, id);
    } else {
      assert CreateStep(t, p, conn, id, live).after == Assigned(o, p, id);
    }
  }

  /** With a fresh id, `action_create` leaves every other live member of every lobby where it was. */
  lemma CreateKeepsOthers(t: Tables, p: PlayerId, conn: Conn, id: LobbyId, live: set<Conn>)
    requires Consistent(t) && id !in t.lobbies && CreateSafe(t, p, conn, id, live)
    ensures var e := CreateStep(t, p, conn, id, live);
            forall l, k :: l in t.lobbies && k in t.lobbies[l] && k != p && t.lobbies[l][k] in live ==>
              l in e.after.lobbies && k in e.after.lobbies[l] && e.after.lobbies[l][k] == t.lobbies[l][k]
  {
    CreateNeverRaises(t, p, conn, id, live);
    var o := Opened(t, p, conn, id);
    assert forall l :: l in t.lobbies ==> l in o.lobbies && o.lobbies[l] == t.lobbies[l];
    if o.players[p].lobbyId.Some? && LeaveRemoves(o, p) {
      assert CreateStep(t, p, conn, id, live).after.lobbies == LeaveStep(o, p, live).after.lobbies;
    } else {
      assert CreateStep(t, p, conn, id, live).after.lobbies == o.lobbies;
    }
  }

  /** With a fresh id, `action_create` leaves the record of every other player found dead nowhere. */
  lemma CreateKeepsRecords(t: Tables, p: PlayerId, conn: Conn, id: LobbyId, live: set<Conn>)
    requires Consistent(t) && id !in t.lobbies && CreateSafe(t, p, conn, id, live)
    ensures var e := CreateStep(t, p, conn, id, live);
            forall q :: q in t.players && q != p && (forall l :: l in t.lobbies && q in t.lobbies[l] ==> t.lobbies[l][q] in live) ==>
              q in e.after.players && e.after.players[q] == t.players[q]
  {
    CreateNeverRaises(t, p, conn, id, live);
    var o := Opened(t, p, conn, id);
    var left := if o.players[p].lobbyId.Some? then LeaveStep(o, p, live).after else o;
    assert CreateStep(t, p, conn, id, live).after == Assigned(left, p, id);
    forall q | q in t.players && q != p && (forall l :: l in t.lobbies && q in t.lobbies[l] ==> t.lobbies[l][q] in live)
      ensures q in left.players && left.players[q] == t.players[q]
    {
      assert q in o.players && o.players[q] == t.players[q];
      if o.players[p].lobbyId.Some? && LeaveRemoves(o, p) {
        assert q !in o.lobbies[id];
        assert forall l :: l in o.lobbies && q in o.lobbies[l] ==> o.lobbies[l][q] in live;
      }
    }
  }

  /** A `list` request after a `create` names the new lobby in its reply. */
  lemma CreateThenListed(t: Tables, p: PlayerId, conn: Conn, id: LobbyId, live: set<Conn>, sends: seq<Send>, c: Conn)
    requires Consistent(t) && Registered(t) && id !in t.lobbies
    requires StoredConn(t, p, conn) in live && CreateSafe(t, p, conn, id, live)
    requires IsListOutput(sends, CreateStep(t, p, conn, id, live).after.lobbies, c)
    ensures sends[0].to == c && id in sends[0].msg.ids
  {
    CreateMovesCreator(t, p, conn, id, live);
  }

  /** The nested leave of `action_create` takes the creator off its old lobby only. */
  lemma CreatorLeaves(t: Tables, p: PlayerId, conn: Conn, id: LobbyId, live: set<Conn>) returns (r: Tables)
    requires Consistent(t) && Registered(t) && id !in t.lobbies
    requires StoredConn(t, p, conn) in live && CreateSafe(t, p, conn, id, live)
    requires LeaveRemoves(Opened(t, p, conn, id), p)
    ensures r == LeaveStep(Opened(t, p, conn, id), p, live).after
    ensures id in r.lobbies && r.lobbies[id] == map[p := StoredConn(t, p, conn)]
    ensures p in r.players && r.players[p].conn == StoredConn(t, p, conn)
    ensures var prev := t.players[p].lobbyId.value;
            prev in r.lobbies ==> p !in r.lobbies[prev]
  {
    var o := Opened(t, p, conn, id);
    var c := StoredConn(t, p, conn);
    CreatorLiveElsewhere(t, p, conn, id, live);
    var left := LeftLobby(o, p);
    r := LeaveStep(o, p, live).after;
    assert r == Clear(left, live);
    ClearKeepsSolo(left, live, id, p, c);
  }

  /** Once off its old lobby, the creator is listed only by the new one, under a live connection. */
  lemma CreatorLiveElsewhere(t: Tables, p: PlayerId, conn: Conn, id: LobbyId, live: set<Conn>)
    requires Consistent(t) && Registered(t) && id !in t.lobbies
    requires StoredConn(t, p, conn) in live && CreateSafe(t, p, conn, id, live)
    requires LeaveRemoves(Opened(t, p, conn, id), p)
    ensures var o := Opened(t, p, conn, id);
            && LeaveLobby(o, p) != id
            && o.players[p].conn == StoredConn(t, p, conn)
            && id in LeftLobby(o, p).lobbies && LeftLobby(o, p).lobbies[id] == map[p := StoredConn(t, p, conn)]
            && forall l :: l in o.lobbies && l != LeaveLobby(o, p) && p in o.lobbies[l] ==> o.lobbies[l][p] in live
  {
    var o := Opened(t, p, conn, id);
    forall l | l in o.lobbies && l != LeaveLobby(o, p) && p in o.lobbies[l] ensures o.lobbies[l][p] in live {
      if l != id {
        assert o.lobbies[l] == t.lobbies[l];
      }
    }
  }

  /** A one-member lobby whose member is live survives `clear_lobbies` unchanged. */
  lemma ClearKeepsSolo(t: Tables, live: set<Conn>, id: LobbyId, p: PlayerId, c: Conn)
    requires id in t.lobbies && t.lobbies[id] == map[p := c] && c in live
    ensures id in Clear(t, live).lobbies && Clear(t, live).lobbies[id] == map[p := c]
  {
    var r := Clear(t, live);
    assert p in t.lobbies[id] && t.lobbies[id][p] in live;
    assert id in r.lobbies && p in r.lobbies[id] && r.lobbies[id][p] == c;
    assert r.lobbies[id].Keys <= {p};
  }

  // ---------------------------------------------------------------------
  // Where the tables drift: concrete runs
  // ---------------------------------------------------------------------

  /** Two players with one lobby each, then `p` joins `q`'s lobby: `p` is listed by both. */
  function TwoLobbies(): Tables
  {
    Tables(map["L1" := map["p" := 1], "L2" := map["q" := 2, "p" := 1]],
           map["p" := Player(1, Some("L1")), "q" := Player(2, Some("L2"))])
  }

  /** The run that reaches `TwoLobbies`: p creates L1, q creates L2, p joins L2. */
  lemma TwoLobbiesReachable(live: set<Conn>)
    ensures CreateSafe(Tables(map[], map[]), "p", 1, "L1", live)
    ensures var t1 := CreateStep(Tables(map[], map[]), "p", 1, "L1", live);
            && CreateSafe(t1.after, "q", 2, "L2", live)
            && var t2 := CreateStep(t1.after, "q", 2, "L2", live);
            && !t1.raised && !t2.raised
            && JoinStep(t2.after, "p", Some("L2"), 1) == TwoLobbies()
  {
    assert "L1" != "L2" by { assert "L1"[1] != "L2"[1]; }
    assert "p" != "q" by { assert "p"[0] != "q"[0]; }
    var t1 := CreateStep(Tables(map[], map[]), "p", 1, "L1", live);
    assert t1.after == Tables(map["L1" := map["p" := 1]], map["p" := Player(1, Some("L1"))]);
    var t2 := CreateStep(t1.after, "q", 2, "L2", live);
    assert t2.after == Tables(map["L1" := map["p" := 1], "L2" := map["q" := 2]],
                              map["p" := Player(1, Some("L1")), "q" := Player(2, Some("L2"))]);
    var r := JoinStep(t2.after, "p", Some("L2"), 1);
    assert r.lobbies == TwoLobbies().lobbies;
    assert r.players == TwoLobbies().players;
  }

  /**
   * `action_join` does not set `lobby_id`: the player stays listed by its
   * own lobby too, so the registry stops being single-membership.
   */
  lemma JoinAllowsTwoLobbies()
    ensures Registered(TwoLobbies()) && Consistent(TwoLobbies())
    ensures !SingleMembership(TwoLobbies())
    ensures TwoLobbies().players["p"].lobbyId == Some("L1")
  {
    var t := TwoLobbies();
    assert "L1" != "L2" by { assert "L1"[1] != "L2"[1]; }
    assert "L1" in t.lobbies && "L2" in t.lobbies && "p" in t.lobbies["L1"] && "p" in t.lobbies["L2"];
  }

  /**
   * Once `p` (listed by two lobbies) has disconnected, the sweep at the end
   * of `q`'s leave deletes `p` from the directory twice, so the request raises.
   */
  lemma DisconnectInTwoLobbiesRaises()
    ensures LeaveRemoves(TwoLobbies(), "q")
    ensures !LeaveSafe(TwoLobbies(), "q", {2})
    ensures !ClearSafe(TwoLobbies(), {2})
  {
    var t := TwoLobbies();
    assert "L1" != "L2" by { assert "L1"[1] != "L2"[1]; }
    assert "p" != "q" by { assert "p"[0] != "q"[0]; }
    assert "L2" != "" && "q" in t.lobbies["L2"];
    var left := LeftLobby(t, "q");
    assert left.lobbies["L2"] == map["p" := 1];
    assert "L1" in left.lobbies && "p" in left.lobbies["L1"] && left.lobbies["L1"]["p"] !in {2};
    assert "L2" in left.lobbies && "p" in left.lobbies["L2"] && left.lobbies["L2"]["p"] !in {2};
    DeadTwiceUnsafe(left, {2}, "L1", "L2", "p");
    DeadTwiceUnsafe(t, {2}, "L1", "L2", "p");
  }

  /**
   * `check_game_start` deletes every member of a started lobby from the
   * directory, including one still listed by another lobby: afterwards
   * `p` is listed by L1 with no directory record.
   */
  lemma GameStartStrandsMember()
    ensures GameStart(TwoLobbies()) == Tables(map["L1" := map["p" := 1]], map[])
    ensures !Registered(GameStart(TwoLobbies()))
    ensures !ClearSafe(GameStart(TwoLobbies()), {})
  {
    var t := TwoLobbies();
    TwoLobbiesStart();
    var r := Tables(map["L1" := map["p" := 1]], map[]);
    assert "L1" != "L2" by { assert "L1"[1] != "L2"[1]; }
    assert t.lobbies - {"L2"} == r.lobbies;
    assert t.players - {"q", "p"} == r.players;
    assert GameStart(t) == r;
    assert DeadAt(r.lobbies, {}, "L1", "p");
  }

  /** In `TwoLobbies` only L2 has reached the threshold; its members are q and p. */
  lemma TwoLobbiesStart()
    ensures Started(TwoLobbies().lobbies) == {"L2"}
    ensures MembersOf(TwoLobbies().lobbies, {"L2"}) == {"q", "p"}
  {
    var t := TwoLobbies();
    assert "L1" != "L2" by { assert "L1"[1] != "L2"[1]; }
    assert "p" != "q" by { assert "p"[0] != "q"[0]; }
    assert |t.lobbies["L1"]| == 1;
    assert t.lobbies["L2"].Keys == {"q", "p"};
    assert |t.lobbies["L2"]| == 2;
    assert "q" in t.lobbies["L2"] && "p" in t.lobbies["L2"];
    forall k | k in MembersOf(t.lobbies, {"L2"}) ensures k in {"q", "p"} {
      assert k in t.lobbies["L2"];
    }
  }

  /** A member found dead in two lobbies is deleted from the directory twice. */
  lemma DeadTwiceUnsafe(t: Tables, live: set<Conn>, l: LobbyId, l': LobbyId, k: PlayerId)
    requires l != l' && DeadAt(t.lobbies, live, l, k) && DeadAt(t.lobbies, live, l', k)
    ensures !ClearSafe(t, live)
  {
  }

  /** A player who only joined has no `lobby_id`, so its leave request raises. */
  lemma JoinerCannotLeave(live: set<Conn>)
    ensures CreateSafe(Tables(map[], map[]), "q", 2, "L", live)
    ensures var t1 := CreateStep(Tables(map[], map[]), "q", 2, "L", live).after;
            var t2 := JoinStep(t1, "p", Some("L"), 1);
            && "p" in t2.lobbies["L"]
            && LeaveSafe(t2, "p", live)
            && LeaveStep(t2, "p", live).raised
  {
    assert "p" != "q" by { assert "p"[0] != "q"[0]; }
    var t1 := CreateStep(Tables(map[], map[]), "q", 2, "L", live).after;
    assert t1 == Tables(map["L" := map["q" := 2]], map["q" := Player(2, Some("L"))]);
  }
}
