/**
 * The two periodic sweeps of `LobbyServer`, as functions of the tables:
 * `check_game_start` (GameStart) and `clear_lobbies` (Clear), together with
 * the notifications each one sends, stated up to the iteration orders the
 * source leaves to its dictionaries and sets.
 */
module Sweeps {
  import opened LobbyTypes
  import opened Broadcast

  // ---------------------------------------------------------------------
  // check_game_start
  // ---------------------------------------------------------------------

  /** A lobby whose member count has reached the start threshold. */
  predicate Starts(m: Members)
  {
    |m| >= MinPlayersToStart
  }

  function Started(lobbies: map<LobbyId, Members>): set<LobbyId>
  {
    set l | l in lobbies && Starts(lobbies[l])
  }

  /** The ids listed by the lobbies named in `ids`. */
  function MembersOf(lobbies: map<LobbyId, Members>, ids: set<LobbyId>): set<PlayerId>
  {
    set l, k | l in ids && l in lobbies && k in lobbies[l] :: k
  }

  lemma MembersOfAdd(lobbies: map<LobbyId, Members>, ids: set<LobbyId>, l: LobbyId)
    requires l in lobbies
    ensures MembersOf(lobbies, ids + {l}) == MembersOf(lobbies, ids) + lobbies[l].Keys
  {
    forall k | k in lobbies[l] ensures k in MembersOf(lobbies, ids + {l}) { }
  }

  /** The tables after `check_game_start`. */
  function GameStart(t: Tables): (r: Tables)
    // no lobby at the threshold survives, the others are untouched
    ensures forall l :: l in r.lobbies ==> |r.lobbies[l]| < MinPlayersToStart
    ensures forall l :: l in t.lobbies && |t.lobbies[l]| >= MinPlayersToStart ==> l !in r.lobbies
    ensures forall l :: l in t.lobbies && |t.lobbies[l]| < MinPlayersToStart ==>
              l in r.lobbies && r.lobbies[l] == t.lobbies[l]
    ensures r.lobbies.Keys <= t.lobbies.Keys
    // every member of a started lobby leaves the directory, nobody else does
    ensures forall l, k :: l in t.lobbies && |t.lobbies[l]| >= MinPlayersToStart && k in t.lobbies[l] ==>
              k !in r.players
    ensures forall p :: p in t.players && (forall l :: l in t.lobbies && p in t.lobbies[l] ==> |t.lobbies[l]| < MinPlayersToStart) ==>
              p in r.players && r.players[p] == t.players[p]
    ensures r.players.Keys <= t.players.Keys
  {
    Tables(t.lobbies - Started(t.lobbies), t.players - MembersOf(t.lobbies, Started(t.lobbies)))
  }

  /** One started lobby and the order its members were notified in. */
  datatype Visit = Visit(lobby: LobbyId, order: seq<PlayerId>)

  function VisitedLobbies(visits: seq<Visit>): seq<LobbyId>
  {
    seq(|visits|, i requires 0 <= i < |visits| => visits[i].lobby)
  }

  /** The game-started notification of lobby `l`. */
  function StartNotice(l: LobbyId): Msg
  {
    Notice(StartingGame(l), l, true)
  }

  /** Each visit names a lobby and an iteration order of its members. */
  ghost predicate WellVisited(visits: seq<Visit>, lobbies: map<LobbyId, Members>)
  {
    forall i :: 0 <= i < |visits| ==>
      visits[i].lobby in lobbies && Enumerates(visits[i].order, lobbies[visits[i].lobby].Keys)
  }

  /** `visits` is a run of the notify loop of `check_game_start` over `lobbies`. */
  ghost predicate ValidStart(visits: seq<Visit>, lobbies: map<LobbyId, Members>)
  {
    && Enumerates(VisitedLobbies(visits), Started(lobbies))
    && WellVisited(visits, lobbies)
  }

  /** The notifications `check_game_start` sends along `visits`. */
  function StartSends(visits: seq<Visit>, lobbies: map<LobbyId, Members>): seq<Send>
    decreases |visits|
  {
    if visits == [] then []
    else
      var v := visits[|visits| - 1];
      StartSends(visits[..|visits| - 1], lobbies)
        + (if v.lobby in lobbies then Fanout(v.order, lobbies[v.lobby], StartNotice(v.lobby)) else [])
  }

  /** The state of the notify loop of `check_game_start` once the lobbies in `done` are told. */
  ghost predicate AnnouncedThrough(lobbies: map<LobbyId, Members>, done: set<LobbyId>, visits: seq<Visit>, sends: seq<Send>)
  {
    && WellVisited(visits, lobbies)
    && Enumerates(VisitedLobbies(visits), done)
    && sends == StartSends(visits, lobbies)
  }

  lemma AnnouncedThroughNone(lobbies: map<LobbyId, Members>)
    ensures AnnouncedThrough(lobbies, {}, [], [])
  {
  }

  /** One more started lobby notified. */
  lemma AnnounceNext(lobbies: map<LobbyId, Members>, done: set<LobbyId>, visits: seq<Visit>, sends: seq<Send>,
                     l: LobbyId, order: seq<PlayerId>, notice: seq<Send>)
    requires AnnouncedThrough(lobbies, done, visits, sends)
    requires l in lobbies && l !in done && Enumerates(order, lobbies[l].Keys)
    requires notice == Fanout(order, lobbies[l], StartNotice(l))
    ensures AnnouncedThrough(lobbies, done + {l}, visits + [Visit(l, order)], sends + notice)
  {
    var next := visits + [Visit(l, order)];
    assert next[..|visits|] == visits;
    forall i | 0 <= i < |visits| ensures next[i] == visits[i] { }
    assert VisitedLobbies(next) == VisitedLobbies(visits) + [l];
    EnumeratesSnoc(VisitedLobbies(visits), done, l);
  }

  /** The number of sends that carry `msg`. */
  function CountMsg(sends: seq<Send>, msg: Msg): nat
    decreases |sends|
  {
    if sends == [] then 0
    else CountMsg(sends[..|sends| - 1], msg) + (if sends[|sends| - 1].msg == msg then 1 else 0)
  }

  lemma {:induction false} CountMsgAppend(a: seq<Send>, b: seq<Send>, msg: Msg)
    ensures CountMsg(a + b, msg) == CountMsg(a, msg) + CountMsg(b, msg)
    decreases |b|
  {
    if b == [] {
      assert a + b == a;
    } else {
      var n := |b| - 1;
      assert (a + b)[..|a + b| - 1] == a + b[..n];
      CountMsgAppend(a, b[..n], msg);
    }
  }

  /** A notification visiting an iteration order carries its message exactly once per member. */
  lemma {:induction false} FanoutCount(order: seq<PlayerId>, members: Members, msg: Msg, other: Msg)
    requires forall k :: k in order ==> k in members
    ensures CountMsg(Fanout(order, members, msg), other) == if other == msg then |order| else 0
  {
    if order != [] {
      var n := |order| - 1;
      assert order[n] in order;
      FanoutCount(order[..n], members, msg, other);
      CountMsgAppend(Fanout(order[..n], members, msg), [Send(members[order[n]], msg)], other);
      assert [Send(members[order[n]], msg)][..0] == [];
    }
  }

  /** Dropping the last visit keeps the rest well formed and distinct. */
  lemma VisitsPrefix(visits: seq<Visit>, lobbies: map<LobbyId, Members>)
    requires visits != [] && WellVisited(visits, lobbies)
    requires forall i, j :: 0 <= i < j < |visits| ==> visits[i].lobby != visits[j].lobby
    ensures var prefix := visits[..|visits| - 1];
            && WellVisited(prefix, lobbies)
            && (forall i, j :: 0 <= i < j < |prefix| ==> prefix[i].lobby != prefix[j].lobby)
            && VisitedLobbies(visits) == VisitedLobbies(prefix) + [visits[|visits| - 1].lobby]
            && visits[|visits| - 1].lobby !in VisitedLobbies(prefix)
  {
    var n := |visits| - 1;
    var prefix := visits[..n];
    forall i | 0 <= i < n ensures prefix[i] == visits[i] { }
    forall i | 0 <= i < n ensures VisitedLobbies(prefix)[i] != visits[n].lobby {
      assert visits[i].lobby != visits[n].lobby;
    }
  }

  /** The start notices of the lobbies visited so far: one per member of each. */
  lemma {:induction false} StartSendsCount(visits: seq<Visit>, lobbies: map<LobbyId, Members>, l: LobbyId)
    requires WellVisited(visits, lobbies)
    requires forall i, j :: 0 <= i < j < |visits| ==> visits[i].lobby != visits[j].lobby
    ensures CountMsg(StartSends(visits, lobbies), StartNotice(l)) ==
            if l in VisitedLobbies(visits) then |lobbies[l]| else 0
  {
    if visits != [] {
      var n := |visits| - 1;
      var v := visits[n];
      var prefix := visits[..n];
      VisitsPrefix(visits, lobbies);
      StartSendsCount(prefix, lobbies, l);
      var fan := Fanout(v.order, lobbies[v.lobby], StartNotice(v.lobby));
      FanoutCount(v.order, lobbies[v.lobby], StartNotice(v.lobby), StartNotice(l));
      CountMsgAppend(StartSends(prefix, lobbies), fan, StartNotice(l));
      EnumerationLength(v.order, lobbies[v.lobby].Keys);
    }
  }

  /** Every send of the visits so far is a start notice of a visited lobby to one of its members. */
  lemma {:induction false} StartSendsShape(visits: seq<Visit>, lobbies: map<LobbyId, Members>)
    requires WellVisited(visits, lobbies)
    ensures forall s :: s in StartSends(visits, lobbies) ==>
              exists l :: l in VisitedLobbies(visits) && l in lobbies && s.msg == StartNotice(l) &&
                          exists k :: k in lobbies[l] && s.to == lobbies[l][k]
  {
    if visits != [] {
      var n := |visits| - 1;
      var v := visits[n];
      var prefix := visits[..n];
      assert WellVisited(prefix, lobbies) by {
        forall i | 0 <= i < n ensures prefix[i] == visits[i] { }
      }
      StartSendsShape(prefix, lobbies);
      BroadcastReachesMembers(v.order, lobbies[v.lobby], StartNotice(v.lobby));
      assert VisitedLobbies(visits) == VisitedLobbies(prefix) + [v.lobby];
    }
  }

  /** Every member of every visited lobby gets that lobby's start notice. */
  lemma {:induction false} StartSendsReach(visits: seq<Visit>, lobbies: map<LobbyId, Members>)
    requires WellVisited(visits, lobbies)
    ensures forall l, k :: l in VisitedLobbies(visits) && l in lobbies && k in lobbies[l] ==>
              Send(lobbies[l][k], StartNotice(l)) in StartSends(visits, lobbies)
  {
    if visits != [] {
      var n := |visits| - 1;
      var v := visits[n];
      var prefix := visits[..n];
      assert WellVisited(prefix, lobbies) by {
        forall i | 0 <= i < n ensures prefix[i] == visits[i] { }
      }
      StartSendsReach(prefix, lobbies);
      BroadcastReachesMembers(v.order, lobbies[v.lobby], StartNotice(v.lobby));
      assert VisitedLobbies(visits) == VisitedLobbies(prefix) + [v.lobby];
      var before := StartSends(prefix, lobbies);
      var fan := Fanout(v.order, lobbies[v.lobby], StartNotice(v.lobby));
      assert StartSends(visits, lobbies) == before + fan;
      forall l, k | l in VisitedLobbies(visits) && l in lobbies && k in lobbies[l]
        ensures Send(lobbies[l][k], StartNotice(l)) in before + fan
      {
        if l != v.lobby {
          assert l in VisitedLobbies(prefix);
          assert Send(lobbies[l][k], StartNotice(l)) in before;
        }
      }
    }
  }

  /**
   * What `check_game_start` sends: each member of a started lobby gets that
   * lobby's game-started notice, exactly as many of them go out as the lobby
   * has members, and nothing else is sent.
   */
  lemma StartNotices(visits: seq<Visit>, lobbies: map<LobbyId, Members>)
    requires ValidStart(visits, lobbies)
    ensures forall l :: l in lobbies && |lobbies[l]| >= MinPlayersToStart ==>
              CountMsg(StartSends(visits, lobbies), StartNotice(l)) == |lobbies[l]|
    ensures forall l, k :: l in lobbies && |lobbies[l]| >= MinPlayersToStart && k in lobbies[l] ==>
              Send(lobbies[l][k], StartNotice(l)) in StartSends(visits, lobbies)
    ensures forall s :: s in StartSends(visits, lobbies) ==>
              exists l :: l in lobbies && |lobbies[l]| >= MinPlayersToStart && s.msg == StartNotice(l) &&
                          exists k :: k in lobbies[l] && s.to == lobbies[l][k]
  {
    var ls := VisitedLobbies(visits);
    assert forall i, j :: 0 <= i < j < |visits| ==> visits[i].lobby != visits[j].lobby by {
      forall i, j | 0 <= i < j < |visits| ensures visits[i].lobby != visits[j].lobby {
        assert ls[i] != ls[j];
      }
    }
    forall l | l in lobbies && |lobbies[l]| >= MinPlayersToStart
      ensures CountMsg(StartSends(visits, lobbies), StartNotice(l)) == |lobbies[l]|
    {
      assert l in Started(lobbies);
      StartSendsCount(visits, lobbies, l);
    }
    StartSendsShape(visits, lobbies);
    StartSendsReach(visits, lobbies);
    assert forall l :: l in lobbies && |lobbies[l]| >= MinPlayersToStart ==> l in Started(lobbies);
  }

  // ---------------------------------------------------------------------
  // clear_lobbies
  // ---------------------------------------------------------------------

  /** The members of one lobby whose connection is still live. */
  function Alive(m: Members, live: set<Conn>): Members
  {
    map k | k in m && m[k] in live :: m[k]
  }

  /** The members of one lobby whose connection is gone. */
  function DeadIn(m: Members, live: set<Conn>): set<PlayerId>
  {
    set k | k in m && m[k] !in live
  }

  /** Member `k` of lobby `l` is found dead there by `clear_lobbies`. */
  predicate DeadAt(lobbies: map<LobbyId, Members>, live: set<Conn>, l: LobbyId, k: PlayerId)
  {
    l in lobbies && k in lobbies[l] && lobbies[l][k] !in live
  }

  /** The members found dead in the lobbies named by `ids`. */
  function DeadOf(lobbies: map<LobbyId, Members>, ids: set<LobbyId>, live: set<Conn>): set<PlayerId>
  {
    set l, k | l in ids && l in lobbies && k in lobbies[l] && DeadAt(lobbies, live, l, k) :: k
  }

  /** Every lobby with its dead members taken out. */
  function Pruned(lobbies: map<LobbyId, Members>, live: set<Conn>): map<LobbyId, Members>
  {
    map l | l in lobbies :: Alive(lobbies[l], live)
  }

  /** The registry part-way through `clear_lobbies`: the lobbies in `done` are purged. */
  function PrunedOn(lobbies: map<LobbyId, Members>, live: set<Conn>, done: set<LobbyId>): map<LobbyId, Members>
  {
    map l | l in lobbies :: if l in done then Alive(lobbies[l], live) else lobbies[l]
  }

  lemma PrunedOnMore(lobbies: map<LobbyId, Members>, live: set<Conn>, done: set<LobbyId>, l: LobbyId)
    requires l in lobbies
    ensures PrunedOn(lobbies, live, done)[l := Alive(lobbies[l], live)] == PrunedOn(lobbies, live, done + {l})
  {
  }

  lemma DeadOfAdd(lobbies: map<LobbyId, Members>, ids: set<LobbyId>, l: LobbyId, live: set<Conn>)
    requires l in lobbies
    ensures DeadOf(lobbies, ids + {l}, live) == DeadOf(lobbies, ids, live) + DeadIn(lobbies[l], live)
  {
    forall k | k in DeadIn(lobbies[l], live) ensures k in DeadOf(lobbies, ids + {l}, live) { }
  }

  /** The lobbies left with no live member. */
  function Emptied(lobbies: map<LobbyId, Members>, live: set<Conn>): set<LobbyId>
  {
    set l | l in lobbies && Alive(lobbies[l], live) == map[]
  }

  /**
   * The unguarded `del self.players[player_id]` of `clear_lobbies` succeeds:
   * every dead member is in the directory, and is found dead in one lobby
   * only (a second deletion of the same id raises KeyError).
   */
  ghost predicate ClearSafe(t: Tables, live: set<Conn>)
  {
    forall l, k :: DeadAt(t.lobbies, live, l, k) ==>
      && k in t.players
      && forall l' :: l' != l ==> !DeadAt(t.lobbies, live, l', k)
  }

  /** The tables after `clear_lobbies`, given the set of live connections. */
  function Clear(t: Tables, live: set<Conn>): (r: Tables)
    // no empty lobby survives, and every listed connection is live
    ensures forall l :: l in r.lobbies ==> r.lobbies[l] != map[]
    ensures forall l, k :: l in r.lobbies && k in r.lobbies[l] ==> r.lobbies[l][k] in live
    // a dead member leaves its lobby and the directory
    ensures forall l, k :: l in t.lobbies && k in t.lobbies[l] && t.lobbies[l][k] !in live ==>
              k !in r.players && (l in r.lobbies ==> k !in r.lobbies[l])
    // a live member stays where it was, so its lobby stays too
    ensures forall l, k :: l in t.lobbies && k in t.lobbies[l] && t.lobbies[l][k] in live ==>
              l in r.lobbies && k in r.lobbies[l] && r.lobbies[l][k] == t.lobbies[l][k]
    // nothing is added
    ensures forall l :: l in r.lobbies ==> l in t.lobbies && r.lobbies[l].Keys <= t.lobbies[l].Keys
    // a player found dead nowhere keeps its record
    ensures forall p :: p in t.players && (forall l :: l in t.lobbies && p in t.lobbies[l] ==> t.lobbies[l][p] in live) ==>
              p in r.players && r.players[p] == t.players[p]
    ensures r.players.Keys <= t.players.Keys
  {
    assert forall l, k :: l in t.lobbies && k in t.lobbies[l] && t.lobbies[l][k] in live ==>
      k in Alive(t.lobbies[l], live) && l !in Emptied(t.lobbies, live);
    Tables(Pruned(t.lobbies, live) - Emptied(t.lobbies, live), t.players - DeadOf(t.lobbies, t.lobbies.Keys, live))
  }

  /** One dead member of a lobby and the order the remaining members were told in. */
  datatype Departure = Departure(player: PlayerId, order: seq<PlayerId>)

  /** One lobby's pass of `clear_lobbies`. */
  datatype Purge = Purge(lobby: LobbyId, departures: seq<Departure>)

  function Departed(deps: seq<Departure>): set<PlayerId>
  {
    set i | 0 <= i < |deps| :: deps[i].player
  }

  /** The departure notice about `p` in lobby `l`. */
  function LeftNotice(p: PlayerId, l: LobbyId): Msg
  {
    Notice(PlayerLeft(p), l, false)
  }

  /**
   * The sends of one lobby's pass: after each dead member is deleted, the
   * members still listed (the ones not deleted yet) are told.
   */
  function PurgeSends(l: LobbyId, m: Members, deps: seq<Departure>): seq<Send>
    decreases |deps|
  {
    if deps == [] then []
    else
      var d := deps[|deps| - 1];
      PurgeSends(l, m, deps[..|deps| - 1]) + Fanout(d.order, m - Departed(deps), LeftNotice(d.player, l))
  }

  /** Each departure's order enumerates the members left after it. */
  ghost predicate WellDeparted(m: Members, deps: seq<Departure>)
  {
    forall i :: 0 <= i < |deps| ==> Enumerates(deps[i].order, (m - Departed(deps[..i + 1])).Keys)
  }

  /**
   * The state of one lobby's pass once the dead members in `done` have been
   * deleted and the rest told: the departures are distinct, name exactly
   * `done`, and account for `sends`.
   */
  ghost predicate DepartedThrough(l: LobbyId, m: Members, done: set<PlayerId>, deps: seq<Departure>, sends: seq<Send>)
  {
    && (forall i, j :: 0 <= i < j < |deps| ==> deps[i].player != deps[j].player)
    && Departed(deps) == done
    && WellDeparted(m, deps)
    && sends == PurgeSends(l, m, deps)
  }

  lemma DepartedThroughNone(l: LobbyId, m: Members)
    ensures DepartedThrough(l, m, {}, [], [])
  {
  }

  lemma DepartedSnoc(deps: seq<Departure>, d: Departure)
    ensures Departed(deps + [d]) == Departed(deps) + {d.player}
  {
    var next := deps + [d];
    forall x | x in Departed(next) ensures x in Departed(deps) + {d.player} {
      var i :| 0 <= i < |next| && next[i].player == x;
      if i < |deps| { assert deps[i].player == x; }
    }
    forall x | x in Departed(deps) ensures x in Departed(next) {
      var i :| 0 <= i < |deps| && deps[i].player == x;
      assert next[i].player == x;
    }
    assert next[|deps|].player == d.player;
  }

  /** One more departure of a lobby's pass. */
  lemma PurgeStep(l: LobbyId, m: Members, done: set<PlayerId>, deps: seq<Departure>, sends: seq<Send>,
                  k: PlayerId, order: seq<PlayerId>, notice: seq<Send>)
    requires DepartedThrough(l, m, done, deps, sends)
    requires k !in done
    requires Enumerates(order, (m - (done + {k})).Keys)
    requires notice == Fanout(order, m - (done + {k}), LeftNotice(k, l))
    ensures DepartedThrough(l, m, done + {k}, deps + [Departure(k, order)], sends + notice)
  {
    var d := Departure(k, order);
    var next := deps + [d];
    DepartedSnoc(deps, d);
    assert next[..|deps|] == deps;
    forall i, j | 0 <= i < j < |next| ensures next[i].player != next[j].player {
      if j == |deps| {
        assert deps[i].player in Departed(deps);
      }
    }
    assert WellDeparted(m, next) by {
      forall i | 0 <= i < |deps| ensures next[i] == deps[i] && next[..i + 1] == deps[..i + 1] { }
      assert next[..|next|] == next;
    }
  }

  /** `deps` is a run of one lobby's pass over members `m`. */
  ghost predicate ValidPurge(m: Members, live: set<Conn>, deps: seq<Departure>)
  {
    && (forall i, j :: 0 <= i < j < |deps| ==> deps[i].player != deps[j].player)
    && Departed(deps) == DeadIn(m, live)
    && WellDeparted(m, deps)
  }

  function PurgedLobbies(purges: seq<Purge>): seq<LobbyId>
  {
    seq(|purges|, i requires 0 <= i < |purges| => purges[i].lobby)
  }

  /** Each pass names a lobby and is a valid run over its original members. */
  ghost predicate WellPurged(purges: seq<Purge>, lobbies: map<LobbyId, Members>, live: set<Conn>)
  {
    forall i :: 0 <= i < |purges| ==>
      purges[i].lobby in lobbies && ValidPurge(lobbies[purges[i].lobby], live, purges[i].departures)
  }

  /** `purges` is a run of `clear_lobbies` over `lobbies`: every lobby once. */
  ghost predicate ValidClear(purges: seq<Purge>, lobbies: map<LobbyId, Members>, live: set<Conn>)
  {
    && Enumerates(PurgedLobbies(purges), lobbies.Keys)
    && WellPurged(purges, lobbies, live)
  }

  /** One more lobby's pass of `clear_lobbies`. */
  lemma ClearStep(purges: seq<Purge>, p: Purge, lobbies: map<LobbyId, Members>, live: set<Conn>)
    requires WellPurged(purges, lobbies, live)
    requires p.lobby in lobbies && ValidPurge(lobbies[p.lobby], live, p.departures)
    ensures WellPurged(purges + [p], lobbies, live)
    ensures PurgedLobbies(purges + [p]) == PurgedLobbies(purges) + [p.lobby]
    ensures ClearSends(purges + [p], lobbies) == ClearSends(purges, lobbies) + PurgeSends(p.lobby, lobbies[p.lobby], p.departures)
  {
    assert (purges + [p])[..|purges|] == purges;
  }

  /** The notifications `clear_lobbies` sends along `purges`. */
  function ClearSends(purges: seq<Purge>, lobbies: map<LobbyId, Members>): seq<Send>
    decreases |purges|
  {
    if purges == [] then []
    else
      var p := purges[|purges| - 1];
      ClearSends(purges[..|purges| - 1], lobbies)
        + (if p.lobby in lobbies then PurgeSends(p.lobby, lobbies[p.lobby], p.departures) else [])
  }

  /**
   * The state of the first loop of `clear_lobbies`, started on tables `t`,
   * once the lobbies in `done` have had their pass: `now` is what the tables
   * hold, `emptied` the lobbies noted empty so far.
   */
  ghost predicate PurgedThrough(t: Tables, live: set<Conn>, done: set<LobbyId>, now: Tables,
                                emptied: set<LobbyId>, purges: seq<Purge>, sends: seq<Send>)
  {
    && done <= t.lobbies.Keys
    && now.lobbies == PrunedOn(t.lobbies, live, done)
    && now.players == t.players - DeadOf(t.lobbies, done, live)
    && emptied == Emptied(t.lobbies, live) * done
    && WellPurged(purges, t.lobbies, live)
    && Enumerates(PurgedLobbies(purges), done)
    && sends == ClearSends(purges, t.lobbies)
  }

  lemma PurgedThroughNone(t: Tables, live: set<Conn>)
    ensures PurgedThrough(t, live, {}, t, {}, [], [])
  {
    assert t.lobbies == PrunedOn(t.lobbies, live, {});
    assert t.players == t.players - DeadOf(t.lobbies, {}, live);
  }

  /** A lobby not visited yet is still as it was, and its dead members are all in the directory. */
  lemma PurgeReady(t: Tables, live: set<Conn>, done: set<LobbyId>, now: Tables,
                   emptied: set<LobbyId>, purges: seq<Purge>, sends: seq<Send>, l: LobbyId)
    requires ClearSafe(t, live)
    requires PurgedThrough(t, live, done, now, emptied, purges, sends)
    requires l in t.lobbies && l !in done
    ensures l in now.lobbies && now.lobbies[l] == t.lobbies[l]
    ensures DeadIn(now.lobbies[l], live) <= now.players.Keys
  {
    forall k | k in DeadIn(t.lobbies[l], live) ensures k in t.players && k !in DeadOf(t.lobbies, done, live) {
      assert DeadAt(t.lobbies, live, l, k);
    }
  }

  /** One more lobby's pass of the first loop of `clear_lobbies`. */
  lemma PurgeNext(t: Tables, live: set<Conn>, done: set<LobbyId>, now: Tables,
                  emptied: set<LobbyId>, purges: seq<Purge>, sends: seq<Send>,
                  l: LobbyId, deps: seq<Departure>, notices: seq<Send>)
    requires PurgedThrough(t, live, done, now, emptied, purges, sends)
    requires l in t.lobbies && l !in done
    requires ValidPurge(t.lobbies[l], live, deps) && notices == PurgeSends(l, t.lobbies[l], deps)
    ensures PurgedThrough(t, live, done + {l},
                          Tables(now.lobbies[l := Alive(t.lobbies[l], live)], now.players - DeadIn(t.lobbies[l], live)),
                          emptied + (if Alive(t.lobbies[l], live) == map[] then {l} else {}),
                          purges + [Purge(l, deps)], sends + notices)
  {
    DeadOfAdd(t.lobbies, done, l, live);
    DeleteBoth(t.players, DeadOf(t.lobbies, done, live), DeadIn(t.lobbies[l], live));
    PrunedOnMore(t.lobbies, live, done, l);
    ClearStep(purges, Purge(l, deps), t.lobbies, live);
    EnumeratesSnoc(PurgedLobbies(purges), done, l);
  }

  /** Once every lobby has had its pass, the tables are pruned and the empty lobbies noted. */
  lemma PurgedThroughAll(t: Tables, live: set<Conn>, now: Tables,
                         emptied: set<LobbyId>, purges: seq<Purge>, sends: seq<Send>)
    requires PurgedThrough(t, live, t.lobbies.Keys, now, emptied, purges, sends)
    ensures now.lobbies == Pruned(t.lobbies, live)
    ensures now.players == t.players - DeadOf(t.lobbies, t.lobbies.Keys, live)
    ensures emptied == Emptied(t.lobbies, live)
    ensures ValidClear(purges, t.lobbies, live) && sends == ClearSends(purges, t.lobbies)
  {
  }

  /** A departure notice of one pass is about a dead member and goes to another member. */
  ghost predicate DepartureNotice(s: Send, l: LobbyId, m: Members, live: set<Conn>)
  {
    && s.msg.Notice? && s.msg.text.PlayerLeft? && s.msg.lobbyId == l && !s.msg.gameStarted
    && s.msg.text.player in DeadIn(m, live)
    && exists q :: q in m && q != s.msg.text.player && s.to == m[q]
  }

  /** Dropping the last departure keeps the rest well formed. */
  lemma DeparturesPrefix(m: Members, deps: seq<Departure>)
    requires deps != [] && WellDeparted(m, deps)
    ensures var prefix := deps[..|deps| - 1];
            && WellDeparted(m, prefix)
            && Departed(deps) == Departed(prefix) + {deps[|deps| - 1].player}
  {
    var n := |deps| - 1;
    var prefix := deps[..n];
    assert deps == prefix + [deps[n]];
    DepartedSnoc(prefix, deps[n]);
    forall i | 0 <= i < n ensures prefix[i] == deps[i] && prefix[..i + 1] == deps[..i + 1] { }
  }

  lemma {:induction false} PurgeSendsShape(l: LobbyId, m: Members, live: set<Conn>, deps: seq<Departure>)
    requires WellDeparted(m, deps)
    requires Departed(deps) <= DeadIn(m, live)
    ensures forall s :: s in PurgeSends(l, m, deps) ==> DepartureNotice(s, l, m, live)
  {
    if deps != [] {
      var n := |deps| - 1;
      var d := deps[n];
      var prefix := deps[..n];
      DeparturesPrefix(m, deps);
      PurgeSendsShape(l, m, live, prefix);
      assert deps[..n + 1] == deps;
      var rest := m - Departed(deps);
      BroadcastReachesMembers(d.order, rest, LeftNotice(d.player, l));
      forall s | s in Fanout(d.order, rest, LeftNotice(d.player, l)) ensures DepartureNotice(s, l, m, live) {
        var q :| q in rest && s.to == rest[q];
        assert q in m && q != d.player;
      }
    }
  }

  /**
   * What `clear_lobbies` sends: only departure notices about members found
   * dead, each to a member of the same lobby other than the one that left
   * (it is deleted before the notice goes out).
   */
  lemma {:induction false} ClearNotices(purges: seq<Purge>, lobbies: map<LobbyId, Members>, live: set<Conn>)
    requires WellPurged(purges, lobbies, live)
    ensures forall s :: s in ClearSends(purges, lobbies) ==>
              s.msg.Notice? && s.msg.lobbyId in lobbies && DepartureNotice(s, s.msg.lobbyId, lobbies[s.msg.lobbyId], live)
  {
    if purges != [] {
      var n := |purges| - 1;
      var p := purges[n];
      var prefix := purges[..n];
      assert WellPurged(prefix, lobbies, live) by {
        forall i | 0 <= i < n ensures prefix[i] == purges[i] { }
      }
      ClearNotices(prefix, lobbies, live);
      PurgeSendsShape(p.lobby, lobbies[p.lobby], live, p.departures);
    }
  }

  /** Each departure of a pass is announced to every member that stays live. */
  lemma {:induction false} PurgeSendsReach(l: LobbyId, m: Members, live: set<Conn>, deps: seq<Departure>)
    requires WellDeparted(m, deps)
    requires Departed(deps) <= DeadIn(m, live)
    ensures forall k, q :: k in Departed(deps) && q in Alive(m, live) ==>
              Send(m[q], LeftNotice(k, l)) in PurgeSends(l, m, deps)
  {
    if deps != [] {
      var n := |deps| - 1;
      var d := deps[n];
      var prefix := deps[..n];
      DeparturesPrefix(m, deps);
      PurgeSendsReach(l, m, live, prefix);
      assert deps[..n + 1] == deps;
      var rest := m - Departed(deps);
      BroadcastReachesMembers(d.order, rest, LeftNotice(d.player, l));
      var before := PurgeSends(l, m, prefix);
      var fan := Fanout(d.order, rest, LeftNotice(d.player, l));
      assert PurgeSends(l, m, deps) == before + fan;
      forall k, q | k in Departed(deps) && q in Alive(m, live)
        ensures Send(m[q], LeftNotice(k, l)) in before + fan
      {
        if k == d.player {
          assert q !in DeadIn(m, live);
          assert q in rest && rest[q] == m[q];
        } else {
          assert Send(m[q], LeftNotice(k, l)) in before;
        }
      }
    }
  }

  /** The departures announced along the passes so far: every dead member, to every live one. */
  lemma {:induction false} ClearSendsReach(purges: seq<Purge>, lobbies: map<LobbyId, Members>, live: set<Conn>)
    requires WellPurged(purges, lobbies, live)
    ensures forall l, k, q ::
              l in PurgedLobbies(purges) && l in lobbies && k in DeadIn(lobbies[l], live) && q in Alive(lobbies[l], live) ==>
              Send(lobbies[l][q], LeftNotice(k, l)) in ClearSends(purges, lobbies)
  {
    if purges != [] {
      var n := |purges| - 1;
      var p := purges[n];
      var prefix := purges[..n];
      assert WellPurged(prefix, lobbies, live) by {
        forall i | 0 <= i < n ensures prefix[i] == purges[i] { }
      }
      ClearSendsReach(prefix, lobbies, live);
      assert PurgedLobbies(purges) == PurgedLobbies(prefix) + [p.lobby];
      PurgeSendsReach(p.lobby, lobbies[p.lobby], live, p.departures);
      var before := ClearSends(prefix, lobbies);
      var pass := PurgeSends(p.lobby, lobbies[p.lobby], p.departures);
      assert ClearSends(purges, lobbies) == before + pass;
      forall l, k, q | l in PurgedLobbies(purges) && l in lobbies && k in DeadIn(lobbies[l], live) && q in Alive(lobbies[l], live)
        ensures Send(lobbies[l][q], LeftNotice(k, l)) in before + pass
      {
        if l != p.lobby {
          assert l in PurgedLobbies(prefix);
          assert Send(lobbies[l][q], LeftNotice(k, l)) in before;
        }
      }
    }
  }

  /**
   * `clear_lobbies` announces every departure: each member found dead is
   * reported, in its lobby, to every member of that lobby whose connection
   * is live (live members are never deleted, so all are still listed).
   */
  lemma ClearAnnounces(purges: seq<Purge>, lobbies: map<LobbyId, Members>, live: set<Conn>)
    requires ValidClear(purges, lobbies, live)
    ensures forall l, k, q :: l in lobbies && k in DeadIn(lobbies[l], live) && q in Alive(lobbies[l], live) ==>
              Send(lobbies[l][q], LeftNotice(k, l)) in ClearSends(purges, lobbies)
  {
    ClearSendsReach(purges, lobbies, live);
  }
}
