/**
 * `LobbyServer` itself: the player directory and the lobby registry as two
 * map fields updated in place, each handler a method proved against the
 * function of the tables that specifies it, and `process_message` routing a
 * decoded request to one of them.
 *
 * The send operations are returned, in order, rather than performed; the
 * set of live connections (`CONNECTED_CLIENTS`) and the freshly drawn lobby
 * id (`uuid.uuid4()`) are parameters.
 */
module Server {
  import opened LobbyTypes
  import opened Broadcast
  import opened Sweeps
  import opened Actions

  class LobbyServer {
    /** `self.lobbies`: lobby id to its member table. */
    var lobbies: map<LobbyId, Members>
    /** `self.players`: player id to its record. */
    var players: map<PlayerId, Player>

    /** The two tables as a value. */
    function Snapshot(): Tables
      reads this
    {
      Tables(lobbies, players)
    }

    /** A server starts with no lobby and no player. */
    constructor ()
      ensures lobbies == map[] && players == map[]
    {
      lobbies := map[];
      players := map[];
    }

    /**
     * `check_game_start`: every lobby at the threshold is told the game
     * starts and is dropped, then all its members leave the directory. The
     * final `del self.players[...]` raises unless each of them is listed.
     */
    method CheckGameStart() returns (sends: seq<Send>, ghost visits: seq<Visit>)
      requires MembersOf(lobbies, Started(lobbies)) <= players.Keys
      modifies this
      ensures Snapshot() == GameStart(old(Snapshot()))
      ensures ValidStart(visits, old(lobbies))
      ensures sends == StartSends(visits, old(lobbies))
    {
      var startIds, doomed := StartingLobbies();
      sends, visits := AnnounceStarts(startIds);
      DropPlayers(doomed);
    }

    /** The first loop of `check_game_start`: the lobbies to start and the players to delete. */
    method StartingLobbies() returns (startIds: set<LobbyId>, doomed: set<PlayerId>)
      ensures startIds == Started(lobbies)
      ensures doomed == MembersOf(lobbies, startIds)
    {
      startIds, doomed := {}, {};
      var pending := lobbies.Keys;
      while pending != {}
        invariant pending <= lobbies.Keys
        invariant startIds == Started(lobbies) - pending
        invariant doomed == MembersOf(lobbies, startIds)
        decreases pending
      {
        var l :| l in pending;
        if |lobbies[l]| >= MinPlayersToStart {
          MembersOfAdd(lobbies, startIds, l);
          startIds := startIds + {l};
          doomed := doomed + lobbies[l].Keys;
        }
        pending := pending - {l};
      }
    }

    /** The second loop of `check_game_start`: notify each started lobby, then drop it. */
    method AnnounceStarts(startIds: set<LobbyId>) returns (sends: seq<Send>, ghost visits: seq<Visit>)
      requires startIds <= lobbies.Keys
      modifies this
      ensures lobbies == old(lobbies) - startIds && players == old(players)
      ensures Enumerates(VisitedLobbies(visits), startIds)
      ensures WellVisited(visits, old(lobbies))
      ensures sends == StartSends(visits, old(lobbies))
    {
      sends, visits := [], [];
      ghost var start := lobbies;
      var done: set<LobbyId> := {};
      AnnouncedThroughNone(start);
      while startIds - done != {}
        invariant done <= startIds
        invariant lobbies == start - done && players == old(players)
        invariant AnnouncedThrough(start, done, visits, sends)
        decreases startIds - done
      {
        var l :| l in startIds - done;
        assert l in lobbies && lobbies[l] == start[l];
        var notice, order := Notify(l, lobbies[l], StartingGame(l), true);
        AnnounceNext(start, done, visits, sends, l, order, notice);
        DeleteMore(start, done, l);
        sends := sends + notice;
        visits := visits + [Visit(l, order)];
        lobbies := Delete(lobbies, l);
        ghost var prior := done;
        done := done + {l};
        assert startIds - done < startIds - prior;
      }
      assert done == startIds by {
        assert forall l :: l in startIds ==> l in done;
      }
    }

    /** The last loop of `check_game_start`: `del self.players[player_id]` for each id. */
    method DropPlayers(ids: set<PlayerId>)
      requires ids <= players.Keys
      modifies this
      ensures players == old(players) - ids && lobbies == old(lobbies)
    {
      var done: set<PlayerId> := {};
      while ids - done != {}
        invariant done <= ids
        invariant players == old(players) - done && lobbies == old(lobbies)
        decreases ids - done
      {
        var k :| k in ids - done;
        DeleteMore(old(players), done, k);
        players := Delete(players, k);
        done := done + {k};
      }
      assert forall k :: k in ids ==> k in done;
      assert done == ids;
    }

    /**
     * One lobby's pass of `clear_lobbies`: each member whose connection is
     * gone is deleted from the lobby and the directory, and the members still
     * listed are told it left.
     */
    method PurgeLobby(l: LobbyId, live: set<Conn>) returns (sends: seq<Send>, ghost deps: seq<Departure>)
      requires l in lobbies
      requires DeadIn(lobbies[l], live) <= players.Keys
      modifies this
      ensures lobbies == old(lobbies)[l := Alive(old(lobbies)[l], live)]
      ensures players == old(players) - DeadIn(old(lobbies)[l], live)
      ensures ValidPurge(old(lobbies)[l], live, deps)
      ensures sends == PurgeSends(l, old(lobbies)[l], deps)
    {
      ghost var m := lobbies[l];
      var dead := set k | k in lobbies[l] && lobbies[l][k] !in live;
      sends, deps := [], [];
      var done: set<PlayerId> := {};
      assert m - done == m && old(players) - done == players;
      DepartedThroughNone(l, m);
      while dead - done != {}
        invariant done <= dead
        invariant lobbies == old(lobbies)[l := m - done]
        invariant players == old(players) - done
        invariant DepartedThrough(l, m, done, deps, sends)
        decreases dead - done
      {
        var k :| k in dead - done;
        DeleteMore(m, done, k);
        DeleteMore(old(players), done, k);
        lobbies := lobbies[l := Delete(lobbies[l], k)];
        players := Delete(players, k);
        assert lobbies == old(lobbies)[l := m - (done + {k})];
        assert players == old(players) - (done + {k});
        var notice, order := Notify(l, lobbies[l], PlayerLeft(k), false);
        PurgeStep(l, m, done, deps, sends, k, order, notice);
        sends := sends + notice;
        deps := deps + [Departure(k, order)];
        ghost var prior := done;
        done := done + {k};
        assert dead - done < dead - prior;
      }
      assert forall k :: k in dead ==> k in done;
      assert done == dead;
      assert m - dead == Alive(m, live) by {
        forall k | k in m ensures k in m - dead <==> k in Alive(m, live) { }
      }
      assert lobbies == old(lobbies)[l := Alive(old(lobbies)[l], live)];
      assert players == old(players) - DeadIn(old(lobbies)[l], live);
    }

    /**
     * `clear_lobbies`: every lobby is purged of its dead members, then the
     * lobbies left empty are dropped. The unguarded deletions from the
     * directory raise unless `ClearSafe` holds.
     */
    method ClearLobbies(live: set<Conn>) returns (sends: seq<Send>, ghost purges: seq<Purge>)
      requires ClearSafe(Snapshot(), live)
      modifies this
      ensures Snapshot() == Clear(old(Snapshot()), live)
      ensures ValidClear(purges, old(lobbies), live)
      ensures sends == ClearSends(purges, old(lobbies))
    {
      var emptied;
      emptied, sends, purges := PurgeAll(live);
      DropLobbies(emptied);
    }

    /**
     * The first loop of `clear_lobbies`: each lobby's pass in turn, noting
     * the lobbies it leaves empty.
     */
    method PurgeAll(live: set<Conn>) returns (emptied: set<LobbyId>, sends: seq<Send>, ghost purges: seq<Purge>)
      requires ClearSafe(Snapshot(), live)
      modifies this
      ensures lobbies == Pruned(old(lobbies), live)
      ensures players == old(players) - DeadOf(old(lobbies), old(lobbies).Keys, live)
      ensures emptied == Emptied(old(lobbies), live)
      ensures ValidClear(purges, old(lobbies), live)
      ensures sends == ClearSends(purges, old(lobbies))
    {
      ghost var t := Snapshot();
      var ids := lobbies.Keys;
      var done: set<LobbyId> := {};
      emptied := {};
      sends, purges := [], [];
      PurgedThroughNone(t, live);
      while ids - done != {}
        invariant ids == t.lobbies.Keys && ClearSafe(t, live)
        invariant PurgedThrough(t, live, done, Snapshot(), emptied, purges, sends)
        decreases ids - done
      {
        var l :| l in ids - done;
        ghost var now := Snapshot();
        PurgeReady(t, live, done, now, emptied, purges, sends, l);
        var notices, deps := PurgeLobby(l, live);
        PurgeNext(t, live, done, now, emptied, purges, sends, l, deps, notices);
        sends := sends + notices;
        purges := purges + [Purge(l, deps)];
        if lobbies[l] == map[] {
          emptied := emptied + {l};
        }
        done := done + {l};
      }
      assert done == ids by {
        assert forall l :: l in ids ==> l in done;
      }
      PurgedThroughAll(t, live, Snapshot(), emptied, purges, sends);
    }

    /** The last loop of `clear_lobbies`: `del self.lobbies[lobby_id]` for each id. */
    method DropLobbies(ids: set<LobbyId>)
      requires ids <= lobbies.Keys
      modifies this
      ensures lobbies == old(lobbies) - ids && players == old(players)
    {
      var dropped: set<LobbyId> := {};
      while ids - dropped != {}
        invariant dropped <= ids
        invariant lobbies == old(lobbies) - dropped && players == old(players)
        decreases ids - dropped
      {
        var l :| l in ids - dropped;
        DeleteMore(old(lobbies), dropped, l);
        lobbies := Delete(lobbies, l);
        dropped := dropped + {l};
      }
      assert forall l :: l in ids ==> l in dropped;
      assert dropped == ids;
    }

    /** `action_join`. */
    method Join(p: PlayerId, requested: Option<LobbyId>, conn: Conn) returns (sends: seq<Send>)
      modifies this
      ensures Snapshot() == JoinStep(old(Snapshot()), p, requested, conn)
      ensures IsJoinOutput(sends, old(Snapshot()), p, requested, conn)
    {
      if p !in players {
        players := players[p := Player(conn, None)];
      }
      var player := players[p];
      if requested.None? || requested.value !in lobbies {
        // an unknown lobby is answered on the connection the record holds
        sends := [Send(player.conn, CannotJoin(requested))];
      } else {
        var l := requested.value;
        var listed: Members := lobbies[l][p := player.conn];
        lobbies := lobbies[l := listed];
        ghost var order;
        sends, order := Notify(l, lobbies[l], PlayerJoined(p, l), false);
      }
    }

    /**
     * `action_leave`. `raised` reports the AttributeError or KeyError the
     * source raises on an unknown player, a missing or unknown lobby, or a
     * lobby that does not list the player.
     */
    method Leave(p: PlayerId, live: set<Conn>) returns (raised: bool, sends: seq<Send>)
      requires LeaveSafe(Snapshot(), p, live)
      modifies this
      ensures Effect(raised, Snapshot()) == LeaveStep(old(Snapshot()), p, live)
      ensures IsLeaveOutput(sends, old(Snapshot()), p, live)
    {
      ghost var t := Snapshot();
      if p !in players {
        return true, [];
      }
      var player := players[p];
      if player.lobbyId.None? || player.lobbyId.value !in lobbies {
        return true, [];
      }
      var l := player.lobbyId.value;
      ghost var order;
      sends, order := Notify(l, lobbies[l], PlayerLeaving(p, l), false);
      assert |sends| == |t.lobbies[l]| by {
        BroadcastReachesMembers(order, lobbies[l], Notice(PlayerLeaving(p, l), l, false));
      }
      assert sends[..|sends|] == sends;
      if l == "" {
        // an empty lobby id is falsy: the guard skips the removal
        assert sends[|sends|..] == [];
        return false, sends;
      }
      if p !in lobbies[l] {
        assert sends[|sends|..] == [];
        return true, sends;
      }
      lobbies := lobbies[l := Delete(lobbies[l], p)];
      players := players[p := player.(lobbyId := None)];
      assert Snapshot() == LeftLobby(t, p);
      var leaving := sends;
      var swept, purges := ClearLobbies(live);
      sends := sends + swept;
      assert sends[..|leaving|] == leaving && sends[|leaving|..] == swept;
      raised := false;
    }

    /**
     * `action_create` with `id` as the drawn lobby id: the new lobby lists
     * the creator, a creator already in a lobby leaves it first, and the new
     * lobby is told it was created.
     */
    method Create(p: PlayerId, conn: Conn, id: LobbyId, live: set<Conn>) returns (raised: bool, sends: seq<Send>)
      requires CreateSafe(Snapshot(), p, conn, id, live)
      modifies this
      ensures Effect(raised, Snapshot()) == CreateStep(old(Snapshot()), p, conn, id, live)
      ensures IsCreateOutput(sends, old(Snapshot()), p, conn, id, live)
    {
      ghost var t := Snapshot();
      if p !in players {
        players := players[p := Player(conn, None)];
      }
      var player := players[p];
      var created: Members := map[p := player.conn];
      lobbies := lobbies[id := created];
      ghost var entered := Snapshot();
      assert entered == Opened(t, p, conn, id);
      sends := [];
      if player.lobbyId.Some? {
        raised, sends := Leave(p, live);
        if raised {
          assert sends[..|sends|] == sends && sends[|sends|..] == [];
          return;
        }
      }
      ghost var cut := |sends|;
      ghost var leaving := sends;
      if p in players {
        players := players[p := players[p].(lobbyId := Some(id))];
      }
      var members := if id in lobbies then lobbies[id] else map[];
      var notice, order := Notify(id, members, LobbyCreated(id, p), false);
      sends := sends + notice;
      assert sends[..cut] == leaving && sends[cut..] == notice;
      raised := false;
    }

    /** `action_list`: one reply to the requesting connection listing the lobby ids. */
    method List(conn: Conn) returns (sends: seq<Send>)
      ensures IsListOutput(sends, lobbies, conn)
    {
      var ids: seq<LobbyId> := [];
      var pending := lobbies.Keys;
      while pending != {}
        invariant pending <= lobbies.Keys
        invariant forall i, j :: 0 <= i < j < |ids| ==> ids[i] != ids[j]
        invariant forall x :: x in ids <==> x in lobbies.Keys - pending
        decreases pending
      {
        var l :| l in pending;
        assert l !in ids;
        ids := ids + [l];
        pending := pending - {l};
      }
      sends := [Send(conn, LobbyList(ids))];
    }
  }

  /**
   * `process_message` on a decoded request: a request without an action or
   * a non-empty player is dropped, the four known actions are routed, any
   * other action is ignored.
   */
  method ProcessMessage(server: LobbyServer, conn: Conn, req: Request, id: LobbyId, live: set<Conn>)
    returns (outcome: Outcome, sends: seq<Send>)
    requires DispatchSafe(server.Snapshot(), conn, req, id, live)
    modifies server
    ensures Dispatched(outcome, server.Snapshot()) == Dispatch(old(server.Snapshot()), conn, req, id, live)
    ensures IsDispatchOutput(sends, old(server.Snapshot()), conn, req, id, live)
  {
    if req.action.None? || req.player.None? || req.player.value == "" {
      return Malformed, [];
    }
    var p := req.player.value;
    var action := req.action.value;
    if action == "create" {
      var raised;
      raised, sends := server.Create(p, conn, id, live);
      outcome := if raised then Raised else Completed;
    } else if action == "join" {
      sends := server.Join(p, req.lobbyId, conn);
      outcome := Completed;
    } else if action == "list" {
      sends := server.List(conn);
      outcome := Completed;
    } else if action == "leave" {
      var raised;
      raised, sends := server.Leave(p, live);
      outcome := if raised then Raised else Completed;
    } else {
      outcome, sends := Ignored, [];
    }
  }
}
