/**
 * `Lobby.notify`: one notification sent to every member of a lobby, in the
 * member table's iteration order. The order itself is not modelled; the
 * ghost `order` records the one the loop took.
 */
module Broadcast {
  import opened LobbyTypes

  /** The sends of a notification visiting `members` in `order`. */
  function Fanout(order: seq<PlayerId>, members: Members, msg: Msg): seq<Send>
    decreases |order|
  {
    if order == [] then []
    else
      var k := order[|order| - 1];
      Fanout(order[..|order| - 1], members, msg) + (if k in members then [Send(members[k], msg)] else [])
  }

  /** Dropping the last element of an iteration order leaves an iteration order of the rest. */
  lemma EnumeratesInit<T(!new)>(order: seq<T>, s: set<T>)
    requires Enumerates(order, s) && order != []
    ensures order[|order| - 1] in s
    ensures Enumerates(order[..|order| - 1], s - {order[|order| - 1]})
  {
    var n := |order| - 1;
    var rest := order[..n];
    forall y ensures y in rest <==> y in s - {order[n]} {
      if y in rest {
        var i :| 0 <= i < n && rest[i] == y;
        assert order[i] != order[n];
      }
      if y in s - {order[n]} {
        assert y in order;
        var i :| 0 <= i <= n && order[i] == y;
        assert i != n;
        assert rest[i] == y;
      }
    }
  }

  /** An iteration order of a finite set is exactly as long as the set is large. */
  lemma {:induction false} EnumerationLength<T(!new)>(order: seq<T>, s: set<T>)
    requires Enumerates(order, s)
    ensures |order| == |s|
  {
    if order == [] {
      assert forall x :: x in s ==> x in order;
      assert s == {};
    } else {
      var x := order[|order| - 1];
      EnumeratesInit(order, s);
      EnumerationLength(order[..|order| - 1], s - {x});
    }
  }

  /** Visiting one more element extends an iteration order. */
  lemma EnumeratesSnoc<T(!new)>(order: seq<T>, s: set<T>, x: T)
    requires Enumerates(order, s) && x !in s
    ensures Enumerates(order + [x], s + {x})
  {
    forall i, j | 0 <= i < j < |order + [x]| ensures (order + [x])[i] != (order + [x])[j] {
      if j == |order| {
        assert order[i] in s;
      }
    }
  }

  /** Two iteration orders of one set hold the same elements, each once. */
  lemma {:induction false} EnumerationsPermute<T(!new)>(a: seq<T>, b: seq<T>, s: set<T>)
    requires Enumerates(a, s) && Enumerates(b, s)
    ensures multiset(a) == multiset(b)
  {
    DistinctMultiset(a, s);
    DistinctMultiset(b, s);
  }

  lemma {:induction false} DistinctMultiset<T(!new)>(a: seq<T>, s: set<T>)
    requires Enumerates(a, s)
    ensures multiset(a) == multiset(s)
  {
    if a != [] {
      var n := |a| - 1;
      var x := a[n];
      var rest := a[..n];
      assert a == rest + [x];
      EnumeratesInit(a, s);
      DistinctMultiset(rest, s - {x});
      assert s == (s - {x}) + {x};
    } else {
      assert forall y :: y in s ==> y in a;
      assert s == {};
    }
  }

  /**
   * Visiting the members in an iteration order sends `msg` once per member,
   * in that order, to that member's connection.
   */
  lemma {:induction false} FanoutDelivers(order: seq<PlayerId>, members: Members, msg: Msg)
    requires forall k :: k in order ==> k in members
    ensures |Fanout(order, members, msg)| == |order|
    ensures forall i :: 0 <= i < |order| ==> Fanout(order, members, msg)[i] == Send(members[order[i]], msg)
  {
    if order != [] {
      var n := |order| - 1;
      FanoutDelivers(order[..n], members, msg);
      assert order[n] in order;
      forall i | 0 <= i < n ensures order[..n][i] == order[i] { }
    }
  }

  /** Every member receives the message; every send goes to some member; there is one send per member. */
  lemma BroadcastReachesMembers(order: seq<PlayerId>, members: Members, msg: Msg)
    requires Enumerates(order, members.Keys)
    ensures |Fanout(order, members, msg)| == |members|
    ensures forall k :: k in members ==> Send(members[k], msg) in Fanout(order, members, msg)
    ensures forall s :: s in Fanout(order, members, msg) ==> s.msg == msg && exists k :: k in members && s.to == members[k]
  {
    EnumerationLength(order, members.Keys);
    FanoutDelivers(order, members, msg);
    var f := Fanout(order, members, msg);
    forall k | k in members ensures Send(members[k], msg) in f {
      assert k in order;
      var i :| 0 <= i < |order| && order[i] == k;
      assert f[i] == Send(members[k], msg);
    }
    forall s | s in f ensures s.msg == msg && exists k :: k in members && s.to == members[k] {
      var i :| 0 <= i < |f| && f[i] == s;
      assert order[i] in members;
    }
  }

  /** `Lobby.notify`: send `{message, lobby_id, game_started}` to every member's connection. */
  method Notify(lobbyId: LobbyId, members: Members, text: Text, gameStarted: bool)
    returns (sends: seq<Send>, ghost order: seq<PlayerId>)
    ensures Enumerates(order, members.Keys)
    ensures sends == Fanout(order, members, Notice(text, lobbyId, gameStarted))
    // whatever the order: one send per member, to every member, of this notice only
    ensures |sends| == |members|
    ensures forall k :: k in members ==> Send(members[k], Notice(text, lobbyId, gameStarted)) in sends
    ensures forall s :: s in sends ==> s.msg == Notice(text, lobbyId, gameStarted)
  {
    var msg := Notice(text, lobbyId, gameStarted);
    sends, order := [], [];
    var pending := members.Keys;
    while pending != {}
      invariant pending <= members.Keys
      invariant forall i, j :: 0 <= i < j < |order| ==> order[i] != order[j]
      invariant forall x :: x in order <==> x in members.Keys - pending
      invariant sends == Fanout(order, members, msg)
      decreases pending
    {
      var k :| k in pending;
      ghost var visited := order;
      assert k !in visited;
      sends := sends + [Send(members[k], msg)];
      order := order + [k];
      assert order[..|order| - 1] == visited;
      pending := pending - {k};
    }
    assert forall x :: x in members.Keys ==> x in order;
    BroadcastReachesMembers(order, members, msg);
  }
}
