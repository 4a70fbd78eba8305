/** Who is followed by the people one follows, and the follow lists behind it. */
module Fanout {
  import opened Basics
  import opened Model

  /** Follow lists: each user's `followed`, in order. */
  type Graph = map<UserId, seq<UserId>>

  function Followed(g: Graph, u: UserId): seq<UserId> {
    if u in g then g[u] else []
  }

  ghost predicate Proper(g: Graph) {
    forall u :: NoDuplicates(Followed(g, u))
  }

  function Without(us: seq<UserId>, v: UserId): (r: seq<UserId>)
    requires NoDuplicates(us)
    ensures NoDuplicates(r)
    ensures forall w :: w in r <==> w in us && w != v
  {
    if us == [] then []
    else if us[0] == v then us[1..]
    else
      var rest := Without(us[1..], v);
      assert forall i :: 0 <= i < |rest| ==> rest[i] in us[1..];
      [us[0]] + rest
  }

  /** The follow relation under its two operations. */
  class Follows {
    var graph: Graph

    constructor ()
      ensures graph == map[] && Proper(graph)
    {
      graph := map[];
    }

    method AddFollower(target: UserId, follower: UserId)
      requires Proper(graph)
      modifies this
      ensures Proper(graph)
      ensures forall u, v :: v in Followed(graph, u) <==>
        v in Followed(old(graph), u) || (u == follower && v == target)
    {
      var list := Followed(graph, follower);
      if target !in list {
        graph := graph[follower := list + [target]];
        assert forall u :: u != follower ==> Followed(graph, u) == Followed(old(graph), u);
      }
    }

    method RemoveFollower(target: UserId, follower: UserId)
      requires Proper(graph)
      modifies this
      ensures Proper(graph)
      ensures forall u, v :: v in Followed(graph, u) <==>
        v in Followed(old(graph), u) && !(u == follower && v == target)
    {
      var list := Followed(graph, follower);
      if target in list {
        var rest := Without(list, target);
        graph := graph[follower := rest];
        assert forall u :: u != follower ==> Followed(graph, u) == Followed(old(graph), u);
      }
    }
  }

  function Occurs(us: seq<UserId>, v: UserId): nat {
    multiset(us)[v]
  }

  /** How often the loops meet `v`, having walked all of `fs` and then `ws`. */
  function Met(g: Graph, fs: seq<UserId>, ws: seq<UserId>, v: UserId): nat {
    Walks(g, fs, v) + Occurs(ws, v)
  }

  function Walks(g: Graph, fs: seq<UserId>, v: UserId): nat {
    if fs == [] then 0 else
      Walks(g, fs[..|fs| - 1], v) + Occurs(Followed(g, fs[|fs| - 1]), v)
  }

  /** `counter` counts everyone met but `u`, and has no entry for anyone not met. */
  ghost predicate Tallied(counter: map<UserId, nat>, g: Graph, u: UserId, fs: seq<UserId>, ws: seq<UserId>) {
    forall v ::
      && (v in counter <==> v != u && Met(g, fs, ws, v) > 0)
      && (v in counter ==> counter[v] == Met(g, fs, ws, v))
  }

  lemma MeetOne(counter: map<UserId, nat>, g: Graph, u: UserId, fs: seq<UserId>, ws: seq<UserId>, w: UserId)
    requires Tallied(counter, g, u, fs, ws)
    ensures
      var next := if w == u then counter else counter[w := (if w in counter then counter[w] else 0) + 1];
      Tallied(next, g, u, fs, ws + [w])
  {
    assert forall v :: Met(g, fs, ws + [w], v) == Met(g, fs, ws, v) + if v == w then 1 else 0;
  }

  method CountFor(g: Graph, u: UserId) returns (counter: map<UserId, nat>)
    ensures Tallied(counter, g, u, Followed(g, u), [])
  {
    var fs := Followed(g, u);
    counter := map[];
    for i := 0 to |fs|
      invariant Tallied(counter, g, u, fs[..i], [])
    {
      var ws := Followed(g, fs[i]);
      for j := 0 to |ws|
        invariant Tallied(counter, g, u, fs[..i], ws[..j])
      {
        var w := ws[j];
        assert ws[..j + 1] == ws[..j] + [w];
        MeetOne(counter, g, u, fs[..i], ws[..j], w);
        if w != u {
          counter := counter[w := (if w in counter then counter[w] else 0) + 1];
        }
      }
      assert ws[..|ws|] == ws;
      assert fs[..i + 1][..i] == fs[..i];
      assert forall v :: Met(g, fs[..i + 1], [], v) == Met(g, fs[..i], ws, v);
    }
    assert fs[..|fs|] == fs;
  }

  method ComputeFanout(users: seq<UserId>, g: Graph) returns (matrix: map<UserId, map<UserId, nat>>)
    ensures matrix.Keys == set u | u in users
    ensures forall u :: u in users ==> Tallied(matrix[u], g, u, Followed(g, u), [])
  {
    matrix := map[];
    for k := 0 to |users|
      invariant matrix.Keys == set u | u in users[..k]
      invariant forall u :: u in matrix ==> Tallied(matrix[u], g, u, Followed(g, u), [])
    {
      var counter := CountFor(g, users[k]);
      matrix := matrix[users[k] := counter];
      assert users[..k + 1] == users[..k] + [users[k]];
    }
    assert users[..|users|] == users;
  }

  lemma {:induction false} DistinctOccursOnce(us: seq<UserId>, v: UserId)
    requires NoDuplicates(us)
    ensures Occurs(us, v) == (if v in us then 1 else 0)
  {
    if us != [] {
      var n := |us| - 1;
      DistinctOccursOnce(us[..n], v);
      assert us == us[..n] + [us[n]];
    }
  }

  function Friends(g: Graph, fs: seq<UserId>, v: UserId): set<UserId> {
    set f | f in fs && v in Followed(g, f)
  }

  lemma {:induction false} WalksCountFriends(g: Graph, fs: seq<UserId>, v: UserId)
    requires Proper(g) && NoDuplicates(fs)
    ensures Walks(g, fs, v) == |Friends(g, fs, v)|
  {
    if fs != [] {
      var n := |fs| - 1;
      var f, front := fs[n], fs[..n];
      WalksCountFriends(g, front, v);
      DistinctOccursOnce(Followed(g, f), v);
      assert f !in front;
      FriendsGrow(g, front, f, v);
      assert fs == front + [f];
    }
  }

  lemma FriendsGrow(g: Graph, fs: seq<UserId>, f: UserId, v: UserId)
    requires f !in fs
    ensures |Friends(g, fs + [f], v)| == |Friends(g, fs, v)| + (if v in Followed(g, f) then 1 else 0)
  {
    var more := if v in Followed(g, f) then {f} else {};
    assert Friends(g, fs + [f], v) == Friends(g, fs, v) + more;
  }

  /** With proper follow lists, the entry for (u, v) is exactly the number of users whom u follows
      and who follow v; there is an entry just when that is not zero and v is not u. */
  lemma FanoutCountsFriends(g: Graph, u: UserId, counter: map<UserId, nat>, v: UserId)
    requires Proper(g) && Tallied(counter, g, u, Followed(g, u), [])
    ensures var friends := Friends(g, Followed(g, u), v);
      && (v in counter <==> v != u && friends != {})
      && (v in counter ==> counter[v] == |friends|)
  {
    WalksCountFriends(g, Followed(g, u), v);
    assert Met(g, Followed(g, u), [], v) == Walks(g, Followed(g, u), v);
  }
}
