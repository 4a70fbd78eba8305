/** Stable sorting by a real-valued key, largest first: what `sort(key=..., reverse=True)` does. */
module Sorting {
  /** Insert `x` behind every element whose key is at least its own. */
  function Insert<T>(r: seq<T>, x: T, key: T -> real): (s: seq<T>)
    ensures |s| == |r| + 1
  {
    if r == [] then [x]
    else if key(r[|r| - 1]) >= key(x) then r + [x]
    else Insert(r[..|r| - 1], x, key) + [r[|r| - 1]]
  }

  function StableSort<T>(xs: seq<T>, key: T -> real): (r: seq<T>)
    ensures |r| == |xs|
  {
    if xs == [] then [] else Insert(StableSort(xs[..|xs| - 1], key), xs[|xs| - 1], key)
  }

  /** `a` is ranked before `b`: larger key, or equal key and earlier input position. */
  predicate Before<T(!new)>(a: T, b: T, key: T -> real, pos: T -> int) {
    key(a) > key(b) || (key(a) == key(b) && pos(a) < pos(b))
  }

  ghost predicate Ranked<T(!new)>(r: seq<T>, key: T -> real, pos: T -> int) {
    forall i, j :: 0 <= i < j < |r| ==> Before(r[i], r[j], key, pos)
  }

  lemma {:induction false} InsertKeepsElements<T>(r: seq<T>, x: T, key: T -> real)
    ensures multiset(Insert(r, x, key)) == multiset(r) + multiset{x}
  {
    if r != [] {
      var n := |r| - 1;
      assert r == r[..n] + [r[n]];
      if key(r[n]) < key(x) {
        InsertKeepsElements(r[..n], x, key);
      }
    }
  }

  /** Sorting permutes. */
  lemma {:induction false} SortPermutes<T>(xs: seq<T>, key: T -> real)
    ensures multiset(StableSort(xs, key)) == multiset(xs)
  {
    if xs != [] {
      var n := |xs| - 1;
      SortPermutes(xs[..n], key);
      InsertKeepsElements(StableSort(xs[..n], key), xs[n], key);
      assert xs == xs[..n] + [xs[n]];
    }
  }

  lemma {:induction false} InsertAddsOnly<T>(r: seq<T>, x: T, key: T -> real, i: nat)
    requires i < |Insert(r, x, key)|
    ensures Insert(r, x, key)[i] == x || Insert(r, x, key)[i] in r
  {
    if r != [] && key(r[|r| - 1]) < key(x) && i < |r| {
      InsertAddsOnly(r[..|r| - 1], x, key, i);
    }
  }

  lemma AppendKeepsRank<T(!new)>(r: seq<T>, x: T, key: T -> real, pos: T -> int)
    requires Ranked(r, key, pos) && r != [] && key(r[|r| - 1]) >= key(x)
    requires forall i :: 0 <= i < |r| ==> pos(r[i]) < pos(x)
    ensures Ranked(r + [x], key, pos)
  {
    forall i | 0 <= i < |r|
      ensures Before(r[i], x, key, pos)
    {
      assert i == |r| - 1 || Before(r[i], r[|r| - 1], key, pos);
    }
  }

  lemma {:induction false} InsertKeepsRank<T(!new)>(r: seq<T>, x: T, key: T -> real, pos: T -> int)
    requires Ranked(r, key, pos)
    requires forall i :: 0 <= i < |r| ==> pos(r[i]) < pos(x)
    ensures Ranked(Insert(r, x, key), key, pos)
  {
    if r != [] {
      var n := |r| - 1;
      if key(r[n]) >= key(x) {
        AppendKeepsRank(r, x, key, pos);
      } else {
        var t := Insert(r[..n], x, key);
        InsertKeepsRank(r[..n], x, key, pos);
        forall i | 0 <= i < |t|
          ensures Before(t[i], r[n], key, pos)
        {
          InsertAddsOnly(r[..n], x, key, i);
          if t[i] in r[..n] {
            var j :| 0 <= j < n && r[..n][j] == t[i];
            assert Before(r[j], r[n], key, pos);
          }
        }
      }
    }
  }

  lemma {:induction false} SortAddsNothing<T>(xs: seq<T>, key: T -> real, i: nat)
    requires i < |xs|
    ensures StableSort(xs, key)[i] in xs
  {
    var n := |xs| - 1;
    var front := StableSort(xs[..n], key);
    InsertAddsOnly(front, xs[n], key, i);
    if StableSort(xs, key)[i] in front {
      var j :| 0 <= j < |front| && front[j] == StableSort(xs, key)[i];
      SortAddsNothing(xs[..n], key, j);
    }
  }

  /** Sorting ranks: by key, largest first, ties in input order. */
  lemma {:induction false} SortRanks<T(!new)>(xs: seq<T>, key: T -> real, pos: T -> int)
    requires forall i, j :: 0 <= i < j < |xs| ==> pos(xs[i]) < pos(xs[j])
    ensures Ranked(StableSort(xs, key), key, pos)
  {
    if xs != [] {
      var n := |xs| - 1;
      var front := StableSort(xs[..n], key);
      SortRanks(xs[..n], key, pos);
      forall i | 0 <= i < |front|
        ensures pos(front[i]) < pos(xs[n])
      {
        SortAddsNothing(xs[..n], key, i);
      }
      InsertKeepsRank(front, xs[n], key, pos);
    }
  }
}
