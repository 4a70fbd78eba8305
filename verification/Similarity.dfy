/** The similarity matrix: for each entity, the ids of the fifty entities sharing most keywords. */
module Similarity {
  import Sorting

  /** A site or a user, as stored and as compared: repeated keywords count once. */
  datatype Row = Row(id: nat, keywords: seq<string>)

  datatype Entity = Entity(id: nat, keywords: set<string>)

  /** `position` is the candidate's place among the compared entities. */
  datatype Candidate = Candidate(position: nat, id: nat, overlap: nat)

  const LIMIT := 50

  function EntityOf(r: Row): Entity {
    Entity(r.id, set k | k in r.keywords)
  }

  function Overlap(a: Entity, b: Entity): nat {
    |a.keywords * b.keywords|
  }

  /** `shared` lists the keywords that occur in both rows, each once. */
  ghost predicate ListsShared(shared: seq<string>, r: Row, s: Row) {
    && (forall k :: k in shared <==> k in r.keywords && k in s.keywords)
    && (forall i, j :: 0 <= i < j < |shared| ==> shared[i] != shared[j])
  }

  /** The overlap of two rows is the number of keywords occurring in both, repetitions not counted. */
  lemma OverlapCounts(r: Row, s: Row, shared: seq<string>)
    requires ListsShared(shared, r, s)
    ensures Overlap(EntityOf(r), EntityOf(s)) == |shared|
  {
    DistinctCount(shared);
    assert EntityOf(r).keywords * EntityOf(s).keywords == set k | k in shared;
  }

  lemma {:induction false} DistinctCount(s: seq<string>)
    requires forall i, j :: 0 <= i < j < |s| ==> s[i] != s[j]
    ensures |set k | k in s| == |s|
  {
    if s != [] {
      DistinctCount(s[1..]);
      assert (set k | k in s) == {s[0]} + set k | k in s[1..];
    }
  }

  predicate DistinctIds(es: seq<Entity>) {
    forall i, j :: 0 <= i < j < |es| ==> es[i].id != es[j].id
  }

  predicate DistinctRows(rows: seq<Row>) {
    forall i, j :: 0 <= i < j < |rows| ==> rows[i].id != rows[j].id
  }

  /** The rows that have keywords, in order. */
  function Entities(rows: seq<Row>): seq<Entity> {
    if rows == [] then [] else
      var n := |rows| - 1;
      Entities(rows[..n]) + (if rows[n].keywords != [] then [EntityOf(rows[n])] else [])
  }

  function AsCandidate(es: seq<Entity>, q: Entity, p: nat): Candidate
    requires p < |es|
  {
    Candidate(p, es[p].id, Overlap(es[p], q))
  }

  /** The first `n` entities other than `q`, with their overlap with `q`. */
  function Others(es: seq<Entity>, q: Entity, n: nat): seq<Candidate>
    requires n <= |es|
  {
    if n == 0 then [] else
      Others(es, q, n - 1) + (if es[n - 1].id == q.id then [] else [AsCandidate(es, q, n - 1)])
  }

  function FullRanking(es: seq<Entity>, q: Entity): seq<Candidate> {
    Sorting.StableSort(Others(es, q, |es|), (c: Candidate) => c.overlap as real)
  }

  function Ids(cs: seq<Candidate>): seq<nat> {
    seq(|cs|, i requires 0 <= i < |cs| => cs[i].id)
  }

  /** Python's `s[:k]`. */
  function Take<T>(s: seq<T>, k: int): seq<T> {
    if k >= |s| then s else if k >= 0 then s[..k] else if -k <= |s| then s[..|s| + k] else []
  }

  /** The matrix entry of `q`. */
  function Entry(es: seq<Entity>, q: Entity): seq<nat> {
    Take(Ids(FullRanking(es, q)), LIMIT)
  }

  method CollectEntities(rows: seq<Row>) returns (entities: seq<Entity>)
    ensures entities == Entities(rows)
  {
    entities := [];
    for i := 0 to |rows|
      invariant entities == Entities(rows[..i])
    {
      assert rows[..i + 1][..i] == rows[..i];
      if rows[i].keywords != [] {
        entities := entities + [EntityOf(rows[i])];
      }
    }
    assert rows[..|rows|] == rows;
  }

  method RankCandidates(entities: seq<Entity>, query: Entity) returns (ids: seq<nat>)
    ensures ids == Entry(entities, query)
  {
    var candidates: seq<Candidate> := [];
    for j := 0 to |entities|
      invariant candidates == Others(entities, query, j)
    {
      if entities[j].id != query.id {
        candidates := candidates + [Candidate(j, entities[j].id, Overlap(entities[j], query))];
      }
    }
    candidates := Sorting.StableSort(candidates, (c: Candidate) => c.overlap as real);
    ids := Ids(Take(candidates, LIMIT));
  }

  method MatrixOf(entities: seq<Entity>) returns (matrix: map<nat, seq<nat>>)
    requires DistinctIds(entities)
    ensures matrix.Keys == set e | e in entities :: e.id
    ensures forall q :: q in entities ==> q.id in matrix && matrix[q.id] == Entry(entities, q)
  {
    matrix := map[];
    for i := 0 to |entities|
      invariant matrix.Keys == set e | e in entities[..i] :: e.id
      invariant forall k :: 0 <= k < i ==>
        entities[k].id in matrix && matrix[entities[k].id] == Entry(entities, entities[k])
    {
      var ids := RankCandidates(entities, entities[i]);
      matrix := matrix[entities[i].id := ids];
      assert entities[..i + 1] == entities[..i] + [entities[i]];
    }
    assert entities[..|entities|] == entities;
  }

  lemma {:induction false} SourceRow(rows: seq<Row>, i: nat) returns (k: nat)
    requires i < |Entities(rows)|
    ensures k < |rows| && rows[k].keywords != [] && Entities(rows)[i] == EntityOf(rows[k])
  {
    var n := |rows| - 1;
    if i < |Entities(rows[..n])| {
      k := SourceRow(rows[..n], i);
    } else {
      k := n;
    }
  }

  /** Exactly the rows with keywords are compared. */
  lemma {:induction false} RowIsCompared(rows: seq<Row>, k: nat)
    requires k < |rows| && rows[k].keywords != []
    ensures EntityOf(rows[k]) in Entities(rows)
  {
    if k < |rows| - 1 {
      RowIsCompared(rows[..|rows| - 1], k);
    }
  }

  lemma {:induction false} FilteringKeepsIdsDistinct(rows: seq<Row>)
    requires DistinctRows(rows)
    ensures DistinctIds(Entities(rows))
  {
    if rows != [] {
      var n := |rows| - 1;
      var front := Entities(rows[..n]);
      FilteringKeepsIdsDistinct(rows[..n]);
      forall i | 0 <= i < |front|
        ensures front[i].id != rows[n].id
      {
        var k := SourceRow(rows[..n], i);
      }
    }
  }

  lemma IdsOfEntities(rows: seq<Row>)
    ensures (set e | e in Entities(rows) :: e.id) == set r | r in rows && r.keywords != [] :: r.id
  {
    var es := Entities(rows);
    forall i | 0 <= i < |es|
      ensures exists r :: r in rows && r.keywords != [] && r.id == es[i].id
    {
      var k := SourceRow(rows, i);
      assert rows[k] in rows;
    }
    forall k | 0 <= k < |rows| && rows[k].keywords != []
      ensures EntityOf(rows[k]) in es
    {
      RowIsCompared(rows, k);
    }
  }

  /** There is an entry for exactly the rows that have keywords. */
  method ComputeSimilarityMatrix(rows: seq<Row>) returns (matrix: map<nat, seq<nat>>)
    requires DistinctRows(rows)
    ensures matrix.Keys == set r | r in rows && r.keywords != [] :: r.id
    ensures forall k :: 0 <= k < |rows| && rows[k].keywords != [] ==>
      rows[k].id in matrix && matrix[rows[k].id] == Entry(Entities(rows), EntityOf(rows[k]))
  {
    FilteringKeepsIdsDistinct(rows);
    var entities := CollectEntities(rows);
    matrix := MatrixOf(entities);
    IdsOfEntities(rows);
    forall k | 0 <= k < |rows| && rows[k].keywords != []
      ensures EntityOf(rows[k]) in entities
    {
      RowIsCompared(rows, k);
    }
  }

  predicate Describes(c: Candidate, es: seq<Entity>, q: Entity) {
    c.position < |es| && c == AsCandidate(es, q, c.position) && c.id != q.id
  }

  lemma {:induction false} OthersDescribe(es: seq<Entity>, q: Entity, n: nat, i: nat)
    requires n <= |es| && i < |Others(es, q, n)|
    ensures Describes(Others(es, q, n)[i], es, q) && Others(es, q, n)[i].position < n
  {
    if i < |Others(es, q, n - 1)| {
      OthersDescribe(es, q, n - 1, i);
    }
  }

  lemma {:induction false} OthersOrdered(es: seq<Entity>, q: Entity, n: nat, i: nat, j: nat)
    requires n <= |es| && i < j < |Others(es, q, n)|
    ensures Others(es, q, n)[i].position < Others(es, q, n)[j].position
  {
    if j < |Others(es, q, n - 1)| {
      OthersOrdered(es, q, n - 1, i, j);
    } else {
      OthersDescribe(es, q, n - 1, i);
    }
  }

  lemma {:induction false} OthersComplete(es: seq<Entity>, q: Entity, n: nat, p: nat)
    requires p < n <= |es| && es[p].id != q.id
    ensures AsCandidate(es, q, p) in Others(es, q, n)
  {
    if p < n - 1 {
      OthersComplete(es, q, n - 1, p);
    }
  }

  lemma {:induction false} OthersCount(es: seq<Entity>, k: nat, n: nat)
    requires DistinctIds(es) && k < |es| && n <= |es|
    ensures |Others(es, es[k], n)| == if n <= k then n else n - 1
  {
    if n > 0 {
      OthersCount(es, k, n - 1);
    }
  }

  /** `r` names every entity but `q` exactly once, with its true overlap with `q`, largest overlap
      first and, for equal overlap, in input order. */
  ghost predicate RanksTheRest(r: seq<Candidate>, es: seq<Entity>, q: Entity) {
    && |r| == |es| - 1
    && (forall i :: 0 <= i < |r| ==> Describes(r[i], es, q))
    && (forall p :: 0 <= p < |es| && es[p] != q ==> AsCandidate(es, q, p) in r)
    && Ordered(r)
  }

  ghost predicate Ordered(r: seq<Candidate>) {
    forall i, j :: 0 <= i < j < |r| ==>
      r[i].overlap > r[j].overlap || (r[i].overlap == r[j].overlap && r[i].position < r[j].position)
  }

  lemma FullRankingOrdered(es: seq<Entity>, q: Entity)
    ensures Ordered(FullRanking(es, q))
  {
    var cs, r := Others(es, q, |es|), FullRanking(es, q);
    var key, pos := (c: Candidate) => c.overlap as real, (c: Candidate) => c.position;
    forall i, j | 0 <= i < j < |cs|
      ensures pos(cs[i]) < pos(cs[j])
    {
      OthersOrdered(es, q, |es|, i, j);
    }
    Sorting.SortRanks(cs, key, pos);
    forall i, j | 0 <= i < j < |r|
      ensures r[i].overlap > r[j].overlap || (r[i].overlap == r[j].overlap && r[i].position < r[j].position)
    {
      assert Sorting.Before(r[i], r[j], key, pos);
    }
  }

  lemma FullRankingHasSameElements(es: seq<Entity>, q: Entity, c: Candidate)
    ensures c in FullRanking(es, q) <==> c in Others(es, q, |es|)
  {
    var cs, r := Others(es, q, |es|), FullRanking(es, q);
    Sorting.SortPermutes(cs, (c: Candidate) => c.overlap as real);
    assert c in r <==> c in multiset(r);
    assert c in cs <==> c in multiset(cs);
  }

  lemma FullRankingIsRight(es: seq<Entity>, q: Entity)
    requires DistinctIds(es) && q in es
    ensures RanksTheRest(FullRanking(es, q), es, q)
  {
    var cs, r := Others(es, q, |es|), FullRanking(es, q);
    var k :| 0 <= k < |es| && es[k] == q;
    OthersCount(es, k, |es|);
    FullRankingOrdered(es, q);
    forall i | 0 <= i < |r|
      ensures Describes(r[i], es, q)
    {
      FullRankingHasSameElements(es, q, r[i]);
      var j :| 0 <= j < |cs| && cs[j] == r[i];
      OthersDescribe(es, q, |es|, j);
    }
    forall p | 0 <= p < |es| && es[p] != q
      ensures AsCandidate(es, q, p) in r
    {
      OthersComplete(es, q, |es|, p);
      FullRankingHasSameElements(es, q, AsCandidate(es, q, p));
    }
  }

  /** A matrix entry: exactly min(50, n-1) distinct other entities, and no entity left out shares
      more keywords than any that was kept. */
  lemma EntryKeepsTheBest(es: seq<Entity>, q: Entity)
    requires DistinctIds(es) && q in es
    ensures var r, kept := FullRanking(es, q), Entry(es, q);
      && |kept| == (if |es| - 1 < LIMIT then |es| - 1 else LIMIT)
      && (forall i :: 0 <= i < |kept| ==> kept[i] == r[i].id && kept[i] != q.id)
      && (forall i, j :: 0 <= i < j < |kept| ==> kept[i] != kept[j])
      && (forall i, j :: 0 <= i < |kept| <= j < |r| ==> r[i].overlap >= r[j].overlap)
  {
    FullRankingIsRight(es, q);
    var r := FullRanking(es, q);
    forall i, j | 0 <= i < j < |r|
      ensures r[i].id != r[j].id
    {
      assert Describes(r[i], es, q) && Describes(r[j], es, q);
      assert r[i].position != r[j].position;
    }
  }

  function SimilarEntityIds(matrix: map<nat, seq<nat>>, id: nat, topK: int): seq<nat> {
    if id in matrix then Take(matrix[id], topK) else []
  }

  /** Asking for up to fifty similar entities gives the head of the untruncated ranking. */
  lemma TopKIsHeadOfRanking(matrix: map<nat, seq<nat>>, es: seq<Entity>, q: Entity, k: nat)
    requires q.id in matrix && matrix[q.id] == Entry(es, q) && k <= LIMIT
    ensures SimilarEntityIds(matrix, q.id, k) == Take(Ids(FullRanking(es, q)), k)
  {
  }
}
