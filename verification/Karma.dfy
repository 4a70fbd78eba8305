/** Karma as a function of the rows: what each item earns, and the full recomputation. */
module Karma {
  import opened Basics
  import opened Model
  import Rules

  function ProfileKarma(p: Profile): int {
    |p.filled| * Rules.PROFILE_FIELD
    + Min(p.workExperiences, Rules.EXPERIENCE_MAX_ITEMS) * Rules.EXPERIENCE_PER_ITEM
    + Min(p.educationExperiences, Rules.EXPERIENCE_MAX_ITEMS) * Rules.EXPERIENCE_PER_ITEM
  }

  /** What `c` earns its author when its stored upvote count is `upvotes`. */
  function Contribution(c: Content, upvotes: int): int {
    match c.item
    case Answer(a) => if !IsLiveAnswer(a) then 0 else Rules.ANSWER_CREATE + upvotes * Rules.ANSWER_UPVOTE
    case Question(q) => if q.isHidden then 0 else Rules.QUESTION_CREATE + upvotes * Rules.QUESTION_UPVOTE
    case Article(a) => if !IsLiveArticle(a) then 0 else Rules.ARTICLE_CREATE + upvotes * Rules.ARTICLE_UPVOTE
    case Submission(s) => if s.isHidden then 0 else Rules.SUBMISSION_CREATE + upvotes * Rules.SUBMISSION_UPVOTE
    case Comment(m) => if m.isDeleted then 0 else Rules.COMMENT_CREATE
  }

  // ---- the recomputation, table by table

  datatype Table = Answers | Questions | Articles | Submissions | Comments

  function TableOf(c: Content): Table {
    match c.item
    case Answer(_) => Answers
    case Question(_) => Questions
    case Article(_) => Articles
    case Submission(_) => Submissions
    case Comment(_) => Comments
  }

  /** The rows of one table authored by `u`, as ids. */
  function Owned(contents: seq<Content>, u: UserId, table: Table): (ids: seq<ItemId>)
    ensures forall k :: 0 <= k < |ids| ==> ids[k] < |contents|
  {
    if contents == [] then [] else
      var n := |contents| - 1;
      Owned(contents[..n], u, table)
      + (if contents[n].author == u && TableOf(contents[n]) == table then [n] else [])
  }

  function SumContributions(contents: seq<Content>, counts: seq<int>, ids: seq<ItemId>): int
    requires |counts| == |contents|
    requires forall k :: 0 <= k < |ids| ==> ids[k] < |contents|
  {
    if ids == [] then 0 else
      var last := ids[|ids| - 1];
      SumContributions(contents, counts, ids[..|ids| - 1]) + Contribution(contents[last], counts[last])
  }

  function ComputeKarma(rows: Rows, counts: seq<int>, u: UserId): int
    requires |counts| == |rows.contents| && u < |rows.profiles|
  {
    ProfileKarma(rows.profiles[u])
    + SumContributions(rows.contents, counts,
                       Owned(rows.contents, u, Answers)
                       + Owned(rows.contents, u, Questions)
                       + Owned(rows.contents, u, Articles)
                       + Owned(rows.contents, u, Submissions)
                       + Owned(rows.contents, u, Comments))
  }

  // ---- the same sum in one pass over all content, which is what incremental reasoning needs

  function Share(c: Content, count: int, u: UserId): int {
    if c.author == u then Contribution(c, count) else 0
  }

  function Earned(contents: seq<Content>, counts: seq<int>, u: UserId): int
    requires |counts| == |contents|
  {
    if contents == [] then 0 else
      var n := |contents| - 1;
      Earned(contents[..n], counts[..n], u) + Share(contents[n], counts[n], u)
  }

  function EarnedIn(contents: seq<Content>, counts: seq<int>, u: UserId, table: Table): int
    requires |counts| == |contents|
  {
    if contents == [] then 0 else
      var n := |contents| - 1;
      EarnedIn(contents[..n], counts[..n], u, table)
      + (if TableOf(contents[n]) == table then Share(contents[n], counts[n], u) else 0)
  }

  lemma {:induction false} SumOfConcat(contents: seq<Content>, counts: seq<int>, a: seq<ItemId>, b: seq<ItemId>)
    requires |counts| == |contents|
    requires forall k :: 0 <= k < |a| ==> a[k] < |contents|
    requires forall k :: 0 <= k < |b| ==> b[k] < |contents|
    ensures SumContributions(contents, counts, a + b)
         == SumContributions(contents, counts, a) + SumContributions(contents, counts, b)
  {
    if b == [] {
      assert a + b == a;
    } else {
      var m := |b| - 1;
      assert (a + b)[..|a + b| - 1] == a + b[..m];
      SumOfConcat(contents, counts, a, b[..m]);
    }
  }

  lemma {:induction false} SumOfPrefix(contents: seq<Content>, counts: seq<int>, n: nat, ids: seq<ItemId>)
    requires |counts| == |contents| && n <= |contents|
    requires forall k :: 0 <= k < |ids| ==> ids[k] < n
    ensures SumContributions(contents, counts, ids) == SumContributions(contents[..n], counts[..n], ids)
  {
    if ids != [] {
      SumOfPrefix(contents, counts, n, ids[..|ids| - 1]);
    }
  }

  lemma {:induction false} TableSum(contents: seq<Content>, counts: seq<int>, u: UserId, table: Table)
    requires |counts| == |contents|
    ensures SumContributions(contents, counts, Owned(contents, u, table)) == EarnedIn(contents, counts, u, table)
  {
    if contents != [] {
      var n := |contents| - 1;
      var front := Owned(contents[..n], u, table);
      TableSum(contents[..n], counts[..n], u, table);
      SumOfPrefix(contents, counts, n, front);
      if contents[n].author == u && TableOf(contents[n]) == table {
        var own := front + [n];
        assert own[..|own| - 1] == front;
      } else {
        assert Owned(contents, u, table) == front;
      }
    }
  }

  lemma {:induction false} TablesPartition(contents: seq<Content>, counts: seq<int>, u: UserId)
    requires |counts| == |contents|
    ensures Earned(contents, counts, u)
         == EarnedIn(contents, counts, u, Answers) + EarnedIn(contents, counts, u, Questions)
            + EarnedIn(contents, counts, u, Articles) + EarnedIn(contents, counts, u, Submissions)
            + EarnedIn(contents, counts, u, Comments)
  {
    if contents != [] {
      var n := |contents| - 1;
      TablesPartition(contents[..n], counts[..n], u);
    }
  }

  /** The table-by-table recomputation is the one-pass sum: every item is counted once. */
  lemma ComputeKarmaInOnePass(rows: Rows, counts: seq<int>, u: UserId)
    requires |counts| == |rows.contents| && u < |rows.profiles|
    ensures ComputeKarma(rows, counts, u) == ProfileKarma(rows.profiles[u]) + Earned(rows.contents, counts, u)
  {
    var cs := rows.contents;
    var a, q := Owned(cs, u, Answers), Owned(cs, u, Questions);
    var t, s, m := Owned(cs, u, Articles), Owned(cs, u, Submissions), Owned(cs, u, Comments);
    SumOfConcat(cs, counts, a, q);
    SumOfConcat(cs, counts, a + q, t);
    SumOfConcat(cs, counts, a + q + t, s);
    SumOfConcat(cs, counts, a + q + t + s, m);
    TableSum(cs, counts, u, Answers);
    TableSum(cs, counts, u, Questions);
    TableSum(cs, counts, u, Articles);
    TableSum(cs, counts, u, Submissions);
    TableSum(cs, counts, u, Comments);
    TablesPartition(cs, counts, u);
  }

  /** Replacing one item moves each user's sum by the change in that user's share of it. */
  lemma {:induction false} EarnedUpdate(contents: seq<Content>, counts: seq<int>, i: nat, c: Content, n: int, u: UserId)
    requires |counts| == |contents| && i < |contents|
    ensures Earned(contents[i := c], counts[i := n], u)
         == Earned(contents, counts, u) - Share(contents[i], counts[i], u) + Share(c, n, u)
  {
    var m := |contents| - 1;
    if i == m {
      assert contents[i := c][..m] == contents[..m];
      assert counts[i := n][..m] == counts[..m];
    } else {
      EarnedUpdate(contents[..m], counts[..m], i, c, n, u);
      assert contents[i := c][..m] == contents[..m][i := c];
      assert counts[i := n][..m] == counts[..m][i := n];
    }
  }

  lemma EarnedAppend(contents: seq<Content>, counts: seq<int>, c: Content, n: int, u: UserId)
    requires |counts| == |contents|
    ensures Earned(contents + [c], counts + [n], u) == Earned(contents, counts, u) + Share(c, n, u)
  {
    assert (contents + [c])[..|contents|] == contents;
    assert (counts + [n])[..|counts|] == counts;
  }
}
