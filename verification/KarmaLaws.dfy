/** What each step does to karma, in numbers: what a vote, a new item, a withdrawn item or a profile
    is worth to whom. The laws do not refer to the function that computes contributions. */
module KarmaLaws {
  import opened Basics
  import opened Model
  import opened Requests
  import Columns
  import ItemLife
  import Karma

  /** The item counts for its author. */
  predicate Live(c: Content) {
    match c.item
    case Answer(a) => a.isPublished && !a.isDeleted && !a.isHiddenByModerator
    case Question(q) => !q.isHidden
    case Article(a) => a.isPublished && !a.isDeleted
    case Submission(s) => !s.isHidden
    case Comment(m) => !m.isDeleted
  }

  /** Being there is worth 10, 5, 5, 1 or 2 points. */
  function BirthWorth(c: Content): int {
    if !Live(c) then 0
    else if c.item.Answer? then 10
    else if c.item.Question? || c.item.Article? then 5
    else if c.item.Submission? then 1
    else 2
  }

  /** A standing vote is worth 10 points, 2 on a submission, none on a comment. */
  function VoteWorth(c: Content): int {
    if !Live(c) || c.item.Comment? then 0
    else if c.item.Submission? then 2
    else 10
  }

  function Worth(c: Content): int {
    BirthWorth(c) + |Active(c.votes)| * VoteWorth(c)
  }

  lemma WorthIsContribution(c: Content)
    ensures Karma.Contribution(c, ItemLife.UpvoteCount(c)) == Worth(c)
  {
  }

  // ---- from one item to everyone's karma

  lemma EditedKarma(rows: Rows, after: Rows, i: ItemId, u: UserId)
    requires i < |rows.contents| == |after.contents| && u < |rows.profiles| && u < |after.profiles|
    requires after.profiles[u] == rows.profiles[u] && after.contents == rows.contents[i := after.contents[i]]
    requires after.contents[i].author == rows.contents[i].author
    ensures KarmaOf(after, u) == KarmaOf(rows, u)
      + (if rows.contents[i].author == u then Worth(after.contents[i]) - Worth(rows.contents[i]) else 0)
  {
    var c, d := rows.contents[i], after.contents[i];
    var counts := Counts(rows.contents);
    Karma.ComputeKarmaInOnePass(rows, counts, u);
    Karma.ComputeKarmaInOnePass(after, Counts(after.contents), u);
    assert Counts(after.contents) == counts[i := ItemLife.UpvoteCount(d)];
    Karma.EarnedUpdate(rows.contents, counts, i, d, ItemLife.UpvoteCount(d), u);
    WorthIsContribution(c);
    WorthIsContribution(d);
  }

  lemma AddedKarma(rows: Rows, after: Rows, c: Content, u: UserId)
    requires after.contents == rows.contents + [c] && u < |rows.profiles| && u < |after.profiles|
    requires after.profiles[u] == rows.profiles[u]
    ensures KarmaOf(after, u) == KarmaOf(rows, u) + (if c.author == u then Worth(c) else 0)
  {
    var counts := Counts(rows.contents);
    Karma.ComputeKarmaInOnePass(rows, counts, u);
    Karma.ComputeKarmaInOnePass(after, Counts(after.contents), u);
    assert Counts(after.contents) == counts + [ItemLife.UpvoteCount(c)];
    Karma.EarnedAppend(rows.contents, counts, c, ItemLife.UpvoteCount(c), u);
    WorthIsContribution(c);
  }

  lemma ProfileAlone(rows: Rows, after: Rows, u: UserId)
    requires after.contents == rows.contents && u < |rows.profiles| && u < |after.profiles|
    ensures KarmaOf(after, u) - Karma.ProfileKarma(after.profiles[u])
         == KarmaOf(rows, u) - Karma.ProfileKarma(rows.profiles[u])
  {
    Karma.ComputeKarmaInOnePass(rows, Counts(rows.contents), u);
    Karma.ComputeKarmaInOnePass(after, Counts(after.contents), u);
  }

  /** Either nothing about content changes, or one item is added, or one is changed. */
  predicate OneItemMoves(rows: Rows, after: Rows) {
    && |rows.profiles| <= |after.profiles|
    && (|| after.contents == rows.contents
        || (after.profiles == rows.profiles && |after.contents| == |rows.contents| + 1
            && after.contents[..|rows.contents|] == rows.contents && after.contents[|rows.contents|].votes == map[])
        || (after.profiles == rows.profiles && |after.contents| == |rows.contents|
            && exists i :: 0 <= i < |rows.contents| && ChangedOnly(rows, after, i)))
  }

  predicate ChangedOnly(rows: Rows, after: Rows, i: ItemId)
    requires i < |rows.contents| == |after.contents|
  {
    after.contents == rows.contents[i := after.contents[i]] && after.contents[i].author == rows.contents[i].author
  }

  lemma AppliedMovesOneItem(rows: Rows, plan: Plan)
    requires Sound(rows, plan)
    ensures OneItemMoves(rows, Applied(rows, plan))
  {
    var after := Applied(rows, plan);
    if plan.row.EditItem? {
      ItemLife.EditKeepsIdentity(rows.contents[plan.row.id], plan.row.edit);
      assert ChangedOnly(rows, after, plan.row.id);
    } else if plan.row.AddItem? {
      assert after.contents[..|rows.contents|] == rows.contents;
    }
  }

  lemma StepMovesOneItem(rows: Rows, ev: Event)
    ensures OneItemMoves(rows, Step(rows, ev))
  {
    var plan := PlanOf(rows, ev.now, ev.req);
    if plan.Some? {
      AppliedMovesOneItem(rows, plan.value);
    }
  }

  /** If item `i` changed, it is the one that did, and only its author's karma moved. */
  lemma ChangedItemMovesKarma(rows: Rows, after: Rows, i: ItemId, u: UserId)
    requires OneItemMoves(rows, after) && i < |rows.contents| && u < |rows.profiles|
    requires i < |after.contents| && after.contents[i] != rows.contents[i]
    ensures KarmaOf(after, u) == KarmaOf(rows, u)
      + (if rows.contents[i].author == u then Worth(after.contents[i]) - Worth(rows.contents[i]) else 0)
  {
    assert forall k :: 0 <= k < |rows.contents| <= |after.contents| ==>
      after.contents[..|rows.contents|][k] == after.contents[k];
    var j :| 0 <= j < |rows.contents| && ChangedOnly(rows, after, j);
    EditedKarma(rows, after, j, u);
  }

  lemma OneEdit(c: Content, e: ItemLife.Edit, v: UserId)
    requires ItemLife.Fits(c, e)
    ensures var d := ItemLife.Apply(c, e);
      && (HasActiveVote(c, v) != HasActiveVote(d, v) ==>
            && d.item == c.item
            && |Active(d.votes)| == |Active(c.votes)| + (if HasActiveVote(d, v) then 1 else -1))
      && (Live(c) != Live(d) ==> d.votes == c.votes)
  {
    ItemLife.EditMovesCount(c, e);
    if e.Revise? {
      ItemLife.EditKeepsIdentity(c, e);
    }
  }

  lemma AppliedEdit(rows: Rows, plan: Plan, i: ItemId, v: UserId)
    requires Sound(rows, plan) && i < |rows.contents|
    ensures i < |Applied(rows, plan).contents|
    ensures var c, d := rows.contents[i], Applied(rows, plan).contents[i];
      && (HasActiveVote(c, v) != HasActiveVote(d, v) ==>
            && d.item == c.item
            && |Active(d.votes)| == |Active(c.votes)| + (if HasActiveVote(d, v) then 1 else -1))
      && (Live(c) != Live(d) ==> d.votes == c.votes)
  {
    if plan.row.EditItem? && plan.row.id == i {
      OneEdit(rows.contents[i], plan.row.edit, v);
    }
  }

  lemma SteppedEdit(rows: Rows, ev: Event, i: ItemId, v: UserId)
    requires i < |rows.contents|
    ensures i < |Step(rows, ev).contents|
    ensures var c, d := rows.contents[i], Step(rows, ev).contents[i];
      && (HasActiveVote(c, v) != HasActiveVote(d, v) ==>
            && d.item == c.item
            && |Active(d.votes)| == |Active(c.votes)| + (if HasActiveVote(d, v) then 1 else -1))
      && (Live(c) != Live(d) ==> d.votes == c.votes)
  {
    var plan := PlanOf(rows, ev.now, ev.req);
    if plan.Some? {
      AppliedEdit(rows, plan.value, i, v);
    }
  }

  // ---- the laws

  /** A vote that newly stands adds 10 points on a live answer, question or article, 2 on a live
      submission, and nothing on a comment or on anything not live; a vote that ceases to stand takes
      the same away. Nobody else's karma moves. */
  lemma VoteMovesKarma(rows: Rows, ev: Event, i: ItemId, v: UserId, u: UserId)
    requires i < |rows.contents| && u < |rows.profiles|
    ensures i < |Step(rows, ev).contents| && u < |Step(rows, ev).profiles|
    ensures var c, after := rows.contents[i], Step(rows, ev);
      HasActiveVote(c, v) != HasActiveVote(after.contents[i], v) ==>
        var worth := if HasActiveVote(c, v) then -VoteWorth(c) else VoteWorth(c);
        KarmaOf(after, u) == KarmaOf(rows, u) + (if c.author == u then worth else 0)
  {
    StepMovesOneItem(rows, ev);
    SteppedEdit(rows, ev, i, v);
    var c, after := rows.contents[i], Step(rows, ev);
    var d := after.contents[i];
    if HasActiveVote(c, v) != HasActiveVote(d, v) {
      ChangedItemMovesKarma(rows, after, i, u);
      Distribute(|Active(c.votes)|, |Active(d.votes)|, VoteWorth(c));
    }
  }

  lemma Distribute(m: int, n: int, worth: int)
    ensures n == m + 1 ==> n * worth == m * worth + worth
    ensures n == m - 1 ==> n * worth == m * worth - worth
  {
  }

  /** A new item is worth 10, 5, 5, 1 or 2 points to its author, and nothing while it is a draft. */
  lemma CreationMovesKarma(rows: Rows, ev: Event, u: UserId)
    requires |Step(rows, ev).contents| > |rows.contents| && u < |rows.profiles|
    ensures u < |Step(rows, ev).profiles|
    ensures var after := Step(rows, ev);
      var c := after.contents[|rows.contents|];
      KarmaOf(after, u) == KarmaOf(rows, u) + (if c.author == u then BirthWorth(c) else 0)
  {
    StepMovesOneItem(rows, ev);
    var after := Step(rows, ev);
    var c := after.contents[|rows.contents|];
    assert after.contents == rows.contents + [c];
    assert Active(c.votes) == {};
    AddedKarma(rows, after, c, u);
  }

  /** Hiding or deleting an item takes away exactly what it was worth with its standing votes, and
      publishing one or showing it again gives that; nobody else's karma moves. */
  lemma WithdrawalMovesKarma(rows: Rows, ev: Event, i: ItemId, u: UserId)
    requires i < |rows.contents| && u < |rows.profiles|
    ensures i < |Step(rows, ev).contents| && u < |Step(rows, ev).profiles|
    ensures var c, after := rows.contents[i], Step(rows, ev);
      var d := after.contents[i];
      && (Live(c) && !Live(d) ==>
            KarmaOf(after, u) == KarmaOf(rows, u)
              - (if c.author == u then BirthWorth(c) + |Active(c.votes)| * VoteWorth(c) else 0))
      && (!Live(c) && Live(d) ==>
            KarmaOf(after, u) == KarmaOf(rows, u)
              + (if c.author == u then BirthWorth(d) + |Active(c.votes)| * VoteWorth(d) else 0))
  {
    StepMovesOneItem(rows, ev);
    SteppedEdit(rows, ev, i, u);
    var c, after := rows.contents[i], Step(rows, ev);
    if Live(c) != Live(after.contents[i]) {
      ChangedItemMovesKarma(rows, after, i, u);
    }
  }

  /** Nothing else moves karma: a user with the same profile, whose items are as live and as voted for
      as before and who has no new one, has the same karma. */
  lemma KarmaRests(rows: Rows, ev: Event, u: UserId)
    requires u < |rows.profiles| && u < |Step(rows, ev).profiles|
    requires Step(rows, ev).profiles[u] == rows.profiles[u]
    requires |Step(rows, ev).contents| >= |rows.contents|
    requires forall i :: 0 <= i < |rows.contents| && rows.contents[i].author == u ==>
      var c, d := rows.contents[i], Step(rows, ev).contents[i];
      BirthWorth(d) == BirthWorth(c) && VoteWorth(d) == VoteWorth(c) && Active(d.votes) == Active(c.votes)
    requires forall i :: |rows.contents| <= i < |Step(rows, ev).contents| ==> Step(rows, ev).contents[i].author != u
    ensures KarmaOf(Step(rows, ev), u) == KarmaOf(rows, u)
  {
    StepMovesOneItem(rows, ev);
    var after := Step(rows, ev);
    if after.contents == rows.contents {
      ProfileAlone(rows, after, u);
    } else if |after.contents| > |rows.contents| {
      assert after.contents == rows.contents + [after.contents[|rows.contents|]];
      AddedKarma(rows, after, after.contents[|rows.contents|], u);
    } else {
      var j :| 0 <= j < |rows.contents| && ChangedOnly(rows, after, j);
      EditedKarma(rows, after, j, u);
    }
  }

  /** A filled profile field is worth 2 points, and so is each of the first five entries of work
      experience and of education. */
  lemma ProfileMovesKarma(rows: Rows, now: int, p: UserId, filled: set<ProfileField>, work: nat, education: nat,
                          u: UserId)
    requires p < |rows.profiles| && u < |rows.profiles|
    ensures var before, after := rows.profiles[p], Step(rows, Event(now, EditProfile(p, filled, work, education)));
      && u < |after.profiles|
      && (u != p ==> KarmaOf(after, u) == KarmaOf(rows, u))
      && (u == p && work == before.workExperiences && education == before.educationExperiences ==>
            KarmaOf(after, u) == KarmaOf(rows, u) + 2 * (|filled| - |before.filled|))
      && (u == p && filled == before.filled && education == before.educationExperiences
          && work == before.workExperiences + 1 ==>
            KarmaOf(after, u) == KarmaOf(rows, u) + (if before.workExperiences < 5 then 2 else 0))
      && (u == p && filled == before.filled && work == before.workExperiences
          && education == before.educationExperiences + 1 ==>
            KarmaOf(after, u) == KarmaOf(rows, u) + (if before.educationExperiences < 5 then 2 else 0))
  {
    ProfileAlone(rows, Step(rows, Event(now, EditProfile(p, filled, work, education))), u);
  }

  /** A newcomer has 2 points for a name given at sign-up, else none. */
  lemma NewcomerKarma(rows: Rows, now: int, fullName: bool, superuser: bool)
    requires Columns.AuthorsKnown(rows)
    ensures var after := Step(rows, Event(now, SignUp(fullName, superuser)));
      && |after.profiles| == |rows.profiles| + 1
      && KarmaOf(after, |rows.profiles|) == if fullName then 2 else 0
  {
    var after := Step(rows, Event(now, SignUp(fullName, superuser)));
    var n := |rows.profiles|;
    assert after.contents == rows.contents && after.profiles == rows.profiles + [NewProfile(fullName, superuser)];
    Karma.ComputeKarmaInOnePass(after, Counts(after.contents), n);
    Columns.StrangersEarnNothing(after.contents, Counts(after.contents), n);
  }
}
