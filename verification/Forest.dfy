/** The comment forest: what creation guarantees about it, and the two recursive readers that rely
    on that guarantee to terminate and to lose nothing. */
module Forest {
  import opened Basics
  import opened Model
  import opened Permissions
  import opened Requests
  import ItemLife

  // ---- the invariant of creation

  /** Everything an item refers to is older than the item and in the same site. */
  ghost predicate WellGrown(rows: Rows) {
    forall i :: 0 <= i < |rows.contents| ==> Placed(rows, i, rows.contents[i])
  }

  lemma PlacedTransfers(rows: Rows, after: Rows, i: nat, c: Content, d: Content)
    requires Placed(rows, i, c) && ItemLife.SameIdentity(c, d) && i <= |rows.contents| <= |after.contents|
    requires forall j :: 0 <= j < i ==> ItemLife.SameIdentity(rows.contents[j], after.contents[j])
    ensures Placed(after, i, d)
  {
  }

  lemma WellGrownApplied(rows: Rows, plan: Plan)
    requires WellGrown(rows) && Sound(rows, plan)
    ensures WellGrown(Applied(rows, plan))
  {
    var after := Applied(rows, plan);
    if plan.row.EditItem? {
      ItemLife.EditKeepsIdentity(rows.contents[plan.row.id], plan.row.edit);
    }
    forall i | 0 <= i < |after.contents|
      ensures Placed(after, i, after.contents[i])
    {
      var c := if i < |rows.contents| then rows.contents[i] else after.contents[i];
      assert Placed(rows, i, c);
      PlacedTransfers(rows, after, i, c, after.contents[i]);
    }
  }

  lemma {:induction false} WellGrownRun(rows: Rows, log: seq<Event>)
    requires WellGrown(rows)
    ensures WellGrown(Run(rows, log))
    decreases |log|
  {
    if log != [] {
      var plan := PlanOf(rows, log[0].now, log[0].req);
      if plan.Some? {
        WellGrownApplied(rows, plan.value);
      }
      WellGrownRun(Step(rows, log[0]), log[1..]);
    }
  }

  predicate IsComment(rows: Rows, id: ItemId) {
    id < |rows.contents| && rows.contents[id].item.Comment?
  }

  function Row(rows: Rows, id: ItemId): CommentRow
    requires IsComment(rows, id)
  {
    rows.contents[id].item.comment
  }

  /** A reply's parent is an older comment of the same site. */
  lemma ParentIsOlder(rows: Rows, id: ItemId)
    requires WellGrown(rows) && IsComment(rows, id) && Row(rows, id).parentCommentId.Some?
    ensures var k := Row(rows, id).parentCommentId.value;
      k < id && IsComment(rows, k) && Row(rows, k).site == Row(rows, id).site
  {
    assert Placed(rows, id, rows.contents[id]);
  }

  // ---- the first reader: where a thread lives

  datatype Route =
    | AnswerRoute(question: ItemId, answer: ItemId)
    | QuestionRoute(question: ItemId)
    | ArticleRoute(article: ItemId)
    | SubmissionRoute(submission: ItemId)

  function RootRoute(rows: Rows, id: ItemId): Option<Route>
    requires WellGrown(rows) && IsComment(rows, id)
    decreases id
  {
    var m := Row(rows, id);
    assert Placed(rows, id, rows.contents[id]);
    if m.answerId.Some? then Some(AnswerRoute(rows.contents[m.answerId.value].item.answer.question, m.answerId.value))
    else if m.questionId.Some? then Some(QuestionRoute(m.questionId.value))
    else if m.articleId.Some? then Some(ArticleRoute(m.articleId.value))
    else if m.submissionId.Some? then Some(SubmissionRoute(m.submissionId.value))
    else if m.parentCommentId.Some? then RootRoute(rows, m.parentCommentId.value)
    else None
  }

  /** The comment that started the thread. */
  function ThreadRoot(rows: Rows, id: ItemId): (r: ItemId)
    requires WellGrown(rows) && IsComment(rows, id)
    ensures r <= id && IsComment(rows, r) && Row(rows, r).parentCommentId.None?
    decreases id
  {
    if Row(rows, id).parentCommentId.None? then id
    else ParentIsOlder(rows, id); ThreadRoot(rows, Row(rows, id).parentCommentId.value)
  }

  /** A whole thread shares its root's site and route; there is no route exactly when the thread was
      started by a comment that hangs on nothing. */
  lemma {:induction false} ThreadsAgree(rows: Rows, id: ItemId)
    requires WellGrown(rows) && IsComment(rows, id)
    ensures var r := ThreadRoot(rows, id);
      && Row(rows, id).site == Row(rows, r).site
      && RootRoute(rows, id) == RootRoute(rows, r)
      && (RootRoute(rows, id).None? <==> IsOrphan(Row(rows, r)))
    decreases id
  {
    assert Placed(rows, id, rows.contents[id]);
    if Row(rows, id).parentCommentId.Some? {
      ThreadsAgree(rows, Row(rows, id).parentCommentId.value);
    }
  }

  /** A route names what the root of its thread hangs on, read off that root's keys: its question, its
      article, its submission, or its answer with that answer's question. */
  lemma RouteNamesTheParent(rows: Rows, id: ItemId, x: ItemId, y: ItemId)
    requires WellGrown(rows) && IsComment(rows, id)
    ensures var root, route := Row(rows, ThreadRoot(rows, id)), RootRoute(rows, id);
      && (route == Some(QuestionRoute(x)) <==> root.questionId == Some(x))
      && (route == Some(ArticleRoute(x)) <==> root.articleId == Some(x))
      && (route == Some(SubmissionRoute(x)) <==> root.submissionId == Some(x))
      && (route == Some(AnswerRoute(y, x)) <==>
            && root.answerId == Some(x) && x < |rows.contents| && rows.contents[x].item.Answer?
            && rows.contents[x].item.answer.question == y)
  {
    var r := ThreadRoot(rows, id);
    ThreadsAgree(rows, id);
    assert Placed(rows, r, rows.contents[r]);
  }

  // ---- orphans

  predicate Orphaned(rows: Rows, id: ItemId) {
    IsComment(rows, id) && IsOrphan(Row(rows, id))
  }

  predicate AddsOrphan(plan: Plan) {
    plan.row.AddItem? && plan.row.content.item.Comment? && IsOrphan(plan.row.content.item.comment)
  }

  lemma OrphanApplied(rows: Rows, plan: Plan, id: ItemId)
    requires Sound(rows, plan)
    ensures Orphaned(Applied(rows, plan), id)
       <==> Orphaned(rows, id) || (id == |rows.contents| && AddsOrphan(plan))
  {
    if plan.row.EditItem? {
      ItemLife.EditKeepsIdentity(rows.contents[plan.row.id], plan.row.edit);
    }
  }

  predicate PostsOrphan(rows: Rows, req: Request) {
    req.CreateComment? && req.p < |rows.profiles| && ParentsGiven(req.parents) == 1 && BlankParent(req.parents)
    && req.text.rendered.Some?
  }

  lemma OrphanPlanned(rows: Rows, ev: Event)
    ensures var plan := PlanOf(rows, ev.now, ev.req);
      PostsOrphan(rows, ev.req) <==> plan.Some? && AddsOrphan(plan.value)
  {
  }

  /** An orphan is made exactly by an accepted comment whose one parent uuid is the empty string. */
  lemma OrphanStep(rows: Rows, ev: Event, id: ItemId)
    ensures Orphaned(Step(rows, ev), id)
       <==> Orphaned(rows, id) || (id == |rows.contents| && PostsOrphan(rows, ev.req))
  {
    OrphanPlanned(rows, ev);
    var plan := PlanOf(rows, ev.now, ev.req);
    if plan.Some? {
      OrphanApplied(rows, plan.value, id);
    }
  }

  /** One blank uuid is enough to store a comment without a route. */
  lemma BlankUuidLosesTheRoute(rows: Rows, text: Text)
    requires WellGrown(rows) && |rows.profiles| > 0 && text.rendered.Some?
    ensures var blank := ParentUuids(Some(Blank), None, None, None, None);
      var after := Step(rows, Event(0, CreateComment(0, blank, text, false)));
      && WellGrown(after) && IsComment(after, |rows.contents|) && RootRoute(after, |rows.contents|) == None
  {
    var blank := ParentUuids(Some(Blank), None, None, None, None);
    var ev := Event(0, CreateComment(0, blank, text, false));
    WellGrownApplied(rows, PlanOf(rows, 0, ev.req).value);
    OrphanStep(rows, ev, |rows.contents|);
  }

  ghost predicate EverPostsOrphan(rows: Rows, log: seq<Event>)
    decreases |log|
  {
    log != [] && (PostsOrphan(rows, log[0].req) || EverPostsOrphan(Step(rows, log[0]), log[1..]))
  }

  ghost predicate HasOrphan(rows: Rows) {
    exists id :: Orphaned(rows, id)
  }

  lemma {:induction false} OrphansOfRun(rows: Rows, log: seq<Event>)
    ensures HasOrphan(Run(rows, log)) <==> HasOrphan(rows) || EverPostsOrphan(rows, log)
    decreases |log|
  {
    if log != [] {
      var after := Step(rows, log[0]);
      forall id
        ensures Orphaned(after, id)
           <==> Orphaned(rows, id) || (id == |rows.contents| && PostsOrphan(rows, log[0].req))
      {
        OrphanStep(rows, log[0], id);
      }
      if PostsOrphan(rows, log[0].req) {
        assert Orphaned(after, |rows.contents|);
      }
      OrphansOfRun(after, log[1..]);
    }
  }

  /** In every reachable state the forest is well grown and a whole thread shares its root's route
      and site; and every comment has a route exactly when no accepted comment ever named its parent
      by an empty uuid. */
  lemma EveryCommentHasARoute(log: seq<Event>)
    ensures var rows := Run(EMPTY, log);
      && WellGrown(rows)
      && (forall id :: IsComment(rows, id) ==>
            && RootRoute(rows, id) == RootRoute(rows, ThreadRoot(rows, id))
            && Row(rows, id).site == Row(rows, ThreadRoot(rows, id)).site)
      && ((forall id :: IsComment(rows, id) ==> RootRoute(rows, id).Some?) <==> !EverPostsOrphan(EMPTY, log))
  {
    WellGrownRun(EMPTY, log);
    var rows := Run(EMPTY, log);
    forall id | IsComment(rows, id)
      ensures RootRoute(rows, id) == RootRoute(rows, ThreadRoot(rows, id))
      ensures Row(rows, id).site == Row(rows, ThreadRoot(rows, id)).site
      ensures RootRoute(rows, id).None? ==> HasOrphan(rows)
      ensures Orphaned(rows, id) ==> RootRoute(rows, id).None?
    {
      ThreadsAgree(rows, id);
      assert RootRoute(rows, id).None? ==> Orphaned(rows, ThreadRoot(rows, id));
    }
    OrphansOfRun(EMPTY, log);
  }

  // ---- the second reader: a comment with its replies

  datatype Tree = Tree(id: ItemId, rootRoute: Option<Route>, children: seq<Tree>)

  predicate IsChild(rows: Rows, id: ItemId, k: ItemId) {
    IsComment(rows, k) && Row(rows, k).parentCommentId == Some(id)
  }

  /** The replies to `id` among the first `n` items, oldest first. */
  function ChildrenBelow(rows: Rows, id: ItemId, n: nat): (ks: seq<ItemId>)
    requires n <= |rows.contents|
    ensures forall i :: 0 <= i < |ks| ==> ks[i] < n && IsChild(rows, id, ks[i])
    ensures forall i, j :: 0 <= i < j < |ks| ==> ks[i] < ks[j]
    ensures forall k :: 0 <= k < n && IsChild(rows, id, k) ==> k in ks
  {
    if n == 0 then [] else
      ChildrenBelow(rows, id, n - 1) + (if IsChild(rows, id, n - 1) then [n - 1] else [])
  }

  function Children(rows: Rows, id: ItemId): seq<ItemId> {
    ChildrenBelow(rows, id, |rows.contents|)
  }

  function Shape(rows: Rows, viewer: Option<UserId>, id: ItemId): Option<Tree>
    requires WellGrown(rows) && IsComment(rows, id)
    decreases |rows.contents| - id, 1, 0
  {
    if !CommentShaped(rows, Row(rows, id), viewer) then None
    else Some(Tree(id, RootRoute(rows, id), ShapeAll(rows, viewer, id, Children(rows, id))))
  }

  /** The shapes of the replies `ks` of `id`, dropping those that may not be shown. */
  function ShapeAll(rows: Rows, viewer: Option<UserId>, id: ItemId, ks: seq<ItemId>): seq<Tree>
    requires WellGrown(rows) && IsComment(rows, id)
    requires forall i :: 0 <= i < |ks| ==> IsChild(rows, id, ks[i])
    decreases |rows.contents| - id, 0, |ks|
  {
    if ks == [] then [] else
      assert IsChild(rows, id, ks[0]);
      ParentIsOlder(rows, ks[0]);
      var first := Shape(rows, viewer, ks[0]);
      (if first.Some? then [first.value] else []) + ShapeAll(rows, viewer, id, ks[1..])
  }

  /** `j` is `id` or a reply, at any depth, to it. */
  predicate IsUnder(rows: Rows, j: ItemId, id: ItemId)
    requires WellGrown(rows) && IsComment(rows, j)
    decreases j
  {
    j == id ||
    (Row(rows, j).parentCommentId.Some? &&
     (ParentIsOlder(rows, j); IsUnder(rows, Row(rows, j).parentCommentId.value, id)))
  }

  function Count(t: Tree, j: ItemId): nat
    decreases t, 0
  {
    (if t.id == j then 1 else 0) + CountAll(t.children, j)
  }

  function CountAll(ts: seq<Tree>, j: ItemId): nat
    decreases ts
  {
    if ts == [] then 0 else Count(ts[0], j) + CountAll(ts[1..], j)
  }

  lemma {:induction false} UnderIsYounger(rows: Rows, j: ItemId, id: ItemId)
    requires WellGrown(rows) && IsComment(rows, j) && IsUnder(rows, j, id)
    ensures id <= j
    decreases j
  {
    if j != id {
      ParentIsOlder(rows, j);
      UnderIsYounger(rows, Row(rows, j).parentCommentId.value, id);
    }
  }

  lemma {:induction false} UnderChildIsUnder(rows: Rows, j: ItemId, k: ItemId, id: ItemId)
    requires WellGrown(rows) && IsComment(rows, j) && IsChild(rows, id, k) && IsUnder(rows, j, k)
    ensures IsUnder(rows, j, id) && j != id
    decreases j
  {
    UnderIsYounger(rows, j, k);
    ParentIsOlder(rows, k);
    if j != k {
      ParentIsOlder(rows, j);
      UnderChildIsUnder(rows, Row(rows, j).parentCommentId.value, k, id);
    }
  }

  /** The reply to `id` through which `j` hangs under `id`. */
  function Branch(rows: Rows, j: ItemId, id: ItemId): (k: ItemId)
    requires WellGrown(rows) && IsComment(rows, j) && IsUnder(rows, j, id) && j != id
    ensures IsChild(rows, id, k) && IsUnder(rows, j, k)
    decreases j
  {
    ParentIsOlder(rows, j);
    var parent := Row(rows, j).parentCommentId.value;
    if parent == id then j else Branch(rows, parent, id)
  }

  /** No comment hangs under two different replies to the same comment. */
  lemma {:induction false} BranchIsUnique(rows: Rows, j: ItemId, id: ItemId, k: ItemId, l: ItemId)
    requires WellGrown(rows) && IsComment(rows, j) && IsChild(rows, id, k) && IsChild(rows, id, l)
    requires IsUnder(rows, j, k) && IsUnder(rows, j, l)
    ensures k == l
    decreases j
  {
    ParentIsOlder(rows, k);
    ParentIsOlder(rows, l);
    if j == k {
      if j != l {
        UnderIsYounger(rows, id, l);
      }
    } else if j == l {
      UnderIsYounger(rows, id, k);
    } else {
      ParentIsOlder(rows, j);
      BranchIsUnique(rows, Row(rows, j).parentCommentId.value, id, k, l);
    }
  }

  /** `j` hangs under one of `ks`. */
  ghost predicate AnyUnder(rows: Rows, ks: seq<ItemId>, j: ItemId)
    requires WellGrown(rows) && IsComment(rows, j)
  {
    exists i :: 0 <= i < |ks| && IsUnder(rows, j, ks[i])
  }

  /** A comment that may be shown is shown with every reply at every depth, each exactly once, and
      with nothing else. */
  lemma {:induction false} ShapeKeepsTheThread(rows: Rows, viewer: Option<UserId>, id: ItemId, j: ItemId)
    requires WellGrown(rows) && IsComment(rows, id) && IsComment(rows, j)
    ensures Shape(rows, viewer, id).Some? <==> CommentShaped(rows, Row(rows, id), viewer)
    ensures Shape(rows, viewer, id).Some? ==>
      Count(Shape(rows, viewer, id).value, j) == (if IsUnder(rows, j, id) then 1 else 0)
    decreases |rows.contents| - id, 1, 0
  {
    if CommentShaped(rows, Row(rows, id), viewer) {
      var ks := Children(rows, id);
      ShapeAllKeepsThreads(rows, viewer, id, ks, j);
      if j == id {
        if exists i :: 0 <= i < |ks| && IsUnder(rows, j, ks[i]) {
          var i :| 0 <= i < |ks| && IsUnder(rows, j, ks[i]);
          UnderChildIsUnder(rows, j, ks[i], id);
        }
      } else if IsUnder(rows, j, id) {
        var k := Branch(rows, j, id);
        assert k in ks;
      } else if exists i :: 0 <= i < |ks| && IsUnder(rows, j, ks[i]) {
        var i :| 0 <= i < |ks| && IsUnder(rows, j, ks[i]);
        UnderChildIsUnder(rows, j, ks[i], id);
      }
    }
  }

  lemma AnyUnderSplits(rows: Rows, ks: seq<ItemId>, j: ItemId)
    requires WellGrown(rows) && IsComment(rows, j) && ks != []
    ensures AnyUnder(rows, ks, j) <==> IsUnder(rows, j, ks[0]) || AnyUnder(rows, ks[1..], j)
  {
    var rest := ks[1..];
    if i :| 0 <= i < |ks| && IsUnder(rows, j, ks[i]) {
      assert i == 0 || rest[i - 1] == ks[i];
    }
    if i :| 0 <= i < |rest| && IsUnder(rows, j, rest[i]) {
      assert ks[i + 1] == rest[i];
    }
  }

  /** The comments under two different replies are different. */
  lemma BranchesApart(rows: Rows, id: ItemId, ks: seq<ItemId>, j: ItemId)
    requires WellGrown(rows) && IsComment(rows, j) && ks != []
    requires forall i :: 0 <= i < |ks| ==> IsChild(rows, id, ks[i])
    requires forall i, l :: 0 <= i < l < |ks| ==> ks[i] < ks[l]
    ensures !(IsUnder(rows, j, ks[0]) && AnyUnder(rows, ks[1..], j))
  {
    var rest := ks[1..];
    if IsUnder(rows, j, ks[0]) {
      forall i | 0 <= i < |rest|
        ensures !IsUnder(rows, j, rest[i])
      {
        assert rest[i] == ks[i + 1];
        if IsUnder(rows, j, rest[i]) {
          BranchIsUnique(rows, j, id, ks[0], ks[i + 1]);
        }
      }
    }
  }

  lemma {:induction false} ShapeAllKeepsThreads(rows: Rows, viewer: Option<UserId>, id: ItemId,
                                                ks: seq<ItemId>, j: ItemId)
    requires WellGrown(rows) && IsComment(rows, id) && IsComment(rows, j)
    requires CommentShaped(rows, Row(rows, id), viewer)
    requires forall i :: 0 <= i < |ks| ==> IsChild(rows, id, ks[i])
    requires forall i, l :: 0 <= i < l < |ks| ==> ks[i] < ks[l]
    ensures CountAll(ShapeAll(rows, viewer, id, ks), j) == (if AnyUnder(rows, ks, j) then 1 else 0)
    decreases |rows.contents| - id, 0, |ks|
  {
    if ks != [] {
      ParentIsOlder(rows, ks[0]);
      ShapeKeepsTheThread(rows, viewer, ks[0], j);
      ShapeAllKeepsThreads(rows, viewer, id, ks[1..], j);
      AnyUnderSplits(rows, ks, j);
      BranchesApart(rows, id, ks, j);
      var first, others := Shape(rows, viewer, ks[0]).value, ShapeAll(rows, viewer, id, ks[1..]);
      assert ([first] + others)[1..] == others;
    }
  }

  // ---- what a shown thread says

  /** Every comment shown in `t` carries the route `route`. */
  ghost predicate AllRouted(t: Tree, route: Option<Route>)
    decreases t
  {
    t.rootRoute == route && forall c :: c in t.children ==> AllRouted(c, route)
  }

  /** A thread shown carries the same route everywhere. */
  lemma {:induction false} ShapeCarriesTheRoute(rows: Rows, viewer: Option<UserId>, id: ItemId)
    requires WellGrown(rows) && IsComment(rows, id)
    ensures Shape(rows, viewer, id).Some? ==>
      && Shape(rows, viewer, id).value.id == id
      && AllRouted(Shape(rows, viewer, id).value, RootRoute(rows, ThreadRoot(rows, id)))
    decreases |rows.contents| - id, 1, 0
  {
    ThreadsAgree(rows, id);
    if CommentShaped(rows, Row(rows, id), viewer) {
      ShapeAllCarryTheRoute(rows, viewer, id, Children(rows, id));
    }
  }

  lemma {:induction false} ShapeAllCarryTheRoute(rows: Rows, viewer: Option<UserId>, id: ItemId, ks: seq<ItemId>)
    requires WellGrown(rows) && IsComment(rows, id)
    requires forall i :: 0 <= i < |ks| ==> IsChild(rows, id, ks[i])
    ensures forall t :: t in ShapeAll(rows, viewer, id, ks) ==> AllRouted(t, RootRoute(rows, ThreadRoot(rows, id)))
    decreases |rows.contents| - id, 0, |ks|
  {
    if ks != [] {
      ParentIsOlder(rows, ks[0]);
      ShapeCarriesTheRoute(rows, viewer, ks[0]);
      ShapeAllCarryTheRoute(rows, viewer, id, ks[1..]);
    }
  }
}
