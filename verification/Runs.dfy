/** Whole runs of requests, seen from one item: what an item is now is the replay, on the row it was
    born as, of the edits that accepted requests made to it. Every per-item law of the answer,
    article and vote machines thereby holds in every reachable state. */
module Runs {
  import opened Basics
  import opened Model
  import opened Requests
  import AnswerLife
  import ArticleLife
  import CommentUpdate
  import ItemLife
  import Karma
  import Permissions

  // ---- decomposition

  function EditsNow(rows: Rows, ev: Event, i: ItemId): seq<ItemLife.Edit> {
    var plan := PlanOf(rows, ev.now, ev.req);
    if plan.Some? && plan.value.row.EditItem? && plan.value.row.id == i then [plan.value.row.edit] else []
  }

  function EditsOf(rows: Rows, log: seq<Event>, i: ItemId): seq<ItemLife.Edit>
    decreases |log|
  {
    if log == [] then [] else EditsNow(rows, log[0], i) + EditsOf(Step(rows, log[0]), log[1..], i)
  }

  lemma ReplayOne(c: Content, e: ItemLife.Edit)
    requires ItemLife.Fits(c, e)
    ensures ItemLife.Fitting(c, [e]) && ItemLife.Replay(c, [e]) == ItemLife.Apply(c, e)
  {
    assert [e][1..] == [];
    assert ItemLife.Fitting(ItemLife.Apply(c, e), []);
  }

  lemma PlanOnItem(rows: Rows, plan: Plan, i: ItemId)
    requires Sound(rows, plan) && i < |rows.contents|
    ensures var after := Applied(rows, plan).contents;
      && |rows.contents| <= |after| <= |rows.contents| + 1
      && if plan.row.EditItem? && plan.row.id == i
         then ItemLife.Fits(rows.contents[i], plan.row.edit)
              && after[i] == ItemLife.Apply(rows.contents[i], plan.row.edit)
         else after[i] == rows.contents[i]
  {
  }

  lemma StepOnItem(rows: Rows, ev: Event, i: ItemId)
    requires i < |rows.contents|
    ensures var es := EditsNow(rows, ev, i);
      && |rows.contents| <= |Step(rows, ev).contents| <= |rows.contents| + 1
      && ItemLife.Fitting(rows.contents[i], es)
      && Step(rows, ev).contents[i] == ItemLife.Replay(rows.contents[i], es)
  {
    var plan := PlanOf(rows, ev.now, ev.req);
    if plan.Some? {
      PlanOnItem(rows, plan.value, i);
      if plan.value.row.EditItem? && plan.value.row.id == i {
        ReplayOne(rows.contents[i], plan.value.row.edit);
      }
    }
  }

  lemma PlanAddsBornItem(rows: Rows, plan: Plan)
    requires Sound(rows, plan)
    ensures var after := Applied(rows, plan).contents;
      |after| > |rows.contents| ==>
        after == rows.contents + [after[|rows.contents|]] && Born(after[|rows.contents|])
  {
  }

  lemma StepAddsBornItem(rows: Rows, ev: Event)
    ensures var after := Step(rows, ev).contents;
      |after| > |rows.contents| ==>
        after == rows.contents + [after[|rows.contents|]] && Born(after[|rows.contents|])
  {
    var plan := PlanOf(rows, ev.now, ev.req);
    if plan.Some? {
      PlanAddsBornItem(rows, plan.value);
    }
  }

  /** The row item `i` was when first seen in the run, and what was done to it since. */
  function Life(rows: Rows, log: seq<Event>, i: ItemId): (Content, seq<ItemLife.Edit>)
    requires i < |Run(rows, log).contents|
    decreases |log|
  {
    if i < |rows.contents| then (rows.contents[i], EditsOf(rows, log, i))
    else Life(Step(rows, log[0]), log[1..], i)
  }

  lemma {:induction false} ConcatReplays(c: Content, es: seq<ItemLife.Edit>, fs: seq<ItemLife.Edit>)
    requires ItemLife.Fitting(c, es) && ItemLife.Fitting(ItemLife.Replay(c, es), fs)
    ensures ItemLife.Fitting(c, es + fs)
    ensures ItemLife.Replay(c, es + fs) == ItemLife.Replay(ItemLife.Replay(c, es), fs)
    decreases es
  {
    if es == [] {
      assert es + fs == fs;
    } else {
      ConcatReplays(ItemLife.Apply(c, es[0]), es[1..], fs);
      assert (es + fs)[1..] == es[1..] + fs;
    }
  }

  lemma {:induction false} OldItemReplays(rows: Rows, log: seq<Event>, i: ItemId)
    requires i < |rows.contents|
    ensures i < |Run(rows, log).contents|
    ensures ItemLife.Fitting(rows.contents[i], EditsOf(rows, log, i))
    ensures Run(rows, log).contents[i] == ItemLife.Replay(rows.contents[i], EditsOf(rows, log, i))
    decreases |log|
  {
    if log != [] {
      StepOnItem(rows, log[0], i);
      OldItemReplays(Step(rows, log[0]), log[1..], i);
      ConcatReplays(rows.contents[i], EditsNow(rows, log[0], i), EditsOf(Step(rows, log[0]), log[1..], i));
    }
  }

  /** Every item of every reachable state is a born row with fitting edits replayed on it. */
  lemma {:induction false} EveryItemReplays(rows: Rows, log: seq<Event>, i: ItemId)
    requires i < |Run(rows, log).contents|
    ensures var (c, es) := Life(rows, log, i);
      && ItemLife.Fitting(c, es)
      && Run(rows, log).contents[i] == ItemLife.Replay(c, es)
      && (i >= |rows.contents| ==> Born(c))
    decreases |log|
  {
    if i < |rows.contents| {
      OldItemReplays(rows, log, i);
    } else {
      EveryItemReplays(Step(rows, log[0]), log[1..], i);
      if i < |Step(rows, log[0]).contents| {
        StepAddsBornItem(rows, log[0]);
      }
    }
  }

  lemma {:induction false} IdentityOfRun(c: Content, es: seq<ItemLife.Edit>)
    requires ItemLife.Fitting(c, es)
    ensures ItemLife.SameIdentity(c, ItemLife.Replay(c, es))
    decreases es
  {
    if es != [] {
      ItemLife.EditKeepsIdentity(c, es[0]);
      IdentityOfRun(ItemLife.Apply(c, es[0]), es[1..]);
    }
  }

  // ---- answers and their suggestions

  /** In every reachable state, every answer's suggestions are stamped as their status says and the
      contributor list is exactly the authors of accepted suggestions, each once. */
  lemma SuggestionsAlwaysInOrder(log: seq<Event>, i: ItemId)
    requires i < |Run(EMPTY, log).contents| && Run(EMPTY, log).contents[i].item.Answer?
    ensures var a := Run(EMPTY, log).contents[i].item.answer;
      AnswerLife.AllWellStamped(a) && AnswerLife.Credited(a)
  {
    EveryItemReplays(EMPTY, log, i);
    var (c, es) := Life(EMPTY, log, i);
    IdentityOfRun(c, es);
    ItemLife.AnswerOfRun(c, es);
    AnswerLife.StampsStayRight(c.item.answer, ItemLife.AnswerEdits(es));
    AnswerLife.ContributorsAreAcceptedAuthors(c.item.answer, ItemLife.AnswerEdits(es));
  }

  /** From any state on: an accepted suggestion never changes again, and no suggestion is ever
      dropped, reworded or reattributed. */
  lemma SuggestionsNeverUndone(rows: Rows, log: seq<Event>, i: ItemId, k: nat)
    requires i < |rows.contents| && rows.contents[i].item.Answer? && k < |rows.contents[i].item.answer.edits|
    ensures var s := rows.contents[i].item.answer.edits[k];
      && i < |Run(rows, log).contents| && Run(rows, log).contents[i].item.Answer?
      && var now := Run(rows, log).contents[i].item.answer.edits;
         && k < |now| && now[k].author == s.author && now[k].text == s.text
         && (s.status.Accepted? ==> now[k] == s)
  {
    OldItemReplays(rows, log, i);
    var es := EditsOf(rows, log, i);
    ItemLife.AnswerOfRun(rows.contents[i], es);
    AnswerLife.AcceptedIsAbsorbing(rows.contents[i].item.answer, ItemLife.AnswerEdits(es), k);
  }

  // ---- the published log

  /** Between any two reachable states with no deletion in between, an answer's log of published
      texts grows by exactly the texts published, and publication is never taken back. */
  lemma AnswerLogIsAppendOnly(rows: Rows, log: seq<Event>, i: ItemId)
    requires i < |rows.contents| && rows.contents[i].item.Answer?
    requires AnswerLife.Erase !in ItemLife.AnswerEdits(EditsOf(rows, log, i))
    ensures var a := rows.contents[i].item.answer;
      var es := ItemLife.AnswerEdits(EditsOf(rows, log, i));
      && i < |Run(rows, log).contents| && Run(rows, log).contents[i].item.Answer?
      && AnswerLife.Fitting(a, es)
      && var b := Run(rows, log).contents[i].item.answer;
         && AnswerLife.PublishedLog(b) == AnswerLife.PublishedLog(a) + AnswerLife.Texts(a, es)
         && (a.isPublished ==> b.isPublished)
  {
    OldItemReplays(rows, log, i);
    var es := EditsOf(rows, log, i);
    ItemLife.AnswerOfRun(rows.contents[i], es);
    AnswerLife.LogOfRun(rows.contents[i].item.answer, ItemLife.AnswerEdits(es));
    AnswerLife.PublishedForGood(rows.contents[i].item.answer, ItemLife.AnswerEdits(es));
  }

  lemma ArticleLogIsAppendOnly(rows: Rows, log: seq<Event>, i: ItemId)
    requires i < |rows.contents| && rows.contents[i].item.Article?
    requires ArticleLife.Erase !in ItemLife.ArticleEdits(EditsOf(rows, log, i))
    ensures var a := rows.contents[i].item.article;
      var es := ItemLife.ArticleEdits(EditsOf(rows, log, i));
      && i < |Run(rows, log).contents| && Run(rows, log).contents[i].item.Article?
      && var b := Run(rows, log).contents[i].item.article;
         && ArticleLife.PublishedLog(b) == ArticleLife.PublishedLog(a) + ArticleLife.Texts(es)
         && (a.isPublished ==> b.isPublished)
  {
    OldItemReplays(rows, log, i);
    var es := EditsOf(rows, log, i);
    ItemLife.ArticleOfRun(rows.contents[i], es);
    ArticleLife.LogOfRun(rows.contents[i].item.article, ItemLife.ArticleEdits(es));
  }

  // ---- the clock

  /** Request times never go back, nor before `t`. */
  ghost predicate Monotone(t: int, log: seq<Event>)
    decreases |log|
  {
    log == [] || (t <= log[0].now && Monotone(log[0].now, log[1..]))
  }

  predicate AtTime(e: ItemLife.Edit, t: int) {
    match e
    case OnAnswer(ae) => AnswerLife.Publishes(ae) ==> ae.at == t
    case OnArticle(ae) => ae.Publish? ==> ae.at == t
    case _ => true
  }

  /** Whatever the plan publishes is dated `t`. */
  predicate PublishesAt(plan: Plan, t: int) {
    match plan.row
    case AddItem(c) =>
      && (c.item.Answer? ==> c.item.answer.updatedAt == t)
      && (c.item.Article? && c.item.article.isPublished ==> c.item.article.updatedAt == Some(t))
    case EditItem(_, e) => AtTime(e, t)
    case _ => true
  }

  /** Whatever a request publishes carries the request's time. */
  lemma PublishedNow(rows: Rows, ev: Event)
    ensures var plan := PlanOf(rows, ev.now, ev.req); plan.Some? ==> PublishesAt(plan.value, ev.now)
  {
  }

  ghost predicate ItemClocked(s: Option<int>, es: seq<ItemLife.Edit>) {
    && (s.Some? ==> AnswerLife.Clocked(s.value, ItemLife.AnswerEdits(es)))
    && ArticleLife.Clocked(s, ItemLife.ArticleEdits(es))
  }

  lemma ClockedPrepend(s: Option<int>, e: ItemLife.Edit, rest: seq<ItemLife.Edit>, t: int)
    requires AtTime(e, t) && (s.Some? ==> s.value <= t)
    requires ItemClocked(s, rest) && ItemClocked(Some(t), rest)
    ensures ItemClocked(s, [e] + rest)
  {
    var es := [e] + rest;
    assert es[1..] == rest;
    var a, b := ItemLife.AnswerEdits(es), ItemLife.ArticleEdits(es);
    assert a == (if e.OnAnswer? then [e.answerEdit] else []) + ItemLife.AnswerEdits(rest);
    assert b == (if e.OnArticle? then [e.articleEdit] else []) + ItemLife.ArticleEdits(rest);
    if e.OnAnswer? {
      assert a[1..] == ItemLife.AnswerEdits(rest);
    } else {
      assert a == ItemLife.AnswerEdits(rest);
    }
    if e.OnArticle? {
      assert b[1..] == ItemLife.ArticleEdits(rest);
    } else {
      assert b == ItemLife.ArticleEdits(rest);
    }
  }

  lemma {:induction false} EditsAreClocked(rows: Rows, log: seq<Event>, i: ItemId, s: Option<int>, t: int)
    requires (s.Some? ==> s.value <= t) && Monotone(t, log)
    ensures ItemClocked(s, EditsOf(rows, log, i))
    decreases |log|
  {
    if log != [] {
      var ev, next := log[0], Step(rows, log[0]);
      PublishedNow(rows, ev);
      EditsAreClocked(next, log[1..], i, s, ev.now);
      EditsAreClocked(next, log[1..], i, Some(ev.now), ev.now);
      var es, rest := EditsNow(rows, ev, i), EditsOf(next, log[1..], i);
      if es == [] {
        assert es + rest == rest;
      } else {
        ClockedPrepend(s, es[0], rest, ev.now);
      }
    }
  }

  lemma AnswerStaysInOrder(rows: Rows, log: seq<Event>, i: ItemId, t: int)
    requires Monotone(t, log) && i < |rows.contents| && rows.contents[i].item.Answer?
    requires AnswerLife.Chronological(rows.contents[i].item.answer) && rows.contents[i].item.answer.updatedAt <= t
    ensures i < |Run(rows, log).contents| && Run(rows, log).contents[i].item.Answer?
    ensures AnswerLife.Chronological(Run(rows, log).contents[i].item.answer)
  {
    OldItemReplays(rows, log, i);
    var es := EditsOf(rows, log, i);
    var a := rows.contents[i].item.answer;
    ItemLife.AnswerOfRun(rows.contents[i], es);
    EditsAreClocked(rows, log, i, Some(a.updatedAt), t);
    AnswerLife.ArchivesStayChronological(a, ItemLife.AnswerEdits(es));
  }

  lemma ArticleStaysInOrder(rows: Rows, log: seq<Event>, i: ItemId, t: int)
    requires Monotone(t, log) && i < |rows.contents| && rows.contents[i].item.Article?
    requires ArticleLife.Chronological(rows.contents[i].item.article)
    requires rows.contents[i].item.article.updatedAt in {None, Some(t)}
    ensures i < |Run(rows, log).contents| && Run(rows, log).contents[i].item.Article?
    ensures ArticleLife.Chronological(Run(rows, log).contents[i].item.article)
  {
    OldItemReplays(rows, log, i);
    var es := EditsOf(rows, log, i);
    ItemLife.ArticleOfRun(rows.contents[i], es);
    EditsAreClocked(rows, log, i, rows.contents[i].item.article.updatedAt, t);
    ArticleLife.ArchivesStayChronological(rows.contents[i].item.article, ItemLife.ArticleEdits(es));
  }

  predicate FreshAt(c: Content, t: int) {
    && (c.item.Answer? ==> AnswerLife.Chronological(c.item.answer) && c.item.answer.updatedAt == t)
    && (c.item.Article? ==>
          ArticleLife.Chronological(c.item.article) && c.item.article.updatedAt in {None, Some(t)})
  }

  lemma NewItemIsFreshNow(rows: Rows, plan: Plan, t: int)
    requires Sound(rows, plan) && PublishesAt(plan, t) && |Applied(rows, plan).contents| > |rows.contents|
    ensures FreshAt(Applied(rows, plan).contents[|rows.contents|], t)
  {
    PlanAddsBornItem(rows, plan);
  }

  lemma NewItemIsFresh(rows: Rows, ev: Event)
    requires |Step(rows, ev).contents| > |rows.contents|
    ensures FreshAt(Step(rows, ev).contents[|rows.contents|], ev.now)
  {
    PublishedNow(rows, ev);
    NewItemIsFreshNow(rows, PlanOf(rows, ev.now, ev.req).value, ev.now);
  }

  lemma FreshStaysInOrder(rows: Rows, log: seq<Event>, i: ItemId, t: int)
    requires Monotone(t, log) && i < |rows.contents| && FreshAt(rows.contents[i], t)
    ensures i < |Run(rows, log).contents|
    ensures var c := Run(rows, log).contents[i];
      && (c.item.Answer? ==> AnswerLife.Chronological(c.item.answer))
      && (c.item.Article? ==> ArticleLife.Chronological(c.item.article))
  {
    OldItemReplays(rows, log, i);
    IdentityOfRun(rows.contents[i], EditsOf(rows, log, i));
    match rows.contents[i].item
    case Answer(_) => AnswerStaysInOrder(rows, log, i, t);
    case Article(_) => ArticleStaysInOrder(rows, log, i, t);
    case _ =>
  }

  /** Under a monotone clock the archives of every answer and article are in time order, none later
      than the current text. */
  lemma {:induction false} ArchivesInOrder(rows: Rows, log: seq<Event>, i: ItemId, t: int)
    requires Monotone(t, log)
    requires |rows.contents| <= i < |Run(rows, log).contents|
    ensures var c := Run(rows, log).contents[i];
      && (c.item.Answer? ==> AnswerLife.Chronological(c.item.answer))
      && (c.item.Article? ==> ArticleLife.Chronological(c.item.article))
    decreases |log|
  {
    var after := Step(rows, log[0]);
    if i < |after.contents| {
      StepAddsBornItem(rows, log[0]);
      NewItemIsFresh(rows, log[0]);
      FreshStaysInOrder(after, log[1..], i, log[0].now);
    } else {
      ArchivesInOrder(after, log[1..], i, log[0].now);
    }
  }

  // ---- deletion

  /** Once its author deletes an answer, its body and every archive read "[DELETED]" and it earns
      nothing, in every later state, whatever is requested and however the votes move. */
  lemma DeletionIsTerminal(rows: Rows, now: int, i: ItemId, log: seq<Event>, count: int)
    requires i < |rows.contents| && rows.contents[i].item.Answer? && rows.contents[i].author < |rows.profiles|
    ensures var deleted := Step(rows, Event(now, DeleteItem(rows.contents[i].author, i)));
      && i < |Run(deleted, log).contents|
      && var c := Run(deleted, log).contents[i];
         c.item.Answer? && AnswerLife.Gone(c.item.answer) && Karma.Contribution(c, count) == 0
  {
    var deleted := Step(rows, Event(now, DeleteItem(rows.contents[i].author, i)));
    assert AnswerLife.Gone(deleted.contents[i].item.answer);
    OldItemReplays(deleted, log, i);
    var es := EditsOf(deleted, log, i);
    ItemLife.AnswerOfRun(deleted.contents[i], es);
    AnswerLife.GoneForGood(deleted.contents[i].item.answer, ItemLife.AnswerEdits(es));
  }

  /** Once its author deletes an article it earns nothing in every later state. Its body and archive
      bodies read "[DELETED]" exactly until the author publishes other text; its title and rendered
      text are not touched by deletion at all, so all its text is gone exactly if, besides, the last
      publication came without a rendering. */
  lemma ArticleAfterDeletion(rows: Rows, now: int, i: ItemId, log: seq<Event>, count: int)
    requires i < |rows.contents| && rows.contents[i].item.Article? && rows.contents[i].author < |rows.profiles|
    ensures var deleted := Step(rows, Event(now, DeleteItem(rows.contents[i].author, i)));
      && i < |Run(deleted, log).contents|
      && var c, a := Run(deleted, log).contents[i], rows.contents[i].item.article;
         var es := ItemLife.ArticleEdits(EditsOf(deleted, log, i));
         && c.item.Article? && c.item.article.isDeleted && Karma.Contribution(c, count) == 0
         && (ArticleLife.BodiesGone(c.item.article) <==> !ArticleLife.Returns(false, es))
         && c.item.article.title == ArticleLife.LastTitle(a.title, es)
         && c.item.article.rendered == ArticleLife.LastRendering(a.rendered, es)
         && (ArticleLife.TextGone(c.item.article)
             <==> !ArticleLife.Returns(false, es)
                  && ArticleLife.NoRendering(ArticleLife.LastRendering(a.rendered, es)))
  {
    var a := rows.contents[i].item.article;
    var deleted := Step(rows, Event(now, DeleteItem(rows.contents[i].author, i)));
    var erased := deleted.contents[i].item.article;
    assert erased == ArticleLife.Apply(a, ArticleLife.Erase);
    OldItemReplays(deleted, log, i);
    ItemLife.ArticleOfRun(deleted.contents[i], EditsOf(deleted, log, i));
    var es := ItemLife.ArticleEdits(EditsOf(deleted, log, i));
    ArticleLife.DeletedFlagStays(erased, es);
    ArticleLife.BodiesGoneUntilPublished(erased, es);
    ArticleLife.DeletionKeepsRendering(erased, es);
  }

  /** Deleting a published article that anyone may read leaves its title and rendered text on show. */
  lemma DeletedArticleIsServed(rows: Rows, now: int, i: ItemId)
    requires i < |rows.contents| && rows.contents[i].item.Article? && rows.contents[i].author < |rows.profiles|
    requires rows.contents[i].item.article.isPublished && rows.contents[i].item.article.visibility == Anyone
    ensures var a := rows.contents[i].item.article;
      var deleted := Step(rows, Event(now, DeleteItem(rows.contents[i].author, i)));
      && i < |deleted.contents| && deleted.contents[i].item.Article?
      && ArticleLife.Shown(deleted.contents[i].item.article, false)
         == Some(ArticleLife.Payload(a.title, DELETED, a.rendered))
  {
  }

  // ---- comments

  /** From any state on, a comment keeps source, rendering and editor until it is deleted, although
      update requests carry new text. */
  lemma CommentKeepsItsText(rows: Rows, log: seq<Event>, i: ItemId)
    requires i < |rows.contents| && rows.contents[i].item.Comment?
    ensures i < |Run(rows, log).contents| && Run(rows, log).contents[i].item.Comment?
    ensures var m, n := rows.contents[i].item.comment, Run(rows, log).contents[i].item.comment;
      var erased := ItemLife.EraseComment in EditsOf(rows, log, i);
      && n.body == (if erased then DELETED else m.body)
      && n.rendered == (if erased then DELETED else m.rendered)
      && n.editor == m.editor
  {
    OldItemReplays(rows, log, i);
    ItemLife.CommentTextOfRun(rows.contents[i], EditsOf(rows, log, i));
  }

  /** A request to change the text of a comment is accepted, and the text is not changed. */
  lemma AcceptedUpdateDropsText(rows: Rows, now: int, i: ItemId, text: Text)
    requires i < |rows.contents| && rows.contents[i].item.Comment? && rows.contents[i].author < |rows.profiles|
    requires rows.contents[i].item.comment.site == None && rows.contents[i].item.comment.body != text.source
    ensures var req := UpdateComment(rows.contents[i].author, i, Some(text), false, None);
      && PlanOf(rows, now, req).Some?
      && i < |Step(rows, Event(now, req)).contents|
      && Step(rows, Event(now, req)).contents[i].item.Comment?
      && Step(rows, Event(now, req)).contents[i].item.comment
         == rows.contents[i].item.comment.(updatedAt := now)
  {
    CommentUpdate.RequestStoresNoText(rows.contents[i].item.comment, Some(text), false, None, now);
  }

  // ---- rewriting a deleted answer

  predicate RewritesAnswer(req: Request, i: ItemId) {
    match req
    case UpdateAnswer(_, id, _, _, _) => id == i
    case ModerateAnswer(_, id, _) => id == i
    case CreateSuggestEdit(_, id, _) => id == i
    case UpdateSuggestEdit(_, id, _, _) => id == i
    case _ => false
  }

  /** Every attempt to rewrite a deleted answer is refused at the read gate. */
  lemma DeletedAnswersRefuse(rows: Rows, ev: Event, i: ItemId)
    requires i < |rows.contents| && rows.contents[i].item.Answer? && rows.contents[i].item.answer.isDeleted
    requires RewritesAnswer(ev.req, i)
    ensures Step(rows, ev) == rows
  {
  }

  // ---- one answer each

  predicate SameSlot(c: Content, d: Content) {
    c.item.Answer? && IsUndeletedAnswer(d, c.author, c.item.answer.question) && !c.item.answer.isDeleted
  }

  /** No user has two undeleted answers to one question. */
  ghost predicate OneAnswerEach(rows: Rows) {
    forall i, j :: 0 <= i < j < |rows.contents| ==> !SameSlot(rows.contents[i], rows.contents[j])
  }

  lemma EditKeepsSlot(c: Content, e: ItemLife.Edit, d: Content)
    requires ItemLife.Fits(c, e)
    ensures SameSlot(ItemLife.Apply(c, e), d) ==> SameSlot(c, d)
    ensures SameSlot(d, ItemLife.Apply(c, e)) ==> SameSlot(d, c)
  {
  }

  lemma OneAnswerApplied(rows: Rows, plan: Plan)
    requires OneAnswerEach(rows) && Sound(rows, plan)
    ensures OneAnswerEach(Applied(rows, plan))
  {
    var after := Applied(rows, plan).contents;
    forall i, j | 0 <= i < j < |after|
      ensures !SameSlot(after[i], after[j])
    {
      if plan.row.EditItem? {
        var k, e := plan.row.id, plan.row.edit;
        if i == k {
          EditKeepsSlot(rows.contents[i], e, after[j]);
        }
        if j == k {
          EditKeepsSlot(rows.contents[j], e, after[i]);
        }
      } else if SameSlot(after[i], after[j]) && j == |rows.contents| {
        assert IsUndeletedAnswer(rows.contents[i], after[j].author, after[j].item.answer.question);
      }
    }
  }

  /** Over every run each user has at most one undeleted answer per question, although the check is
      made only at creation. */
  lemma {:induction false} OneAnswerRun(rows: Rows, log: seq<Event>)
    requires OneAnswerEach(rows)
    ensures OneAnswerEach(Run(rows, log))
    decreases |log|
  {
    if log != [] {
      var plan := PlanOf(rows, log[0].now, log[0].req);
      if plan.Some? {
        OneAnswerApplied(rows, plan.value);
      }
      OneAnswerRun(Step(rows, log[0]), log[1..]);
    }
  }

  lemma OneAnswerInReach(log: seq<Event>)
    ensures OneAnswerEach(Run(EMPTY, log))
  {
    OneAnswerRun(EMPTY, log);
  }

  // ---- moderation

  predicate IsHidden(rows: Rows, i: ItemId) {
    i < |rows.contents| && rows.contents[i].item.Answer? && rows.contents[i].item.answer.isHiddenByModerator
  }

  /** The site of answer `i` is moderated by someone who did not write it. */
  predicate ModeratedByAnother(rows: Rows, i: ItemId)
    requires i < |rows.contents| && rows.contents[i].item.Answer?
  {
    var s := rows.contents[i].item.answer.site;
    s < |rows.sites| && rows.sites[s].moderator != rows.contents[i].author
  }

  /** The plan turns the hidden flag of answer `i` around. */
  predicate Toggles(rows: Rows, plan: Plan, i: ItemId) {
    && i < |rows.contents| && rows.contents[i].item.Answer?
    && var hidden := rows.contents[i].item.answer.isHiddenByModerator;
       plan.row == EditItem(i, ItemLife.OnAnswer(AnswerLife.SetHidden(!hidden)))
  }

  /** An answer is hidden, or shown again, exactly by its own author moderating the site: for anyone
      else the payload of the answer as hidden cannot be built, and the request is undone. */
  lemma HidingIsForOwnAnswers(rows: Rows, ev: Event, i: ItemId)
    requires i < |rows.contents| && rows.contents[i].item.Answer?
    ensures var plan, c := PlanOf(rows, ev.now, ev.req), rows.contents[i];
      (plan.Some? && Toggles(rows, plan.value, i))
      <==> c.author < |rows.profiles|
           && ev.req == ModerateAnswer(c.author, i, Some(!c.item.answer.isHiddenByModerator))
           && Permissions.AnswerShaped(rows, c.author, c.item.answer, c.author)
           && c.item.answer.site < |rows.sites| && rows.sites[c.item.answer.site].moderator == c.author
  {
  }

  /** Two users, a public site moderated by the first, and a published answer of the second. */
  const READABLE_ANSWER := Rows(
    [NewProfile(false, true), NewProfile(false, false)],
    [DefaultSite(true, 0)],
    {},
    [Content(0, map[], Question(QuestionRow(0, false))),
     Content(1, map[], Answer(NewAnswer(0, 0, Text("text", "tiptap", Some("text")), true, Anyone, 0)))],
    [], [])

  /** A moderator who can read an answer of someone else still cannot hide it. */
  lemma ModeratorIsRefused()
    ensures var rows, c := READABLE_ANSWER, READABLE_ANSWER.contents[1];
      && rows.sites[0].moderator == 0 && Permissions.AnswerShaped(rows, c.author, c.item.answer, 0)
      && Step(rows, Event(1, ModerateAnswer(0, 1, Some(true)))) == rows
  {
  }

  lemma HiddenApplied(rows: Rows, plan: Plan, i: ItemId)
    requires i < |rows.contents| && rows.contents[i].item.Answer? && Sound(rows, plan)
    ensures i < |Applied(rows, plan).contents| && Applied(rows, plan).contents[i].item.Answer?
    ensures IsHidden(Applied(rows, plan), i) == (IsHidden(rows, i) != Toggles(rows, plan, i))
  {
    if plan.row.EditItem? && plan.row.id == i {
      ItemLife.EditKeepsIdentity(rows.contents[plan.row.id], plan.row.edit);
    }
  }

  ghost predicate AlwaysModeratedByAnother(rows: Rows, log: seq<Event>, i: ItemId)
    requires i < |rows.contents| && rows.contents[i].item.Answer?
    decreases |log|
  {
    log == [] ||
    (ModeratedByAnother(rows, i) &&
     (var next := Step(rows, log[0]);
      i < |next.contents| && next.contents[i].item.Answer? && AlwaysModeratedByAnother(next, log[1..], i)))
  }

  /** While anyone but the author moderates the site, an answer is neither hidden nor shown again. */
  lemma {:induction false} ModeratorsCannotHide(rows: Rows, log: seq<Event>, i: ItemId)
    requires i < |rows.contents| && rows.contents[i].item.Answer? && AlwaysModeratedByAnother(rows, log, i)
    ensures IsHidden(Run(rows, log), i) == IsHidden(rows, i)
    decreases |log|
  {
    if log != [] {
      var plan := PlanOf(rows, log[0].now, log[0].req);
      if plan.Some? {
        HidingIsForOwnAnswers(rows, log[0], i);
        HiddenApplied(rows, plan.value, i);
      }
      ModeratorsCannotHide(Step(rows, log[0]), log[1..], i);
    }
  }

  // ---- moderators

  predicate ModeratorsAreUsers(rows: Rows) {
    forall s :: 0 <= s < |rows.sites| ==> rows.sites[s].moderator < |rows.profiles|
  }

  lemma ModeratorsApplied(rows: Rows, plan: Plan)
    requires ModeratorsAreUsers(rows) && Sound(rows, plan)
    ensures ModeratorsAreUsers(Applied(rows, plan))
  {
  }

  /** Over every run every site is moderated by an existing user. */
  lemma {:induction false} ModeratorsRun(rows: Rows, log: seq<Event>)
    requires ModeratorsAreUsers(rows)
    ensures ModeratorsAreUsers(Run(rows, log))
    decreases |log|
  {
    if log != [] {
      var plan := PlanOf(rows, log[0].now, log[0].req);
      if plan.Some? {
        ModeratorsApplied(rows, plan.value);
      }
      ModeratorsRun(Step(rows, log[0]), log[1..]);
    }
  }

  lemma ModeratorsInReach(log: seq<Event>)
    ensures ModeratorsAreUsers(Run(EMPTY, log))
  {
    ModeratorsRun(EMPTY, log);
  }

  predicate HandsOver(rows: Rows, plan: Plan, s: SiteId)
    requires s < |rows.sites|
  {
    plan.row.HandOver? && plan.row.at == s && plan.row.moderator != rows.sites[s].moderator
  }

  lemma HandOverApplied(rows: Rows, plan: Plan, s: SiteId)
    requires s < |rows.sites| && Sound(rows, plan)
    ensures s < |Applied(rows, plan).sites|
    ensures Applied(rows, plan).sites[s].moderator != rows.sites[s].moderator <==> HandsOver(rows, plan, s)
  {
  }

  predicate AsksToHandOver(rows: Rows, req: Request, s: SiteId)
    requires s < |rows.sites|
  {
    && req.HandOverSite? && req.site == s && req.p == rows.sites[s].moderator < |rows.profiles|
    && req.moderator < |rows.profiles| && req.moderator != req.p
  }

  lemma HandOverPlanned(rows: Rows, ev: Event, s: SiteId)
    requires s < |rows.sites|
    ensures var plan := PlanOf(rows, ev.now, ev.req);
      (plan.Some? && HandsOver(rows, plan.value, s)) <==> AsksToHandOver(rows, ev.req, s)
  {
  }

  /** A request changes who moderates a site exactly when the moderator hands it to another user. */
  lemma OnlyModeratorHandsOver(rows: Rows, ev: Event, s: SiteId)
    requires s < |rows.sites|
    ensures s < |Step(rows, ev).sites|
    ensures Step(rows, ev).sites[s].moderator != rows.sites[s].moderator <==> AsksToHandOver(rows, ev.req, s)
  {
    HandOverPlanned(rows, ev, s);
    var plan := PlanOf(rows, ev.now, ev.req);
    if plan.Some? {
      HandOverApplied(rows, plan.value, s);
    }
  }

  // ---- votes

  /** A vote table in any reachable state is the tally of the standing-changing votes, so its count
      is the number of voters whose last such action was an upvote; authors never appear in it. */
  lemma VotesAreLastActions(log: seq<Event>, i: ItemId)
    requires i < |Run(EMPTY, log).contents|
    ensures var c, ballots := Run(EMPTY, log).contents[i], ItemLife.Ballots(Life(EMPTY, log, i).1);
      && c.votes == ItemLife.Tally(ballots)
      && Active(c.votes) == (set v | v in c.votes && ItemLife.LastWasUp(ballots, v))
      && c.author !in c.votes
  {
    EveryItemReplays(EMPTY, log, i);
    var (c, es) := Life(EMPTY, log, i);
    ItemLife.VotesOfRun(c, es);
    AuthorStaysOut(c, es);
    IdentityOfRun(c, es);
    forall v
      ensures v in Active(ItemLife.Tally(ItemLife.Ballots(es))) <==> ItemLife.LastWasUp(ItemLife.Ballots(es), v)
    {
      ItemLife.StandingVotes(ItemLife.Ballots(es), v);
    }
  }

  lemma {:induction false} AuthorStaysOut(c: Content, es: seq<ItemLife.Edit>)
    requires ItemLife.Fitting(c, es) && c.author !in c.votes
    ensures c.author !in ItemLife.Replay(c, es).votes
    decreases es
  {
    if es != [] {
      AuthorStaysOut(ItemLife.Apply(c, es[0]), es[1..]);
    }
  }
}
