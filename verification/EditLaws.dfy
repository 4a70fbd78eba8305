/** What each accepted request does to content, column by column and in the request's own terms, and
    who may make it. */
module EditLaws {
  import opened Basics
  import opened Model
  import opened Requests
  import AnswerLife
  import ArticleLife
  import CommentUpdate
  import ItemLife
  import Permissions

  /** Content other than item `i` is as before. */
  ghost predicate OnlyItem(rows: Rows, after: Rows, i: ItemId) {
    && |after.contents| == |rows.contents|
    && (forall j :: 0 <= j < |rows.contents| && j != i ==> after.contents[j] == rows.contents[j])
    && after.profiles == rows.profiles && after.sites == rows.sites && after.members == rows.members
  }

  ghost predicate OnlyAnswer(rows: Rows, after: Rows, i: ItemId)
    requires i < |rows.contents|
  {
    OnlyItem(rows, after, i) && after.contents[i].item.Answer?
    && after.contents[i].author == rows.contents[i].author && after.contents[i].votes == rows.contents[i].votes
  }

  ghost predicate OnlyArticle(rows: Rows, after: Rows, i: ItemId)
    requires i < |rows.contents|
  {
    OnlyItem(rows, after, i) && after.contents[i].item.Article?
    && after.contents[i].author == rows.contents[i].author && after.contents[i].votes == rows.contents[i].votes
  }

  // ---- drafting and publishing

  /** `b` is `a` with a draft saved: what the public sees does not change. */
  predicate Drafted(a: AnswerRow, b: AnswerRow, text: Text) {
    && b.bodyDraft == Some(text.source)
    && b.body == a.body && b.rendered == a.rendered && b.editor == a.editor
    && b.archives == a.archives && b.isPublished == a.isPublished && b.updatedAt == a.updatedAt
    && AnswerLife.PublishedLog(b) == AnswerLife.PublishedLog(a)
  }

  /** `b` is `a` with `content` published at `now`, or, without content, the standing text. */
  predicate NewlyPublished(a: AnswerRow, b: AnswerRow, content: Option<Text>, now: int) {
    && b.isPublished && b.updatedAt == now && b.bodyDraft == None
    && b.body == (if content.Some? then content.value.source else a.body)
    && Some(b.rendered) == (if content.Some? then content.value.rendered else Some(a.rendered))
    && b.editor == (if content.Some? then content.value.editor else a.editor)
    && b.archives == a.archives + (if a.isPublished then [Archive("", a.body, a.editor, a.updatedAt)] else [])
    && AnswerLife.PublishedLog(b) == AnswerLife.PublishedLog(a) + [b.body]
  }

  /** What no text edit touches. */
  predicate SameStanding(a: AnswerRow, b: AnswerRow) {
    && b.site == a.site && b.question == a.question && b.isDeleted == a.isDeleted
    && b.isHiddenByModerator == a.isHiddenByModerator
  }

  /** Updating an answer: a draft with content only sets the draft; anything else publishes. Either
      way the request's visibility is taken, and only the author gets this far. */
  lemma UpdateAnswerStep(rows: Rows, now: int, p: UserId, i: ItemId, isDraft: bool, content: Option<Text>,
                         visibility: Visibility)
    requires i < |rows.contents| && rows.contents[i].item.Answer?
    requires Granted(rows, Event(now, UpdateAnswer(p, i, isDraft, content, visibility)))
    ensures var after := Step(rows, Event(now, UpdateAnswer(p, i, isDraft, content, visibility)));
      && p == rows.contents[i].author
      && OnlyAnswer(rows, after, i)
      && var a, b := rows.contents[i].item.answer, after.contents[i].item.answer;
         && SameStanding(a, b) && b.contributors == a.contributors && b.edits == a.edits
         && b.visibility == visibility
         && if isDraft && content.Some? then Drafted(a, b, content.value) else NewlyPublished(a, b, content, now)
  {
    var a := rows.contents[i].item.answer;
    if !(isDraft && content.Some?) {
      AnswerLife.LogStep(a, AnswerLife.Publish(content, visibility, now));
    }
  }

  predicate ArticleDrafted(a: ArticleRow, b: ArticleRow, title: string, text: Text) {
    && b.titleDraft == Some(title) && b.bodyDraft == Some(text.source)
    && b.title == a.title && b.body == a.body && b.rendered == a.rendered && b.editor == a.editor
    && b.archives == a.archives && b.isPublished == a.isPublished && b.updatedAt == a.updatedAt
    && ArticleLife.PublishedLog(b) == ArticleLife.PublishedLog(a)
  }

  predicate ArticleNewlyPublished(a: ArticleRow, b: ArticleRow, title: string, text: Text, now: int) {
    && b.isPublished && b.updatedAt == Some(now) && b.titleDraft == None && b.bodyDraft == None
    && b.title == title && b.body == text.source && b.rendered == text.rendered && b.editor == a.editor
    && (a.isPublished ==>
          a.updatedAt.Some? && b.archives == a.archives + [Archive(a.title, a.body, a.editor, a.updatedAt.value)])
    && (!a.isPublished ==> b.archives == a.archives)
    && ArticleLife.PublishedLog(b) == ArticleLife.PublishedLog(a) + [(title, text.source)]
  }

  /** Updating an article: a draft only sets the drafts; anything else publishes. */
  lemma UpdateArticleStep(rows: Rows, now: int, p: UserId, i: ItemId, isDraft: bool, title: string, text: Text,
                          visibility: Visibility)
    requires i < |rows.contents| && rows.contents[i].item.Article?
    requires Granted(rows, Event(now, UpdateArticle(p, i, isDraft, title, text, visibility)))
    ensures var after := Step(rows, Event(now, UpdateArticle(p, i, isDraft, title, text, visibility)));
      && p == rows.contents[i].author
      && OnlyArticle(rows, after, i)
      && var a, b := rows.contents[i].item.article, after.contents[i].item.article;
         && b.isDeleted == a.isDeleted && b.visibility == visibility
         && if isDraft then ArticleDrafted(a, b, title, text) else ArticleNewlyPublished(a, b, title, text, now)
  {
    var a := rows.contents[i].item.article;
    if !isDraft {
      ArticleLife.LogStep(a, ArticleLife.Publish(title, text, visibility, now));
    }
  }

  /** Dropping a draft clears the draft and touches nothing else; only the author can. */
  lemma DeleteDraftStep(rows: Rows, now: int, p: UserId, i: ItemId)
    requires i < |rows.contents| && Granted(rows, Event(now, DeleteDraft(p, i)))
    ensures var c, after := rows.contents[i], Step(rows, Event(now, DeleteDraft(p, i)));
      && p == c.author && OnlyItem(rows, after, i)
      && (c.item.Answer? ==>
            c.item.answer.bodyDraft.Some? && c.item.answer.bodyDraft != Some("")
            && after.contents[i] == c.(item := Answer(c.item.answer.(bodyDraft := None))))
      && (c.item.Article? ==>
            after.contents[i] == c.(item := Article(c.item.article.(titleDraft := None, bodyDraft := None))))
      && (c.item.Answer? || c.item.Article?)
  {
  }

  // ---- suggestions: who decides

  /** Whatever is requested: a suggestion changes only by a request that names it and its new status;
      acceptance and rejection come from the answer's author, retraction and reopening from the
      author of the suggestion. */
  lemma WhoDecidesSuggestions(rows: Rows, ev: Event, i: ItemId, k: nat)
    requires i < |rows.contents| && rows.contents[i].item.Answer? && k < |rows.contents[i].item.answer.edits|
    ensures i < |Step(rows, ev).contents| && Step(rows, ev).contents[i].item.Answer?
    ensures k < |Step(rows, ev).contents[i].item.answer.edits|
    ensures var c, s, t := rows.contents[i], rows.contents[i].item.answer.edits[k],
                           Step(rows, ev).contents[i].item.answer.edits[k];
      t != s ==>
        && ev.req.UpdateSuggestEdit? && ev.req == UpdateSuggestEdit(ev.req.p, i, k, t.status)
        && (t.status.Accepted? || t.status.Rejected? ==> ev.req.p == c.author)
        && (t.status.Retracted? || t.status.Pending? ==> ev.req.p == s.author)
  {
    var plan := PlanOf(rows, ev.now, ev.req);
    if plan.Some? {
      SuggestionTouched(rows, plan.value, i, k);
      DecisionPlanned(rows, ev, i, k);
    }
  }

  /** The plan changes suggestion `k` of answer `i`. */
  predicate Decides(plan: Plan, i: ItemId, k: nat) {
    plan.row.EditItem? && plan.row.id == i && plan.row.edit.OnAnswer? &&
    var e := plan.row.edit.answerEdit;
    (e.Accept? || e.Reject? || e.Retract? || e.Reopen?) && e.k == k
  }

  function DecidedStatus(plan: Plan, i: ItemId, k: nat): Status
    requires Decides(plan, i, k)
  {
    match plan.row.edit.answerEdit
    case Accept(_, _) => Accepted
    case Reject(_, _) => Rejected
    case Retract(_, _) => Retracted
    case Reopen(_) => Pending
  }

  lemma SuggestionEdited(a: AnswerRow, e: AnswerLife.Edit, k: nat)
    requires AnswerLife.InRange(a, e) && k < |a.edits|
    ensures k < |AnswerLife.Apply(a, e).edits|
    ensures var s, t, decides := a.edits[k], AnswerLife.Apply(a, e).edits[k],
                                 (e.Accept? || e.Reject? || e.Retract? || e.Reopen?) && e.k == k;
      && (!decides ==> t == s)
      && (decides ==> t.status == if e.Accept? then Accepted else if e.Reject? then Rejected
                                  else if e.Retract? then Retracted else Pending)
  {
  }

  lemma SuggestionTouched(rows: Rows, plan: Plan, i: ItemId, k: nat)
    requires Sound(rows, plan)
    requires i < |rows.contents| && rows.contents[i].item.Answer? && k < |rows.contents[i].item.answer.edits|
    ensures i < |Applied(rows, plan).contents| && Applied(rows, plan).contents[i].item.Answer?
    ensures k < |Applied(rows, plan).contents[i].item.answer.edits|
    ensures var s, t := rows.contents[i].item.answer.edits[k], Applied(rows, plan).contents[i].item.answer.edits[k];
      && (t != s ==> Decides(plan, i, k))
      && (Decides(plan, i, k) ==> t.status == DecidedStatus(plan, i, k))
  {
    if plan.row.EditItem? && plan.row.id == i {
      if plan.row.edit.OnAnswer? {
        SuggestionEdited(rows.contents[i].item.answer, plan.row.edit.answerEdit, k);
      } else {
        assert ItemLife.Apply(rows.contents[i], plan.row.edit).item == rows.contents[i].item;
      }
    }
  }

  lemma OnlyUpdatesDecide(rows: Rows, ev: Event, i: ItemId, k: nat)
    requires i < |rows.contents|
    ensures var plan := PlanOf(rows, ev.now, ev.req);
      plan.Some? && Decides(plan.value, i, k) ==>
        && ev.req.UpdateSuggestEdit? && ev.req.id == i && ev.req.p < |rows.profiles|
        && plan == PlanUpdateSuggestEdit(rows, ev.now, ev.req.p, i, ev.req.k, ev.req.status)
  {
  }

  lemma DecisionIsEntitled(rows: Rows, now: int, p: UserId, i: ItemId, j: nat, status: Status, k: nat)
    requires i < |rows.contents|
    ensures var plan := PlanUpdateSuggestEdit(rows, now, p, i, j, status);
      plan.Some? && Decides(plan.value, i, k) ==>
        && rows.contents[i].item.Answer? && k < |rows.contents[i].item.answer.edits|
        && j == k && status == DecidedStatus(plan.value, i, k)
        && (status.Accepted? || status.Rejected? ==> p == rows.contents[i].author)
        && (status.Retracted? || status.Pending? ==> p == rows.contents[i].item.answer.edits[k].author)
  {
  }

  lemma DecisionPlanned(rows: Rows, ev: Event, i: ItemId, k: nat)
    requires i < |rows.contents| && rows.contents[i].item.Answer? && k < |rows.contents[i].item.answer.edits|
    ensures var c, plan := rows.contents[i], PlanOf(rows, ev.now, ev.req);
      plan.Some? && Decides(plan.value, i, k) ==>
        var status := DecidedStatus(plan.value, i, k);
        && ev.req.UpdateSuggestEdit? && ev.req == UpdateSuggestEdit(ev.req.p, i, k, status)
        && (status.Accepted? || status.Rejected? ==> ev.req.p == c.author)
        && (status.Retracted? || status.Pending? ==> ev.req.p == c.item.answer.edits[k].author)
  {
    OnlyUpdatesDecide(rows, ev, i, k);
    if ev.req.UpdateSuggestEdit? {
      DecisionIsEntitled(rows, ev.now, ev.req.p, i, ev.req.k, ev.req.status, k);
    }
  }

  /** Who may bring a suggestion of answer `c` from status `s` to `t`. */
  predicate Entitled(c: Content, k: nat, p: UserId, t: Status)
    requires c.item.Answer? && k < |c.item.answer.edits|
  {
    var s := c.item.answer.edits[k];
    match t
    case Accepted => p == c.author && (s.status.Pending? || s.status.Rejected?)
    case Rejected => p == c.author && (s.status.Pending? || s.status.Rejected?)
    case Retracted => p == s.author && (s.status.Pending? || s.status.Rejected?)
    case Pending => p == s.author && s.status.Retracted?
  }

  lemma EntitledPlan(rows: Rows, now: int, p: UserId, i: ItemId, k: nat, status: Status)
    requires i < |rows.contents| && rows.contents[i].item.Answer? && k < |rows.contents[i].item.answer.edits|
    requires Entitled(rows.contents[i], k, p, status)
    requires var c := rows.contents[i];
      && Permissions.UserInSite(rows, c.item.answer.site, Some(p), Permissions.WriteSiteAnswer)
      && Permissions.AnswerShaped(rows, c.author, c.item.answer, p)
      && c.item.answer.edits[k].text.source != ""
      && (status.Accepted? ==> c.item.answer.edits[k].text.rendered.Some?)
    ensures var a, plan := rows.contents[i].item.answer, PlanUpdateSuggestEdit(rows, now, p, i, k, status);
      && plan.Some? && Decides(plan.value, i, k) && DecidedStatus(plan.value, i, k) == status
      && AnswerLife.InRange(a, plan.value.row.edit.answerEdit)
      && (status.Accepted? ==> AnswerLife.Apply(a, plan.value.row.edit.answerEdit).body == a.edits[k].text.source)
  {
  }

  /** Conversely, whoever is entitled, may write in the site and can be shown the answer gets the
      status asked for; acceptance also needs a rendered text. */
  lemma EntitledRequestsSucceed(rows: Rows, now: int, p: UserId, i: ItemId, k: nat, status: Status)
    requires i < |rows.contents| && rows.contents[i].item.Answer? && k < |rows.contents[i].item.answer.edits|
    requires p < |rows.profiles| && rows.contents[i].author < |rows.profiles|
    requires Entitled(rows.contents[i], k, p, status)
    requires var c := rows.contents[i];
      && Permissions.UserInSite(rows, c.item.answer.site, Some(p), Permissions.WriteSiteAnswer)
      && Permissions.AnswerShaped(rows, c.author, c.item.answer, p)
      && c.item.answer.edits[k].text.source != ""
      && (status.Accepted? ==> c.item.answer.edits[k].text.rendered.Some?)
    ensures var after := Step(rows, Event(now, UpdateSuggestEdit(p, i, k, status)));
      && i < |after.contents| && after.contents[i].item.Answer? && k < |after.contents[i].item.answer.edits|
      && after.contents[i].item.answer.edits[k].status == status
      && (status.Accepted? ==> after.contents[i].item.answer.body == rows.contents[i].item.answer.edits[k].text.source)
  {
    EntitledPlan(rows, now, p, i, k, status);
    var plan := PlanUpdateSuggestEdit(rows, now, p, i, k, status);
    assert PlanOf(rows, now, UpdateSuggestEdit(p, i, k, status)) == plan;
    SuggestionTouched(rows, plan.value, i, k);
  }

  /** A new suggestion is the requester's, pending, with the text sent, and nothing else changes. */
  lemma SuggestStep(rows: Rows, now: int, p: UserId, i: ItemId, text: Text)
    requires i < |rows.contents| && rows.contents[i].item.Answer?
    requires Granted(rows, Event(now, CreateSuggestEdit(p, i, text)))
    ensures var a, after := rows.contents[i].item.answer, Step(rows, Event(now, CreateSuggestEdit(p, i, text)));
      && OnlyAnswer(rows, after, i)
      && after.contents[i].item.answer
         == a.(edits := a.edits + [SuggestEdit(p, text, Pending, None, None, None, None)])
  {
  }

  /** A moderator's update sets the hidden flag to what it says, if it says anything, and nothing else. */
  lemma ModerateStep(rows: Rows, now: int, p: UserId, i: ItemId, hidden: Option<bool>)
    requires i < |rows.contents| && rows.contents[i].item.Answer?
    requires Granted(rows, Event(now, ModerateAnswer(p, i, hidden)))
    ensures var a, after := rows.contents[i].item.answer, Step(rows, Event(now, ModerateAnswer(p, i, hidden)));
      && OnlyAnswer(rows, after, i)
      && after.contents[i].item.answer
         == a.(isHiddenByModerator := if hidden.Some? then hidden.value else a.isHiddenByModerator)
  {
  }

  /** Updating a comment sets the time and, if asked to share it, the sharing flag, and nothing else. */
  lemma UpdateCommentStep(rows: Rows, now: int, p: UserId, i: ItemId, content: Option<Text>, shared: bool,
                          mentioned: Option<seq<string>>)
    requires i < |rows.contents| && rows.contents[i].item.Comment?
    requires Granted(rows, Event(now, UpdateComment(p, i, content, shared, mentioned)))
    ensures var c, after := rows.contents[i], Step(rows, Event(now, UpdateComment(p, i, content, shared, mentioned)));
      && OnlyItem(rows, after, i)
      && after.contents[i]
         == c.(item := Comment(c.item.comment.(shared := c.item.comment.shared || shared, updatedAt := now)))
  {
    CommentUpdate.RequestStoresNoText(rows.contents[i].item.comment, content, shared, mentioned, now);
  }

  // ---- deletion and hiding

  predicate IsDeleted(c: Content) {
    || (c.item.Answer? && c.item.answer.isDeleted) || (c.item.Article? && c.item.article.isDeleted)
    || (c.item.Comment? && c.item.comment.isDeleted)
  }

  predicate IsHidden(c: Content) {
    (c.item.Question? && c.item.question.isHidden) || (c.item.Submission? && c.item.submission.isHidden)
  }

  lemma WithdrawalPlanned(rows: Rows, plan: Plan, i: ItemId)
    requires Sound(rows, plan) && i < |rows.contents|
    ensures i < |Applied(rows, plan).contents|
    ensures var c, d := rows.contents[i], Applied(rows, plan).contents[i];
      && (IsDeleted(c) ==> IsDeleted(d)) && (IsHidden(c) ==> IsHidden(d))
      && (!IsDeleted(c) && IsDeleted(d) ==> Erases(plan, i))
      && (!IsHidden(c) && IsHidden(d) ==> Hides(plan, i))
  {
    if plan.row.EditItem? && plan.row.id == i && plan.row.edit.Revise? {
      var e := plan.row.edit;
      CommentKept(rows.contents[i], e);
    }
  }

  lemma CommentKept(c: Content, e: ItemLife.Edit)
    requires ItemLife.Fits(c, e) && e.Revise?
    ensures ItemLife.Apply(c, e).item.Comment?
    ensures ItemLife.Apply(c, e).item.comment.isDeleted == c.item.comment.isDeleted
  {
    ItemLife.EditKeepsIdentity(c, e);
  }

  predicate Erases(plan: Plan, i: ItemId) {
    plan.row.EditItem? && plan.row.id == i &&
    var e := plan.row.edit;
    || (e.OnAnswer? && e.answerEdit.Erase?) || (e.OnArticle? && e.articleEdit.Erase?) || e.EraseComment?
  }

  predicate Hides(plan: Plan, i: ItemId) {
    plan.row == EditItem(i, ItemLife.Hide)
  }

  lemma WithdrawalAsked(rows: Rows, ev: Event, i: ItemId)
    requires i < |rows.contents|
    ensures var c, plan := rows.contents[i], PlanOf(rows, ev.now, ev.req);
      && (plan.Some? && Erases(plan.value, i) ==> ev.req == DeleteItem(c.author, i))
      && (plan.Some? && Hides(plan.value, i) ==>
            && ev.req.HideItem? && ev.req.id == i
            && var s := if c.item.Question? then c.item.question.site
                        else if c.item.Submission? then c.item.submission.site else |rows.sites|;
               s < |rows.sites| && (ev.req.p == c.author || ev.req.p == rows.sites[s].moderator))
  {
  }

  /** Whatever is requested: nothing comes back from deletion or hiding; an item is deleted only by its
      author asking for it, and a question or submission hidden only by its author or the site's
      moderator asking for it. */
  lemma WhoWithdraws(rows: Rows, ev: Event, i: ItemId)
    requires i < |rows.contents|
    ensures i < |Step(rows, ev).contents|
    ensures var c, d := rows.contents[i], Step(rows, ev).contents[i];
      && (IsDeleted(c) ==> IsDeleted(d)) && (IsHidden(c) ==> IsHidden(d))
      && (!IsDeleted(c) && IsDeleted(d) ==> ev.req == DeleteItem(c.author, i))
      && (!IsHidden(c) && IsHidden(d) ==>
            && ev.req.HideItem? && ev.req.id == i
            && var s := if c.item.Question? then c.item.question.site
                        else if c.item.Submission? then c.item.submission.site else |rows.sites|;
               s < |rows.sites| && (ev.req.p == c.author || ev.req.p == rows.sites[s].moderator))
  {
    var plan := PlanOf(rows, ev.now, ev.req);
    if plan.Some? {
      WithdrawalPlanned(rows, plan.value, i);
      WithdrawalAsked(rows, ev, i);
    }
  }

  ghost predicate BodiesRead(archives: seq<Archive>, before: seq<Archive>, body: string) {
    && |archives| == |before|
    && forall k :: 0 <= k < |archives| ==> archives[k] == before[k].(body := body)
  }

  /** What the columns of a deleted item read. */
  ghost predicate ReadsDeleted(c: Content, d: Content) {
    && d.author == c.author && d.votes == c.votes
    && (c.item.Answer? ==>
          && d.item.Answer? && BodiesRead(d.item.answer.archives, c.item.answer.archives, "[DELETED]")
          && d.item.answer
             == c.item.answer.(isDeleted := true, body := "[DELETED]", bodyDraft := Some("[DELETED]"),
                               rendered := "[DELETED]", archives := d.item.answer.archives))
    && (c.item.Article? ==>
          && d.item.Article? && BodiesRead(d.item.article.archives, c.item.article.archives, "[DELETED]")
          && d.item.article
             == c.item.article.(isDeleted := true, body := "[DELETED]", bodyDraft := Some("[DELETED]"),
                                archives := d.item.article.archives))
    && (c.item.Comment? ==>
          d.item == Comment(c.item.comment.(isDeleted := true, body := "[DELETED]", rendered := "[DELETED]")))
    && (c.item.Question? || c.item.Submission? ==> d == c)
  }

  /** The author's deletion is always carried out, and this is all of it; there is no deleting a
      question or a submission. */
  lemma DeleteStep(rows: Rows, now: int, i: ItemId)
    requires i < |rows.contents| && rows.contents[i].author < |rows.profiles|
    ensures var after := Step(rows, Event(now, DeleteItem(rows.contents[i].author, i)));
      && OnlyItem(rows, after, i) && after.book == rows.book && after.payouts == rows.payouts
      && ReadsDeleted(rows.contents[i], after.contents[i])
  {
  }

  /** Hiding sets the flag and nothing else. */
  lemma HideStep(rows: Rows, now: int, p: UserId, i: ItemId)
    requires i < |rows.contents| && Granted(rows, Event(now, HideItem(p, i)))
    ensures var c, after := rows.contents[i], Step(rows, Event(now, HideItem(p, i)));
      && OnlyItem(rows, after, i)
      && (c.item.Question? || c.item.Submission?)
      && (c.item.Question? ==> after.contents[i] == c.(item := Question(c.item.question.(isHidden := true))))
      && (c.item.Submission? ==> after.contents[i] == c.(item := Submission(c.item.submission.(isHidden := true))))
  {
  }

  // ---- new items

  ghost predicate Adds(rows: Rows, after: Rows, c: Content) {
    && after.contents == rows.contents + [c]
    && after.profiles == rows.profiles && after.sites == rows.sites && after.members == rows.members
  }

  /** A new answer carries what the request says. */
  lemma CreateAnswerStep(rows: Rows, now: int, p: UserId, q: ItemId, text: Text, publish: bool, visibility: Visibility)
    requires Granted(rows, Event(now, CreateAnswer(p, q, text, publish, visibility)))
    ensures Permissions.IsQuestion(rows, q) && text.rendered.Some?
    ensures var after := Step(rows, Event(now, CreateAnswer(p, q, text, publish, visibility)));
      |after.contents| == |rows.contents| + 1 &&
      var c := after.contents[|rows.contents|];
      && Adds(rows, after, c) && c.author == p && c.votes == map[] && c.item.Answer?
      && var a := c.item.answer;
         && a.question == q && a.site == rows.contents[q].item.question.site
         && a.body == text.source && Some(a.rendered) == text.rendered && a.editor == text.editor
         && a.isPublished == publish && a.visibility == visibility && a.updatedAt == now
         && !a.isDeleted && !a.isHiddenByModerator && a.bodyDraft == None
         && a.archives == [] && a.contributors == [] && a.edits == []
  {
  }

  lemma CreateArticleStep(rows: Rows, now: int, p: UserId, columnOwner: Option<UserId>, title: string, text: Text,
                          publish: bool, visibility: Visibility)
    requires Granted(rows, Event(now, CreateArticle(p, columnOwner, title, text, publish, visibility)))
    ensures columnOwner == Some(p)
    ensures var after := Step(rows, Event(now, CreateArticle(p, columnOwner, title, text, publish, visibility)));
      |after.contents| == |rows.contents| + 1 &&
      var c := after.contents[|rows.contents|];
      && Adds(rows, after, c) && c.author == p && c.votes == map[] && c.item.Article?
      && var a := c.item.article;
         && a.title == title && a.body == text.source && a.rendered == text.rendered && a.editor == text.editor
         && a.isPublished == publish && a.visibility == visibility
         && a.updatedAt == (if publish then Some(now) else None)
         && !a.isDeleted && a.titleDraft == None && a.bodyDraft == None && a.archives == []
  {
  }

  lemma CreateQuestionStep(rows: Rows, now: int, p: UserId, s: SiteId)
    requires Granted(rows, Event(now, CreateQuestion(p, s)))
    ensures Adds(rows, Step(rows, Event(now, CreateQuestion(p, s))), Content(p, map[], Question(QuestionRow(s, false))))
  {
  }

  lemma CreateSubmissionStep(rows: Rows, now: int, p: UserId, s: SiteId)
    requires Granted(rows, Event(now, CreateSubmission(p, s)))
    ensures Adds(rows, Step(rows, Event(now, CreateSubmission(p, s))),
                 Content(p, map[], Submission(SubmissionRow(s, false))))
  {
  }

  /** The item a uuid names, if it names one. */
  function Named(u: Option<Uuid>): Option<ItemId> {
    if u.Some? && u.value.Of? then Some(u.value.id) else None
  }

  lemma PlacedAsNamed(rows: Rows, now: int, p: UserId, u: ParentUuids, text: Text, shared: bool)
    ensures ParentsGiven(u) == 1 <==> OnlyOneGiven(u)
    ensures ParentsGiven(u) == 1 && text.rendered.Some? ==>
      var placed := PlacedComment(rows, now, p, u, text, shared);
      placed.Some? ==>
        var m := placed.value;
        && m.questionId == Named(u.question) && m.submissionId == Named(u.submission)
        && m.answerId == Named(u.answer) && m.articleId == Named(u.article)
        && m.parentCommentId == Named(u.comment)
        && m.body == text.source && Some(m.rendered) == text.rendered && m.editor == text.editor
        && m.shared == shared && m.updatedAt == now && !m.isDeleted
  {
  }

  /** A new comment carries the text sent and hangs on exactly what the request names, in that item's
      site; a request that gives more or fewer than one uuid is refused. */
  lemma CreateCommentStep(rows: Rows, now: int, p: UserId, u: ParentUuids, text: Text, shared: bool)
    requires Granted(rows, Event(now, CreateComment(p, u, text, shared)))
    ensures OnlyOneGiven(u) && text.rendered.Some?
    ensures var after := Step(rows, Event(now, CreateComment(p, u, text, shared)));
      |after.contents| == |rows.contents| + 1 &&
      var c := after.contents[|rows.contents|];
      && Adds(rows, after, c) && c.author == p && c.votes == map[] && c.item.Comment?
      && var m := c.item.comment;
         && m.questionId == Named(u.question) && m.submissionId == Named(u.submission)
         && m.answerId == Named(u.answer) && m.articleId == Named(u.article)
         && m.parentCommentId == Named(u.comment)
         && m.body == text.source && Some(m.rendered) == text.rendered && m.editor == text.editor
         && m.shared == shared && m.updatedAt == now && !m.isDeleted
  {
    PlacedAsNamed(rows, now, p, u, text, shared);
    assert PlanOf(rows, now, CreateComment(p, u, text, shared)) == PlanCreateComment(rows, now, p, u, text, shared);
  }

  /** Of the five uuids exactly one is given. */
  predicate OnlyOneGiven(u: ParentUuids) {
    || (u.question.Some? && u.submission.None? && u.answer.None? && u.article.None? && u.comment.None?)
    || (u.question.None? && u.submission.Some? && u.answer.None? && u.article.None? && u.comment.None?)
    || (u.question.None? && u.submission.None? && u.answer.Some? && u.article.None? && u.comment.None?)
    || (u.question.None? && u.submission.None? && u.answer.None? && u.article.Some? && u.comment.None?)
    || (u.question.None? && u.submission.None? && u.answer.None? && u.article.None? && u.comment.Some?)
  }
}
