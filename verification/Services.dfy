/** The service layer, step by step as the program runs it, each service held to its plan in module
    Requests. A service that gives up returns `false` and may leave the session half changed: the
    request boundary undoes that. */
module Services {
  import opened Basics
  import opened Model
  import opened Permissions
  import opened Requests
  import opened Columns
  import opened Database
  import AnswerLife
  import CommentUpdate
  import Money
  import Rules

  /** The service did what its plan says: it succeeded exactly when there is a plan, and then the
      rows are the planned ones and every cached column is in step. */
  predicate Carried(s: Session, before: Rows, plan: Option<Plan>, ok: bool)
    reads s
    requires plan.Some? ==> Sound(before, plan.value)
  {
    ok == plan.Some? && (ok ==> InStep(s.Live()) && s.rows == Applied(before, plan.value))
  }

  // ---- votes

  /** First-time voters pay the author. */
  method PayForVote(s: Session, p: UserId, id: ItemId, price: int, votedBefore: bool)
    requires InStep(s.Live()) && p < |s.rows.profiles| && id < |s.rows.contents|
    modifies s
    ensures InStep(s.Live())
    ensures s.rows == if votedBefore then old(s.rows) else
      old(s.rows).(book := old(s.rows).book + [Payment(p, old(s.rows).contents[id].author, price, UpvoteOf(p, id))])
    ensures s.stored == old(s.stored)
  {
    if !votedBefore {
      s.MakePayment(p, s.rows.contents[id].author, price, UpvoteOf(p, id));
    }
  }

  /** The part of an upvote that all four paid kinds share, for a vote that is not standing. */
  method VoteAndPay(s: Session, p: UserId, id: ItemId, price: int) returns (ok: bool)
    requires InStep(s.Live()) && p < |s.rows.profiles| && id < |s.rows.contents|
    requires !HasActiveVote(s.rows.contents[id], p)
    modifies s
    ensures Carried(s, old(s.rows), PlanSiteVote(old(s.rows), p, id, price), ok)
    ensures s.stored == old(s.stored)
  {
    if p == s.rows.contents[id].author {
      return false;
    }
    if s.remainingCoins[p] < price {
      return false;
    }
    var votedBefore := p in s.rows.contents[id].votes;
    s.CastVote(id, p);
    PayForVote(s, p, id, price, votedBefore);
    ok := true;
  }

  method UpvoteAnswer(s: Session, p: UserId, id: ItemId) returns (ok: bool)
    requires InStep(s.Live()) && p < |s.rows.profiles| && id < |s.rows.contents|
    requires s.rows.contents[id].item.Answer?
    modifies s
    ensures Carried(s, old(s.rows), PlanUpvote(old(s.rows), p, id), ok)
    ensures s.stored == old(s.stored)
  {
    var a := s.rows.contents[id].item.answer;
    if HasActiveVote(s.rows.contents[id], p) {
      return true;
    }
    if a.site >= |s.rows.sites| || !IsQuestion(s.rows, a.question) {
      return false;
    }
    if !UserInSite(s.rows, SiteOfQuestion(s.rows, a.question), Some(p), ReadSite) {
      return false;
    }
    ok := VoteAndPay(s, p, id, s.rows.sites[a.site].upvoteAnswerCost);
  }

  method UpvoteQuestion(s: Session, p: UserId, id: ItemId) returns (ok: bool)
    requires InStep(s.Live()) && p < |s.rows.profiles| && id < |s.rows.contents|
    requires s.rows.contents[id].item.Question?
    modifies s
    ensures Carried(s, old(s.rows), PlanUpvote(old(s.rows), p, id), ok)
    ensures s.stored == old(s.stored)
  {
    var site := s.rows.contents[id].item.question.site;
    if !UserInSite(s.rows, site, Some(p), ReadSite) {
      return false;
    }
    if HasActiveVote(s.rows.contents[id], p) {
      return true;
    }
    ok := VoteAndPay(s, p, id, s.rows.sites[site].upvoteQuestionCost);
  }

  method UpvoteSubmission(s: Session, p: UserId, id: ItemId) returns (ok: bool)
    requires InStep(s.Live()) && p < |s.rows.profiles| && id < |s.rows.contents|
    requires s.rows.contents[id].item.Submission?
    modifies s
    ensures Carried(s, old(s.rows), PlanUpvote(old(s.rows), p, id), ok)
    ensures s.stored == old(s.stored)
  {
    var site := s.rows.contents[id].item.submission.site;
    if !UserInSite(s.rows, site, Some(p), ReadSite) {
      return false;
    }
    if HasActiveVote(s.rows.contents[id], p) {
      return true;
    }
    ok := VoteAndPay(s, p, id, s.rows.sites[site].upvoteSubmissionCost);
  }

  method UpvoteArticle(s: Session, p: UserId, id: ItemId) returns (ok: bool)
    requires InStep(s.Live()) && p < |s.rows.profiles| && id < |s.rows.contents|
    requires s.rows.contents[id].item.Article?
    modifies s
    ensures Carried(s, old(s.rows), PlanUpvote(old(s.rows), p, id), ok)
    ensures s.stored == old(s.stored)
  {
    if HasActiveVote(s.rows.contents[id], p) {
      return false;
    }
    ok := VoteAndPay(s, p, id, Rules.UPVOTE_ARTICLE_COST);
  }

  method UpvoteComment(s: Session, p: UserId, id: ItemId) returns (ok: bool)
    requires InStep(s.Live()) && p < |s.rows.profiles| && id < |s.rows.contents|
    requires s.rows.contents[id].item.Comment?
    modifies s
    ensures Carried(s, old(s.rows), PlanUpvote(old(s.rows), p, id), ok)
    ensures s.stored == old(s.stored)
  {
    var m := s.rows.contents[id].item.comment;
    if m.site.Some? && !UserInSite(s.rows, m.site.value, Some(p), ReadSite) {
      return false;
    }
    if !HasActiveVote(s.rows.contents[id], p) {
      if p == s.rows.contents[id].author {
        return false;
      }
      s.CastVote(id, p);
    }
    ok := true;
  }

  method CancelUpvote(s: Session, p: UserId, id: ItemId) returns (ok: bool)
    requires InStep(s.Live()) && id < |s.rows.contents|
    modifies s
    ensures Carried(s, old(s.rows), PlanCancelUpvote(old(s.rows), p, id), ok)
    ensures s.stored == old(s.stored)
  {
    var c := s.rows.contents[id];
    match c.item {
      case Answer(a) =>
        if HasActiveVote(c, p) &&
           (!IsQuestion(s.rows, a.question)
            || !UserInSite(s.rows, SiteOfQuestion(s.rows, a.question), Some(p), ReadSite)) {
          return false;
        }
      case Question(q) =>
        if !UserInSite(s.rows, q.site, Some(p), ReadSite) {
          return false;
        }
      case Submission(x) =>
        if !UserInSite(s.rows, x.site, Some(p), ReadSite) {
          return false;
        }
      case Article(_) =>
        if !HasActiveVote(c, p) {
          return false;
        }
      case Comment(m) =>
        if m.site.Some? && !UserInSite(s.rows, m.site.value, Some(p), ReadSite) {
          return false;
        }
    }
    if HasActiveVote(c, p) {
      s.CancelVote(id, p);
    }
    ok := true;
  }

  // ---- answers

  method CreateAnswer(s: Session, now: int, p: UserId, q: ItemId, text: Text, publish: bool,
                      visibility: Visibility) returns (ok: bool)
    requires InStep(s.Live()) && p < |s.rows.profiles|
    modifies s
    ensures Carried(s, old(s.rows), PlanCreateAnswer(old(s.rows), now, p, q, text, publish, visibility), ok)
    ensures s.stored == old(s.stored)
  {
    if !IsQuestion(s.rows, q) {
      return false;
    }
    var site := SiteOfQuestion(s.rows, q);
    if !UserInSite(s.rows, site, Some(p), WriteSiteAnswer) {
      return false;
    }
    if HasLiveAnswer(s.rows, p, q) {
      return false;
    }
    if text.rendered.None? {
      return false;
    }
    var a := NewAnswer(site, q, text, publish, visibility, now);
    var id := s.Create(Content(p, map[], Answer(a)));
    ok := AnswerShaped(s.rows, p, s.rows.contents[id].item.answer, p);
  }

  function Rewritten(rows: Rows, id: ItemId, a: AnswerRow): Rows
    requires id < |rows.contents|
  {
    rows.(contents := rows.contents[id := rows.contents[id].(item := Answer(a))])
  }

  lemma RewritingTwice(rows: Rows, id: ItemId, a: AnswerRow, b: AnswerRow)
    requires id < |rows.contents|
    ensures Rewritten(Rewritten(rows, id, a), id, b) == Rewritten(rows, id, b)
  {
    assert rows.contents[id := rows.contents[id].(item := Answer(a))][id := rows.contents[id].(item := Answer(b))]
        == rows.contents[id := rows.contents[id].(item := Answer(b))];
  }

  lemma RewritingKeepsQuestions(rows: Rows, id: ItemId, a: AnswerRow, author: UserId, b: AnswerRow, p: UserId)
    requires id < |rows.contents| && rows.contents[id].item.Answer?
    ensures AnswerShaped(Rewritten(rows, id, a), author, b, p) <==> AnswerShaped(rows, author, b, p)
  {
  }

  /** Store an answer row, then rebuild the payload, which fails, and with it the request, when the
      caller may not read the result. */
  method WriteAnswer(s: Session, p: UserId, id: ItemId, a: AnswerRow) returns (ok: bool)
    requires InStep(s.Live()) && id < |s.rows.contents| && s.rows.contents[id].item.Answer?
    modifies s
    ensures InStep(s.Live())
    ensures s.rows == Rewritten(old(s.rows), id, a)
    ensures ok == AnswerShaped(old(s.rows), old(s.rows).contents[id].author, a, p)
    ensures s.stored == old(s.stored)
  {
    RewritingKeepsQuestions(s.rows, id, a, s.rows.contents[id].author, a, p);
    s.Update(id, Answer(a));
    ok := AnswerShaped(s.rows, s.rows.contents[id].author, a, p);
  }

  /** Draft or publish: archive what was public and write the fields. */
  method ApplyAnswerUpdate(s: Session, now: int, p: UserId, id: ItemId, isDraft: bool, content: Option<Text>,
                           visibility: Visibility) returns (ok: bool)
    requires InStep(s.Live()) && id < |s.rows.contents| && s.rows.contents[id].item.Answer?
    modifies s
    ensures InStep(s.Live())
    ensures var e := UpdateOf(isDraft, content, visibility, now);
      if !AnswerLife.InRange(old(s.rows).contents[id].item.answer, e) then !ok else
        var a := AnswerLife.Apply(old(s.rows).contents[id].item.answer, e);
        && s.rows == Rewritten(old(s.rows), id, a)
        && ok == AnswerShaped(old(s.rows), old(s.rows).contents[id].author, a, p)
    ensures s.stored == old(s.stored)
  {
    var a := s.rows.contents[id].item.answer;
    if isDraft && content.Some? {
      a := a.(bodyDraft := Some(content.value.source));
    } else {
      if a.isPublished {
        var archive := Archive("", a.body, a.editor, a.updatedAt);
        a := a.(archives := a.archives + [archive]);
      }
      a := a.(isPublished := true, updatedAt := now);
      if content.Some? {
        if content.value.rendered.None? {
          return false;
        }
        a := a.(body := content.value.source, rendered := content.value.rendered.value);
        a := a.(editor := content.value.editor);
      }
      a := a.(bodyDraft := None);
    }
    a := a.(visibility := visibility);
    assert s.rows.contents[id].item.answer.isPublished ==> a.isPublished;
    ok := WriteAnswer(s, p, id, a);
  }

  method UpdateAnswer(s: Session, now: int, p: UserId, id: ItemId, isDraft: bool, content: Option<Text>,
                      visibility: Visibility) returns (ok: bool)
    requires InStep(s.Live()) && id < |s.rows.contents|
    modifies s
    ensures Carried(s, old(s.rows), PlanUpdateAnswer(old(s.rows), now, p, id, isDraft, content, visibility), ok)
    ensures s.stored == old(s.stored)
  {
    var c := s.rows.contents[id];
    if !c.item.Answer? {
      return false;
    }
    if c.author != p {
      return false;
    }
    if !IsQuestion(s.rows, c.item.answer.question) {
      return false;
    }
    if !UserInSite(s.rows, SiteOfQuestion(s.rows, c.item.answer.question), Some(p), WriteSiteAnswer) {
      return false;
    }
    ok := ApplyAnswerUpdate(s, now, p, id, isDraft, content, visibility);
  }

  method ModerateAnswer(s: Session, p: UserId, id: ItemId, hidden: Option<bool>) returns (ok: bool)
    requires InStep(s.Live()) && id < |s.rows.contents|
    modifies s
    ensures Carried(s, old(s.rows), PlanModerateAnswer(old(s.rows), p, id, hidden), ok)
    ensures s.stored == old(s.stored)
  {
    var c := s.rows.contents[id];
    if !c.item.Answer? || !AnswerShaped(s.rows, c.author, c.item.answer, p) {
      return false;
    }
    var a := c.item.answer;
    if a.site >= |s.rows.sites| || s.rows.sites[a.site].moderator != p {
      return false;
    }
    if hidden.Some? {
      a := a.(isHiddenByModerator := hidden.value);
    }
    ok := WriteAnswer(s, p, id, a);
  }

  // ---- suggested edits

  method CreateSuggestEdit(s: Session, p: UserId, id: ItemId, text: Text) returns (ok: bool)
    requires InStep(s.Live()) && p < |s.rows.profiles| && id < |s.rows.contents|
    modifies s
    ensures Carried(s, old(s.rows), PlanCreateSuggestEdit(old(s.rows), p, id, text), ok)
    ensures s.stored == old(s.stored)
  {
    var c := s.rows.contents[id];
    if !c.item.Answer? || !UserInSite(s.rows, c.item.answer.site, Some(p), WriteSiteAnswer) {
      return false;
    }
    var a := c.item.answer;
    if a.bodyDraft.Some? && a.bodyDraft.value != "" {
      return false;
    }
    if s.remainingCoins[p] < s.rows.sites[a.site].createSuggestionCost {
      return false;
    }
    a := a.(edits := a.edits + [SuggestEdit(p, text, Pending, None, None, None, None)]);
    ok := WriteAnswer(s, p, id, a);
    ok := ok && text.source != "";
  }

  /** Crediting the suggester and then publishing the text is, but for the suggestion's own row, the
      one edit `Accept`. */
  lemma AcceptByParts(rows: Rows, now: int, p: UserId, id: ItemId, k: nat)
    requires id < |rows.contents| && rows.contents[id].item.Answer? && k < |rows.contents[id].item.answer.edits|
    ensures var a := rows.contents[id].item.answer;
      var credited := a.(contributors := AnswerLife.WithContributor(a, a.edits[k].author));
      var e := UpdateOf(false, AnswerLife.SuggestedText(a.edits[k]), a.visibility, now);
      && (AnswerLife.InRange(credited, e) <==> AnswerLife.InRange(a, AnswerLife.Accept(k, now)))
      && (AnswerLife.InRange(credited, e) ==>
            var published := AnswerLife.Apply(credited, e);
            && published == AnswerLife.Apply(a, AnswerLife.Accept(k, now)).(edits := a.edits)
            && Rewritten(Rewritten(rows, id, credited), id, published) == Rewritten(rows, id, published)
            && (AnswerShaped(Rewritten(rows, id, credited), rows.contents[id].author, published, p)
                <==> AnswerShaped(rows, rows.contents[id].author, published, p)))
  {
    var a := rows.contents[id].item.answer;
    var credited := a.(contributors := AnswerLife.WithContributor(a, a.edits[k].author));
    var e := UpdateOf(false, AnswerLife.SuggestedText(a.edits[k]), a.visibility, now);
    if AnswerLife.InRange(credited, e) {
      var published := AnswerLife.Apply(credited, e);
      RewritingTwice(rows, id, credited, published);
      RewritingKeepsQuestions(rows, id, credited, rows.contents[id].author, published, p);
    }
  }

  /** The accepting branch: credit the suggester, then publish the suggested text through the
      answer update. The suggestion's own row is written by the caller, last. */
  method PublishSuggestion(s: Session, now: int, p: UserId, id: ItemId, k: nat) returns (ok: bool)
    requires InStep(s.Live()) && id < |s.rows.contents| && s.rows.contents[id].item.Answer?
    requires k < |s.rows.contents[id].item.answer.edits|
    modifies s
    ensures InStep(s.Live())
    ensures var a := old(s.rows).contents[id].item.answer;
      if !AnswerLife.InRange(a, AnswerLife.Accept(k, now)) then !ok else
        var published := AnswerLife.Apply(a, AnswerLife.Accept(k, now)).(edits := a.edits);
        && s.rows == Rewritten(old(s.rows), id, published)
        && ok == AnswerShaped(old(s.rows), old(s.rows).contents[id].author, published, p)
    ensures s.stored == old(s.stored)
  {
    var a := s.rows.contents[id].item.answer;
    var suggestion := a.edits[k];
    if suggestion.author !in a.contributors {
      a := a.(contributors := a.contributors + [suggestion.author]);
    }
    AcceptByParts(s.rows, now, p, id, k);
    var readable := WriteAnswer(s, p, id, a);
    var content := if suggestion.text.source != "" then Some(suggestion.text) else None;
    ok := ApplyAnswerUpdate(s, now, p, id, false, content, a.visibility);
  }

  /** Write the suggestion's row, then rebuild its payload. */
  method WriteSuggestion(s: Session, p: UserId, id: ItemId, k: nat, suggestion: SuggestEdit) returns (ok: bool)
    requires InStep(s.Live()) && id < |s.rows.contents| && s.rows.contents[id].item.Answer?
    requires k < |s.rows.contents[id].item.answer.edits|
    modifies s
    ensures InStep(s.Live())
    ensures var c := old(s.rows).contents[id];
      var a := c.item.answer.(edits := c.item.answer.edits[k := suggestion]);
      && s.rows == Rewritten(old(s.rows), id, a)
      && ok == (AnswerShaped(old(s.rows), c.author, a, p) && suggestion.text.source != "")
    ensures s.stored == old(s.stored)
  {
    var a := s.rows.contents[id].item.answer;
    ok := WriteAnswer(s, p, id, a.(edits := a.edits[k := suggestion]));
    ok := ok && suggestion.text.source != "";
  }

  /** Acceptance: remember the replaced body, publish, and only then write the new status. */
  method AcceptSuggestion(s: Session, now: int, p: UserId, id: ItemId, k: nat) returns (ok: bool)
    requires InStep(s.Live()) && id < |s.rows.contents| && s.rows.contents[id].item.Answer?
    requires k < |s.rows.contents[id].item.answer.edits|
    modifies s
    ensures InStep(s.Live())
    ensures var a := old(s.rows).contents[id].item.answer;
      if !AnswerLife.InRange(a, AnswerLife.Accept(k, now)) then !ok else
      var accepted := AnswerLife.Apply(a, AnswerLife.Accept(k, now));
      && (ok ==> s.rows == Rewritten(old(s.rows), id, accepted))
      && ok == (AnswerShaped(old(s.rows), old(s.rows).contents[id].author, accepted, p)
                && a.edits[k].text.source != "")
    ensures s.stored == old(s.stored)
  {
    ghost var before := s.rows;
    var a := s.rows.contents[id].item.answer;
    var suggestion := a.edits[k];
    var base := if a.body != "" then Some(Text(a.body, a.editor, Some(a.rendered))) else None;
    suggestion := suggestion.(acceptedDiffBase := base);
    ok := PublishSuggestion(s, now, p, id, k);
    if !ok {
      return;
    }
    suggestion := suggestion.(status := Accepted, acceptedAt := Some(now));
    ghost var accepted := AnswerLife.Apply(a, AnswerLife.Accept(k, now));
    ghost var published := accepted.(edits := a.edits);
    assert accepted == published.(edits := published.edits[k := suggestion]);
    RewritingTwice(before, id, published, accepted);
    RewritingKeepsQuestions(before, id, published, before.contents[id].author, accepted, p);
    ok := WriteSuggestion(s, p, id, k, suggestion);
  }

  lemma AllowedTransition(rows: Rows, now: int, p: UserId, id: ItemId, k: nat, status: Status)
    requires id < |rows.contents| && rows.contents[id].item.Answer? && k < |rows.contents[id].item.answer.edits|
    requires UserInSite(rows, rows.contents[id].item.answer.site, Some(p), WriteSiteAnswer)
    ensures var c := rows.contents[id];
      var e := Transition(c, now, p, k, status);
      var plan := PlanUpdateSuggestEdit(rows, now, p, id, k, status);
      if e.None? then plan.None? else
        var a := AnswerLife.Apply(c.item.answer, e.value);
        && plan.Some? == (AnswerShaped(rows, c.author, a, p) && c.item.answer.edits[k].text.source != "")
        && (plan.Some? ==> Applied(rows, plan.value) == Rewritten(rows, id, a))
  {
  }

  /** The branch for pending and rejected suggestions. */
  method DecideSuggestion(s: Session, now: int, p: UserId, id: ItemId, k: nat, status: Status) returns (ok: bool)
    requires InStep(s.Live()) && id < |s.rows.contents| && s.rows.contents[id].item.Answer?
    requires k < |s.rows.contents[id].item.answer.edits|
    requires AnswerLife.Undecided(s.rows.contents[id].item.answer.edits[k])
    requires UserInSite(s.rows, s.rows.contents[id].item.answer.site, Some(p), WriteSiteAnswer)
    modifies s
    ensures Carried(s, old(s.rows), PlanUpdateSuggestEdit(old(s.rows), now, p, id, k, status), ok)
    ensures s.stored == old(s.stored)
  {
    var c := s.rows.contents[id];
    var suggestion := c.item.answer.edits[k];
    AllowedTransition(s.rows, now, p, id, k, status);
    match status {
      case Accepted =>
        if c.author != p {
          return false;
        }
        ok := AcceptSuggestion(s, now, p, id, k);
      case Rejected =>
        if c.author != p {
          return false;
        }
        ok := WriteSuggestion(s, p, id, k, suggestion.(status := Rejected, rejectedAt := Some(now)));
      case Retracted =>
        if suggestion.author != p {
          return false;
        }
        ok := WriteSuggestion(s, p, id, k, suggestion.(status := Retracted, retractedAt := Some(now)));
      case Pending =>
        return false;
    }
  }

  /** The status machine. */
  method UpdateSuggestEdit(s: Session, now: int, p: UserId, id: ItemId, k: nat, status: Status) returns (ok: bool)
    requires InStep(s.Live()) && id < |s.rows.contents|
    modifies s
    ensures Carried(s, old(s.rows), PlanUpdateSuggestEdit(old(s.rows), now, p, id, k, status), ok)
    ensures s.stored == old(s.stored)
  {
    var c := s.rows.contents[id];
    if !c.item.Answer? || k >= |c.item.answer.edits| {
      return false;
    }
    if !UserInSite(s.rows, c.item.answer.site, Some(p), WriteSiteAnswer) {
      return false;
    }
    var suggestion := c.item.answer.edits[k];
    if suggestion.status.Pending? || suggestion.status.Rejected? {
      ok := DecideSuggestion(s, now, p, id, k, status);
    } else if suggestion.status.Retracted? && status.Pending? {
      AllowedTransition(s.rows, now, p, id, k, status);
      if suggestion.author != p {
        return false;
      }
      ok := WriteSuggestion(s, p, id, k, suggestion.(status := Pending, retractedAt := None));
    } else {
      ok := false;
    }
  }

  // ---- articles

  method CreateArticle(s: Session, now: int, p: UserId, columnOwner: Option<UserId>, title: string, text: Text,
                       publish: bool, visibility: Visibility) returns (ok: bool)
    requires InStep(s.Live()) && p < |s.rows.profiles|
    modifies s
    ensures Carried(s, old(s.rows),
                    PlanCreateArticle(old(s.rows), now, p, columnOwner, title, text, publish, visibility), ok)
    ensures s.stored == old(s.stored)
  {
    if s.remainingCoins[p] < Rules.CREATE_ARTICLE_COST {
      return false;
    }
    var admin := FirstSuperuser(s.rows.profiles);
    if admin.None? || columnOwner != Some(p) {
      return false;
    }
    var a := NewArticle(title, text, publish, visibility, now);
    var id := s.Create(Content(p, map[], Article(a)));
    s.MakePayment(p, admin.value, Rules.CREATE_ARTICLE_COST, ArticleCreation);
    ok := true;
  }

  method UpdateArticle(s: Session, now: int, p: UserId, id: ItemId, isDraft: bool, title: string, text: Text,
                       visibility: Visibility) returns (ok: bool)
    requires InStep(s.Live()) && id < |s.rows.contents|
    modifies s
    ensures Carried(s, old(s.rows), PlanUpdateArticle(old(s.rows), now, p, id, isDraft, title, text, visibility), ok)
    ensures s.stored == old(s.stored)
  {
    var c := s.rows.contents[id];
    if !c.item.Article? || c.author != p {
      return false;
    }
    var a := c.item.article;
    a := a.(visibility := visibility);
    if isDraft {
      a := a.(bodyDraft := Some(text.source));
      a := a.(titleDraft := Some(title));
    } else {
      if a.isPublished {
        if a.updatedAt.None? {
          return false;
        }
        var archive := Archive(a.title, a.body, a.editor, a.updatedAt.value);
        a := a.(archives := a.archives + [archive]);
      }
      a := a.(isPublished := true, updatedAt := Some(now));
      a := a.(title := title, body := text.source, rendered := text.rendered);
      a := a.(bodyDraft := None, titleDraft := None);
    }
    s.Update(id, Article(a));
    ok := true;
  }

  // ---- deletion

  method DeleteItem(s: Session, p: UserId, id: ItemId) returns (ok: bool)
    requires InStep(s.Live()) && id < |s.rows.contents|
    modifies s
    ensures Carried(s, old(s.rows), PlanDeleteItem(old(s.rows), p, id), ok)
    ensures s.stored == old(s.stored)
  {
    if s.rows.contents[id].author != p {
      return false;
    }
    match s.rows.contents[id].item {
      case Answer(_) => s.DeleteAnswer(id);
      case Article(_) => s.DeleteArticle(id);
      case Comment(_) => s.DeleteComment(id);
      case _ => return false;
    }
    ok := true;
  }

  method DeleteDraft(s: Session, p: UserId, id: ItemId) returns (ok: bool)
    requires InStep(s.Live()) && id < |s.rows.contents|
    modifies s
    ensures Carried(s, old(s.rows), PlanDeleteDraft(old(s.rows), p, id), ok)
    ensures s.stored == old(s.stored)
  {
    if s.rows.contents[id].author != p {
      return false;
    }
    match s.rows.contents[id].item {
      case Answer(a) =>
        if a.bodyDraft.None? || a.bodyDraft.value == "" {
          return false;
        }
        s.Update(id, Answer(a.(bodyDraft := None)));
      case Article(a) =>
        s.Update(id, Article(a.(titleDraft := None, bodyDraft := None)));
      case _ =>
        return false;
    }
    ok := true;
  }

  method HideItem(s: Session, p: UserId, id: ItemId) returns (ok: bool)
    requires InStep(s.Live()) && id < |s.rows.contents|
    modifies s
    ensures Carried(s, old(s.rows), PlanHideItem(old(s.rows), p, id), ok)
    ensures s.stored == old(s.stored)
  {
    var c := s.rows.contents[id];
    match c.item {
      case Question(q) =>
        if q.site >= |s.rows.sites| || (s.rows.sites[q.site].moderator != p && c.author != p) {
          return false;
        }
        s.Update(id, Question(q.(isHidden := true)));
        if !UserInSite(s.rows, q.site, Some(p), ReadSite) {
          return false;
        }
      case Submission(x) =>
        if x.site >= |s.rows.sites| || (s.rows.sites[x.site].moderator != p && c.author != p) {
          return false;
        }
        s.Update(id, Submission(x.(isHidden := true)));
      case _ =>
        return false;
    }
    ok := true;
  }

  // ---- comments

  /** Resolve the one parent a comment names, copying the parent's site. */
  method ResolveParents(rows: Rows, now: int, p: UserId, u: ParentUuids, content: Text, shared: bool)
    returns (r: Option<CommentRow>)
    requires ParentsGiven(u) == 1 && content.rendered.Some?
    ensures r == PlacedComment(rows, now, p, u, content, shared)
  {
    var m := Unplaced(content, shared, now);
    if NamesParent(u.question) {
      var q := u.question.value.id;
      if !IsQuestion(rows, q) || !UserInSite(rows, SiteOfQuestion(rows, q), Some(p), WriteSiteComment) {
        return None;
      }
      m := m.(site := Some(SiteOfQuestion(rows, q)), questionId := Some(q));
    }
    if NamesParent(u.submission) {
      var x := u.submission.value.id;
      if x >= |rows.contents| || !rows.contents[x].item.Submission? {
        return None;
      }
      var site := rows.contents[x].item.submission.site;
      if !UserInSite(rows, site, Some(p), WriteSiteComment) {
        return None;
      }
      m := m.(site := Some(site), submissionId := Some(x));
    }
    if NamesParent(u.answer) {
      var a := u.answer.value.id;
      if a >= |rows.contents| || !rows.contents[a].item.Answer? {
        return None;
      }
      var site := rows.contents[a].item.answer.site;
      if !UserInSite(rows, site, Some(p), WriteSiteComment) {
        return None;
      }
      m := m.(site := Some(site), answerId := Some(a));
    }
    if NamesParent(u.article) {
      var a := u.article.value.id;
      if a >= |rows.contents| || !rows.contents[a].item.Article? {
        return None;
      }
      m := m.(articleId := Some(a));
    }
    if NamesParent(u.comment) {
      var k := u.comment.value.id;
      if k >= |rows.contents| || !rows.contents[k].item.Comment? {
        return None;
      }
      var site := rows.contents[k].item.comment.site;
      if site.Some? {
        if !UserInSite(rows, site.value, Some(p), WriteSiteComment) {
          return None;
        }
        m := m.(site := site);
      }
      m := m.(parentCommentId := Some(k));
    }
    r := Some(m);
  }

  method CreateComment(s: Session, now: int, p: UserId, u: ParentUuids, content: Text, shared: bool)
    returns (ok: bool)
    requires InStep(s.Live()) && p < |s.rows.profiles|
    modifies s
    ensures Carried(s, old(s.rows), PlanCreateComment(old(s.rows), now, p, u, content, shared), ok)
    ensures s.stored == old(s.stored)
  {
    if ParentsGiven(u) != 1 {
      return false;
    }
    if content.rendered.None? {
      return false;
    }
    var placed := ResolveParents(s.rows, now, p, u, content, shared);
    if placed.None? {
      return false;
    }
    var m := placed.value;
    var id := s.Create(Content(p, map[], Comment(m)));
    ok := CommentShaped(s.rows, m, Some(p));
  }

  lemma RewritingKeepsShape(rows: Rows, id: ItemId, m: CommentRow, p: UserId)
    requires id < |rows.contents| && rows.contents[id].item.Comment?
    requires m.site == rows.contents[id].item.comment.site
    ensures var c := rows.contents[id];
      CommentShaped(rows.(contents := rows.contents[id := c.(item := Comment(m))]), m, Some(p))
      <==> CommentShaped(rows, c.item.comment, Some(p))
  {
  }

  lemma RevisionPlanned(rows: Rows, now: int, p: UserId, id: ItemId, content: Option<Text>, shared: bool,
                        mentioned: Option<seq<string>>)
    requires id < |rows.contents| && rows.contents[id].item.Comment? && rows.contents[id].author == p
    requires var site := rows.contents[id].item.comment.site;
      site.Some? ==> UserInSite(rows, site.value, Some(p), WriteSiteComment)
    ensures PlanUpdateComment(rows, now, p, id, content, shared, mentioned)
         == if CommentShaped(rows, rows.contents[id].item.comment, Some(p))
            then Some(Plan(EditItem(id, ItemLife.Revise(content, shared, mentioned, now)), NoMoney)) else None
  {
  }

  lemma RevisionApplied(rows: Rows, id: ItemId, e: ItemLife.Edit)
    requires id < |rows.contents| && rows.contents[id].item.Comment? && e.Revise?
    requires Sound(rows, Plan(EditItem(id, e), NoMoney))
    ensures var c := rows.contents[id];
      var m := CommentUpdate.Assign(c.item.comment, CommentUpdate.Fields(e.content, e.shared, e.mentioned, e.at));
      Applied(rows, Plan(EditItem(id, e), NoMoney)) == rows.(contents := rows.contents[id := c.(item := Comment(m))])
  {
  }

  lemma RevisionShaped(rows: Rows, now: int, p: UserId, id: ItemId, content: Option<Text>, shared: bool,
                       mentioned: Option<seq<string>>)
    requires id < |rows.contents| && rows.contents[id].item.Comment? && rows.contents[id].author == p
    requires var site := rows.contents[id].item.comment.site;
      site.Some? ==> UserInSite(rows, site.value, Some(p), WriteSiteComment)
    ensures var c := rows.contents[id];
      var fields := CommentUpdate.Fields(content, shared, mentioned, now);
      var m := CommentUpdate.Assign(c.item.comment, fields);
      var after := rows.(contents := rows.contents[id := c.(item := Comment(m))]);
      var plan := PlanUpdateComment(rows, now, p, id, content, shared, mentioned);
      && plan.Some? == CommentShaped(after, m, Some(p))
      && (plan.Some? ==> Applied(rows, plan.value) == after)
  {
    var m := rows.contents[id].item.comment;
    CommentUpdate.RequestStoresNoText(m, content, shared, mentioned, now);
    var fields := CommentUpdate.Fields(content, shared, mentioned, now);
    RewritingKeepsShape(rows, id, CommentUpdate.Assign(m, fields), p);
    RevisionPlanned(rows, now, p, id, content, shared, mentioned);
    if CommentShaped(rows, m, Some(p)) {
      RevisionApplied(rows, id, ItemLife.Revise(content, shared, mentioned, now));
    }
  }

  /** Set the fields, then rebuild the payload. */
  method WriteComment(s: Session, p: UserId, id: ItemId, fields: seq<CommentUpdate.Field>) returns (ok: bool)
    requires InStep(s.Live()) && id < |s.rows.contents| && s.rows.contents[id].item.Comment?
    requires forall f :: f in fields ==> !f.IsDeleted?
    modifies s
    ensures InStep(s.Live())
    ensures var c := old(s.rows).contents[id];
      var m := CommentUpdate.Assign(c.item.comment, fields);
      && s.rows == old(s.rows).(contents := old(s.rows).contents[id := c.(item := Comment(m))])
      && ok == CommentShaped(s.rows, m, Some(p))
    ensures s.stored == old(s.stored)
  {
    s.UpdateComment(id, fields);
    ok := CommentShaped(s.rows, s.rows.contents[id].item.comment, Some(p));
  }

  /** The update dictionary, with `content` in it, goes to the field-setting loop of the crud layer. */
  method UpdateComment(s: Session, now: int, p: UserId, id: ItemId, content: Option<Text>, shared: bool,
                       mentioned: Option<seq<string>>) returns (ok: bool)
    requires InStep(s.Live()) && id < |s.rows.contents|
    modifies s
    ensures Carried(s, old(s.rows), PlanUpdateComment(old(s.rows), now, p, id, content, shared, mentioned), ok)
    ensures s.stored == old(s.stored)
  {
    var c := s.rows.contents[id];
    if !c.item.Comment? || c.author != p {
      return false;
    }
    var m := c.item.comment;
    if m.site.Some? && !UserInSite(s.rows, m.site.value, Some(p), WriteSiteComment) {
      return false;
    }
    var fields := CommentUpdate.Fields(content, shared, mentioned, now);
    CommentUpdate.FieldsCannotDelete(content, shared, mentioned, now);
    RevisionShaped(s.rows, now, p, id, content, shared, mentioned);
    ok := WriteComment(s, p, id, fields);
  }

  // ---- coins

  method RewardInvitation(s: Session, inviter: UserId, sent: int) returns (ok: bool)
    requires InStep(s.Live()) && inviter < |s.rows.profiles|
    modifies s
    ensures Carried(s, old(s.rows), PlanInvitation(old(s.rows), inviter, sent), ok)
    ensures s.stored == old(s.stored)
  {
    var admin := FirstSuperuser(s.rows.profiles);
    if admin.None? {
      return false;
    }
    if sent < Rules.INVITE_NEW_USER_MAX_REWARDED
       && s.remainingCoins[admin.value] >= Rules.INVITE_NEW_USER_REWARD {
      s.MakePayment(admin.value, inviter, Rules.INVITE_NEW_USER_REWARD, Invitation);
    }
    ok := true;
  }

  method ClaimWelcomeReward(s: Session, p: UserId, eligible: bool, passed: bool, score: nat) returns (ok: bool)
    requires InStep(s.Live()) && p < |s.rows.profiles|
    modifies s
    ensures Carried(s, old(s.rows), PlanWelcome(old(s.rows), p, eligible, passed, score), ok)
    ensures s.stored == old(s.stored)
  {
    if s.rows.profiles[p].claimedWelcome || !eligible {
      return false;
    }
    if passed {
      s.UpdateUser(p, s.rows.profiles[p].(claimedWelcome := true));
      s.MakeDeposit(p, score);
    }
    ok := true;
  }

  method CreateReward(s: Session, now: int, p: UserId, receiver: UserId, amount: int, days: int,
                      condition: Option<ItemId>) returns (ok: bool)
    requires InStep(s.Live()) && p < |s.rows.profiles|
    modifies s
    ensures Carried(s, old(s.rows), PlanCreateReward(old(s.rows), now, p, receiver, amount, days, condition), ok)
    ensures s.stored == old(s.stored)
  {
    if amount <= 0 || days <= 0 {
      return false;
    }
    if receiver >= |s.rows.profiles| {
      return false;
    }
    if condition.Some? {
      if !IsQuestion(s.rows, condition.value) {
        return false;
      }
      if !UserInSite(s.rows, SiteOfQuestion(s.rows, condition.value), Some(receiver), WriteSiteAnswer) {
        return false;
      }
    }
    if s.remainingCoins[p] < amount {
      return false;
    }
    s.CreateReward(p, receiver, amount, now + days * Rules.SECONDS_PER_DAY, condition);
    ok := true;
  }

  method ClaimReward(s: Session, now: int, p: UserId, k: nat) returns (ok: bool)
    requires InStep(s.Live()) && p < |s.rows.profiles|
    modifies s
    ensures Carried(s, old(s.rows), PlanClaimReward(old(s.rows), now, p, k), ok)
    ensures s.stored == old(s.stored)
  {
    if !Money.IsOpenReward(s.rows.book, k) || s.rows.book[k].receiver != p {
      return false;
    }
    var reward := s.rows.book[k];
    if reward.expiresAt < now {
      return false;
    }
    if reward.condition.Some? && !Answered(s.rows, reward.condition.value, reward.giver) {
      return false;
    }
    s.PayReward(k, Claimed);
    ok := true;
  }

  method RefundReward(s: Session, p: UserId, k: nat) returns (ok: bool)
    requires InStep(s.Live()) && p < |s.rows.profiles|
    modifies s
    ensures Carried(s, old(s.rows), PlanRefundReward(old(s.rows), p, k), ok)
    ensures s.stored == old(s.stored)
  {
    if !Money.IsOpenReward(s.rows.book, k) || s.rows.book[k].giver != p {
      return false;
    }
    s.PayReward(k, Refunded);
    ok := true;
  }

  method UploadImage(s: Session, p: UserId, sha: string, figure: bool) returns (ok: bool)
    requires InStep(s.Live()) && p < |s.rows.profiles|
    modifies s
    ensures Carried(s, old(s.rows), PlanUpload(old(s.rows), p, sha, figure), ok)
    ensures s.stored == old(s.stored)
  {
    KarmaColumn(s.Live(), p);
    if figure && s.karma[p] < Rules.MIN_KARMA_UPLOAD_IMAGE {
      return false;
    }
    var isNew := !Money.ShaIn(s.rows.book, sha);
    if isNew && s.remainingCoins[p] < Rules.UPLOAD_IMAGE_COST {
      return false;
    }
    s.RecordUpload(p, sha, isNew);
    ok := true;
  }

  // ---- sites, questions, submissions

  method CreateSite(s: Session, p: UserId, public: bool, nameTaken: bool) returns (ok: bool)
    requires InStep(s.Live()) && p < |s.rows.profiles|
    modifies s
    ensures Carried(s, old(s.rows), PlanCreateSite(old(s.rows), p, public, nameTaken), ok)
    ensures s.stored == old(s.stored)
  {
    KarmaColumn(s.Live(), p);
    if !s.rows.profiles[p].isSuperuser {
      if !public {
        return false;
      }
      if s.karma[p] < Rules.MIN_KARMA_CREATE_SITE {
        return false;
      }
      if s.remainingCoins[p] < Rules.CREATE_SITE_COST {
        return false;
      }
    }
    if nameTaken {
      return false;
    }
    var admin := FirstSuperuser(s.rows.profiles);
    if admin.None? {
      return false;
    }
    var site := |s.rows.sites|;
    s.CreateSite(DefaultSite(public, p));
    s.MakePayment(p, admin.value, Rules.CREATE_SITE_COST, SiteCreation);
    s.SetMember(p, site, true);
    ok := true;
  }

  method HandOverSite(s: Session, p: UserId, site: SiteId, moderator: UserId) returns (ok: bool)
    requires InStep(s.Live()) && p < |s.rows.profiles|
    modifies s
    ensures Carried(s, old(s.rows), PlanHandOver(old(s.rows), p, site, moderator), ok)
    ensures s.stored == old(s.stored)
  {
    if site >= |s.rows.sites| || s.rows.sites[site].moderator != p || moderator >= |s.rows.profiles| {
      return false;
    }
    s.SetModerator(site, moderator);
    ok := true;
  }

  method CreateQuestion(s: Session, p: UserId, site: SiteId) returns (ok: bool)
    requires InStep(s.Live()) && p < |s.rows.profiles|
    modifies s
    ensures Carried(s, old(s.rows), PlanCreateQuestion(old(s.rows), p, site), ok)
    ensures s.stored == old(s.stored)
  {
    if !UserInSite(s.rows, site, Some(p), WriteSiteQuestion) {
      return false;
    }
    if s.remainingCoins[p] < s.rows.sites[site].createQuestionCost {
      return false;
    }
    var id := s.Create(Content(p, map[], Question(QuestionRow(site, false))));
    ok := UserInSite(s.rows, site, Some(p), ReadSite);
  }

  method CreateSubmission(s: Session, p: UserId, site: SiteId) returns (ok: bool)
    requires InStep(s.Live()) && p < |s.rows.profiles|
    modifies s
    ensures Carried(s, old(s.rows), PlanCreateSubmission(old(s.rows), p, site), ok)
    ensures s.stored == old(s.stored)
  {
    if !UserInSite(s.rows, site, Some(p), WriteSiteSubmission) {
      return false;
    }
    if s.remainingCoins[p] < s.rows.sites[site].createSubmissionCost {
      return false;
    }
    var id := s.Create(Content(p, map[], Submission(SubmissionRow(site, false))));
    ok := UserInSite(s.rows, site, Some(p), ReadSite);
  }
}
