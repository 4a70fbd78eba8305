/** The request boundary: run a service inside a session, commit what succeeded, roll back what
    failed. Here the two descriptions of the system meet: serving any sequence of requests with the
    step-by-step code leaves exactly the rows of the simple machine, with every cached column equal
    to its recomputation from scratch. */
module Boundary {
  import opened Basics
  import opened Model
  import opened Requests
  import opened Columns
  import opened Database
  import Rewards
  import Services

  /** Nothing is pending: the session shows what the database holds. */
  predicate Idle(s: Session)
    reads s
  {
    s.Live() == s.stored && InStep(s.stored)
  }

  method DispatchUpvote(s: Session, p: UserId, id: ItemId) returns (ok: bool)
    requires InStep(s.Live()) && p < |s.rows.profiles| && id < |s.rows.contents|
    modifies s
    ensures Services.Carried(s, old(s.rows), PlanUpvote(old(s.rows), p, id), ok)
    ensures s.stored == old(s.stored)
  {
    match s.rows.contents[id].item
    case Answer(_) => ok := Services.UpvoteAnswer(s, p, id);
    case Question(_) => ok := Services.UpvoteQuestion(s, p, id);
    case Article(_) => ok := Services.UpvoteArticle(s, p, id);
    case Submission(_) => ok := Services.UpvoteSubmission(s, p, id);
    case Comment(_) => ok := Services.UpvoteComment(s, p, id);
  }

  predicate OnVotes(req: Request) {
    req.Upvote? || req.CancelUpvote?
  }

  method DispatchVotes(s: Session, now: int, req: Request) returns (ok: bool)
    requires InStep(s.Live()) && NamesUser(s.rows, req) && OnVotes(req) && req.id < |s.rows.contents|
    modifies s
    ensures Services.Carried(s, old(s.rows), PlanOf(old(s.rows), now, req), ok)
    ensures s.stored == old(s.stored)
  {
    assert PlanOf(s.rows, now, req) == PlanOnItem(s.rows, now, req);
    if req.Upvote? {
      ok := DispatchUpvote(s, req.p, req.id);
    } else {
      ok := Services.CancelUpvote(s, req.p, req.id);
    }
  }

  predicate OnAnswers(req: Request) {
    req.UpdateAnswer? || req.ModerateAnswer? || req.CreateSuggestEdit? || req.UpdateSuggestEdit?
  }

  method DispatchAnswerEdits(s: Session, now: int, req: Request) returns (ok: bool)
    requires InStep(s.Live()) && NamesUser(s.rows, req) && OnAnswers(req) && req.id < |s.rows.contents|
    modifies s
    ensures Services.Carried(s, old(s.rows), PlanOf(old(s.rows), now, req), ok)
    ensures s.stored == old(s.stored)
  {
    assert PlanOf(s.rows, now, req) == PlanOnItem(s.rows, now, req);
    match req {
      case UpdateAnswer(p, id, isDraft, content, visibility) =>
        ok := Services.UpdateAnswer(s, now, p, id, isDraft, content, visibility);
      case ModerateAnswer(p, id, hidden) => ok := Services.ModerateAnswer(s, p, id, hidden);
      case CreateSuggestEdit(p, id, text) => ok := Services.CreateSuggestEdit(s, p, id, text);
      case UpdateSuggestEdit(p, id, k, status) => ok := Services.UpdateSuggestEdit(s, now, p, id, k, status);
    }
  }

  method DispatchOtherEdits(s: Session, now: int, req: Request) returns (ok: bool)
    requires InStep(s.Live()) && NamesUser(s.rows, req)
    requires OnItem(req) && !OnVotes(req) && !OnAnswers(req) && req.id < |s.rows.contents|
    modifies s
    ensures Services.Carried(s, old(s.rows), PlanOf(old(s.rows), now, req), ok)
    ensures s.stored == old(s.stored)
  {
    assert PlanOf(s.rows, now, req) == PlanOnItem(s.rows, now, req);
    match req {
      case HideItem(p, id) => ok := Services.HideItem(s, p, id);
      case UpdateArticle(p, id, isDraft, title, text, visibility) =>
        ok := Services.UpdateArticle(s, now, p, id, isDraft, title, text, visibility);
      case DeleteItem(p, id) => ok := Services.DeleteItem(s, p, id);
      case DeleteDraft(p, id) => ok := Services.DeleteDraft(s, p, id);
      case UpdateComment(p, id, content, shared, mentioned) =>
        ok := Services.UpdateComment(s, now, p, id, content, shared, mentioned);
    }
  }

  predicate OnRewards(req: Request) {
    req.CreateReward? || req.ClaimReward? || req.RefundReward?
  }

  method DispatchRewards(s: Session, now: int, req: Request) returns (ok: bool)
    requires InStep(s.Live()) && NamesUser(s.rows, req) && OnRewards(req)
    modifies s
    ensures Services.Carried(s, old(s.rows), PlanOf(old(s.rows), now, req), ok)
    ensures s.stored == old(s.stored)
  {
    assert PlanOf(s.rows, now, req) == PlanElse(s.rows, now, req);
    match req {
      case CreateReward(p, receiver, amount, days, condition) =>
        ok := Services.CreateReward(s, now, p, receiver, amount, days, condition);
      case ClaimReward(p, k) => ok := Services.ClaimReward(s, now, p, k);
      case RefundReward(p, k) => ok := Services.RefundReward(s, p, k);
    }
  }

  predicate OnGrants(req: Request) {
    req.ClaimWelcomeReward? || req.RewardInvitation? || req.UploadImage?
  }

  method DispatchGrants(s: Session, now: int, req: Request) returns (ok: bool)
    requires InStep(s.Live()) && NamesUser(s.rows, req) && OnGrants(req)
    modifies s
    ensures Services.Carried(s, old(s.rows), PlanOf(old(s.rows), now, req), ok)
    ensures s.stored == old(s.stored)
  {
    assert PlanOf(s.rows, now, req) == PlanElse(s.rows, now, req);
    match req {
      case ClaimWelcomeReward(p, eligible, passed, score) =>
        ok := Services.ClaimWelcomeReward(s, p, eligible, passed, score);
      case RewardInvitation(p, sent) => ok := Services.RewardInvitation(s, p, sent);
      case UploadImage(p, sha, figure) => ok := Services.UploadImage(s, p, sha, figure);
    }
  }

  predicate OnCreations(req: Request) {
    || req.CreateQuestion? || req.CreateSubmission? || req.CreateAnswer? || req.CreateArticle?
    || req.CreateComment?
  }

  method DispatchCreations(s: Session, now: int, req: Request) returns (ok: bool)
    requires InStep(s.Live()) && NamesUser(s.rows, req) && OnCreations(req)
    modifies s
    ensures Services.Carried(s, old(s.rows), PlanOf(old(s.rows), now, req), ok)
    ensures s.stored == old(s.stored)
  {
    assert PlanOf(s.rows, now, req) == PlanElse(s.rows, now, req);
    match req {
      case CreateQuestion(p, site) => ok := Services.CreateQuestion(s, p, site);
      case CreateSubmission(p, site) => ok := Services.CreateSubmission(s, p, site);
      case CreateAnswer(p, q, text, publish, visibility) =>
        ok := Services.CreateAnswer(s, now, p, q, text, publish, visibility);
      case CreateArticle(p, columnOwner, title, text, publish, visibility) =>
        ok := Services.CreateArticle(s, now, p, columnOwner, title, text, publish, visibility);
      case CreateComment(p, parents, text, shared) =>
        ok := Services.CreateComment(s, now, p, parents, text, shared);
    }
  }

  /** The request is about users, sites and memberships. */
  predicate OnAccounts(req: Request) {
    || req.SignUp? || req.EditProfile? || req.JoinSite? || req.LeaveSite? || req.CreateSite?
    || req.HandOverSite?
  }

  method DispatchAccounts(s: Session, now: int, req: Request) returns (ok: bool)
    requires InStep(s.Live()) && NamesUser(s.rows, req) && OnAccounts(req)
    modifies s
    ensures Services.Carried(s, old(s.rows), PlanOf(old(s.rows), now, req), ok)
    ensures s.stored == old(s.stored)
  {
    assert PlanOf(s.rows, now, req) == PlanElse(s.rows, now, req);
    ok := true;
    match req {
      case SignUp(fullName, superuser) => s.CreateUser(NewProfile(fullName, superuser));
      case EditProfile(p, filled, work, education) =>
        s.UpdateUser(p, s.rows.profiles[p].(
          filled := filled, workExperiences := work, educationExperiences := education));
      case JoinSite(p, site) =>
        if site >= |s.rows.sites| {
          return false;
        }
        s.SetMember(p, site, true);
      case LeaveSite(p, site) => s.SetMember(p, site, false);
      case CreateSite(p, public, nameTaken) => ok := Services.CreateSite(s, p, public, nameTaken);
      case HandOverSite(p, site, moderator) => ok := Services.HandOverSite(s, p, site, moderator);
    }
  }

  method Dispatch(s: Session, now: int, req: Request) returns (ok: bool)
    requires InStep(s.Live())
    modifies s
    ensures Services.Carried(s, old(s.rows), PlanOf(old(s.rows), now, req), ok)
    ensures s.stored == old(s.stored)
  {
    if !NamesUser(s.rows, req) {
      ok := false;
    } else if OnItem(req) && req.id >= |s.rows.contents| {
      ok := false;
    } else if OnVotes(req) {
      ok := DispatchVotes(s, now, req);
    } else if OnAnswers(req) {
      ok := DispatchAnswerEdits(s, now, req);
    } else if OnItem(req) {
      ok := DispatchOtherEdits(s, now, req);
    } else if OnRewards(req) {
      ok := DispatchRewards(s, now, req);
    } else if OnGrants(req) {
      ok := DispatchGrants(s, now, req);
    } else if OnCreations(req) {
      ok := DispatchCreations(s, now, req);
    } else {
      ok := DispatchAccounts(s, now, req);
    }
  }

  /** One request: commit on success, roll back on failure, close. */
  method Handle(s: Session, ev: Event) returns (ok: bool)
    requires Idle(s)
    modifies s
    ensures Idle(s) && s.stored.rows == Step(old(s.stored).rows, ev)
    ensures !ok ==> s.stored == old(s.stored)
  {
    s.committed := false;
    ok := Dispatch(s, ev.now, ev.req);
    if ok {
      s.Commit();
    } else {
      s.Rollback();
    }
    s.Close();
  }

  /** Any run of requests, served from an empty database. What is stored at the end is the simple
      machine's rows, and karma, coins and upvote counts that a recomputation, given the awards made
      for rewards, would not change; without them the coins recomputed from the stored rows agree
      exactly if no award was ever made. */
  method Serve(log: seq<Event>) returns (s: Session)
    ensures s.stored == Recomputed(Run(EMPTY, log))
    ensures s.stored.remainingCoins == CoinsOfBook(s.stored.rows) <==> !Rewards.EverPaysOut(EMPTY, log)
  {
    s := new Session();
    var i := 0;
    while i < |log|
      invariant 0 <= i <= |log| && fresh(s) && Idle(s)
      invariant Run(EMPTY, log) == Run(s.stored.rows, log[i..])
    {
      var ok := Handle(s, log[i]);
      i := i + 1;
    }
    NoDrift(s.stored);
    Rewards.BalancesFoldExactly(log);
    CoinsFoldTogether(s.stored.rows);
  }
}
