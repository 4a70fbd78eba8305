/** The service layer as a state machine over rows alone: each request is either refused, which
    leaves no trace, or carried out by one change to one row and at most one line of the book or one
    award.

    Nothing here stores karma, a balance or an upvote count: gates that need one recompute it. */
module Requests {
  import opened Basics
  import opened Model
  import opened Permissions
  import AnswerLife
  import ArticleLife
  import ItemLife
  import Karma
  import Money
  import Rules

  /** A uuid in a request body: the empty string, or the name of some item. */
  datatype Uuid = Blank | Of(id: ItemId)

  datatype ParentUuids = ParentUuids(
    question: Option<Uuid>,
    submission: Option<Uuid>,
    answer: Option<Uuid>,
    article: Option<Uuid>,
    comment: Option<Uuid>)

  datatype Request =
    | SignUp(fullName: bool, superuser: bool)
    | EditProfile(p: UserId, filled: set<ProfileField>, work: nat, education: nat)
    | JoinSite(p: UserId, site: SiteId)
    | LeaveSite(p: UserId, site: SiteId)
    | CreateSite(p: UserId, public: bool, nameTaken: bool)
    | HandOverSite(p: UserId, site: SiteId, moderator: UserId)
    | CreateQuestion(p: UserId, site: SiteId)
    | CreateSubmission(p: UserId, site: SiteId)
    | HideItem(p: UserId, id: ItemId)
    | CreateAnswer(p: UserId, question: ItemId, text: Text, publish: bool, visibility: Visibility)
    | UpdateAnswer(p: UserId, id: ItemId, isDraft: bool, content: Option<Text>, visibility: Visibility)
    | ModerateAnswer(p: UserId, id: ItemId, hidden: Option<bool>)
    | CreateSuggestEdit(p: UserId, id: ItemId, text: Text)
    | UpdateSuggestEdit(p: UserId, id: ItemId, k: nat, status: Status)
    | CreateArticle(p: UserId, columnOwner: Option<UserId>, title: string, text: Text,
                    publish: bool, visibility: Visibility)
    | UpdateArticle(p: UserId, id: ItemId, isDraft: bool, title: string, text: Text, visibility: Visibility)
    | DeleteItem(p: UserId, id: ItemId)
    | DeleteDraft(p: UserId, id: ItemId)
    | CreateComment(p: UserId, parents: ParentUuids, text: Text, shared: bool)
    | UpdateComment(p: UserId, id: ItemId, content: Option<Text>, shared: bool, mentioned: Option<seq<string>>)
    | Upvote(p: UserId, id: ItemId)
    | CancelUpvote(p: UserId, id: ItemId)
    | ClaimWelcomeReward(p: UserId, eligible: bool, passed: bool, score: nat)
    | RewardInvitation(p: UserId, sent: int)
    | CreateReward(p: UserId, receiver: UserId, amount: int, days: int, condition: Option<ItemId>)
    | ClaimReward(p: UserId, k: nat)
    | RefundReward(p: UserId, k: nat)
    | UploadImage(p: UserId, sha: string, figure: bool)

  // ---- plans

  datatype RowChange =
    | NoRow
    | AddUser(profile: Profile)
    | EditUser(u: UserId, profile: Profile)
    | AddSite(site: Site)  // with its moderator as first member
    | HandOver(at: SiteId, moderator: UserId)
    | Join(member: UserId, at: SiteId)
    | Leave(member: UserId, at: SiteId)
    | AddItem(content: Content)
    | EditItem(id: ItemId, edit: ItemLife.Edit)

  datatype MoneyChange =
    | NoMoney
    | Book(entry: Entry)
    | Award(k: nat, to: UserId)  // the amount of reward `k`, recorded nowhere

  datatype Plan = Plan(row: RowChange, money: MoneyChange)

  const NOTHING := Plan(NoRow, NoMoney)

  predicate Born(c: Content) {
    && c.votes == map[]
    && (c.item.Answer? ==>
          var a := c.item.answer;
          !a.isDeleted && !a.isHiddenByModerator && a.archives == [] && a.contributors == [] && a.edits == [])
    && (c.item.Article? ==>
          var a := c.item.article;
          !a.isDeleted && a.archives == [] && (a.isPublished <==> a.updatedAt.Some?))
    && (c.item.Question? ==> !c.item.question.isHidden)
    && (c.item.Submission? ==> !c.item.submission.isHidden)
    && (c.item.Comment? ==> !c.item.comment.isDeleted)
  }

  predicate OnlyOn(m: CommentRow, question: Option<ItemId>, submission: Option<ItemId>,
                   answer: Option<ItemId>, article: Option<ItemId>, comment: Option<ItemId>) {
    && m.questionId == question && m.submissionId == submission && m.answerId == answer
    && m.articleId == article && m.parentCommentId == comment
  }

  /** A comment made with a blank uuid: on nothing, in no site. */
  predicate IsOrphan(m: CommentRow) {
    OnlyOn(m, None, None, None, None, None) && m.site.None?
  }

  /** The comment hangs on exactly one item of the right kind before `bound`, and has its site. */
  predicate HangsOnOne(rows: Rows, bound: nat, m: CommentRow) {
    || (m.questionId.Some? && OnlyOn(m, m.questionId, None, None, None, None) &&
        var q := m.questionId.value;
        q < bound && IsQuestion(rows, q) && m.site == Some(rows.contents[q].item.question.site))
    || (m.submissionId.Some? && OnlyOn(m, None, m.submissionId, None, None, None) &&
        var s := m.submissionId.value;
        s < bound && s < |rows.contents| && rows.contents[s].item.Submission?
        && m.site == Some(rows.contents[s].item.submission.site))
    || (m.answerId.Some? && OnlyOn(m, None, None, m.answerId, None, None) &&
        var a := m.answerId.value;
        a < bound && a < |rows.contents| && rows.contents[a].item.Answer?
        && m.site == Some(rows.contents[a].item.answer.site))
    || (m.articleId.Some? && OnlyOn(m, None, None, None, m.articleId, None) &&
        var a := m.articleId.value;
        a < bound && a < |rows.contents| && rows.contents[a].item.Article? && m.site.None?)
    || (m.parentCommentId.Some? && OnlyOn(m, None, None, None, None, m.parentCommentId) &&
        var k := m.parentCommentId.value;
        k < bound && k < |rows.contents| && rows.contents[k].item.Comment?
        && m.site == rows.contents[k].item.comment.site)
  }

  /** What an item refers to exists, is older than `bound`, and agrees on the site. */
  predicate Placed(rows: Rows, bound: nat, c: Content) {
    match c.item
    case Answer(a) =>
      a.question < bound && IsQuestion(rows, a.question) && a.site == SiteOfQuestion(rows, a.question)
    case Comment(m) => IsOrphan(m) || HangsOnOne(rows, bound, m)
    case _ => true
  }

  predicate HasLiveAnswer(rows: Rows, p: UserId, q: ItemId) {
    exists i :: 0 <= i < |rows.contents| && IsUndeletedAnswer(rows.contents[i], p, q)
  }

  predicate IsUndeletedAnswer(c: Content, p: UserId, q: ItemId) {
    c.author == p && c.item.Answer? && c.item.answer.question == q && !c.item.answer.isDeleted
  }

  predicate EntryFits(rows: Rows, e: Entry) {
    Money.PartiesBelow(e, |rows.profiles|) && (e.Reward? ==> e.state.Open? && e.amount > 0)
  }

  predicate FairSite(s: Site) {
    s.upvoteAnswerCost >= 0 && s.upvoteQuestionCost >= 0 && s.upvoteSubmissionCost >= 0
  }

  /** What holds of every plan the service layer lets through. */
  predicate Sound(rows: Rows, plan: Plan) {
    && (match plan.row
        case EditUser(u, p) => u < |rows.profiles| && p.isSuperuser == rows.profiles[u].isSuperuser
        case AddSite(s) => FairSite(s) && s.moderator < |rows.profiles|
        case HandOver(s, u) => s < |rows.sites| && u < |rows.profiles|
        case AddItem(c) =>
          && c.author < |rows.profiles| && Born(c) && Placed(rows, |rows.contents|, c)
          && (c.item.Answer? ==> !HasLiveAnswer(rows, c.author, c.item.answer.question))
        case EditItem(id, e) => id < |rows.contents| && ItemLife.Fits(rows.contents[id], e)
        case _ => true)
    && (match plan.money
        case Book(e) => EntryFits(rows, e)
        case Award(k, to) =>
          && Money.IsOpenReward(rows.book, k) && to < |rows.profiles|
          && (to == rows.book[k].giver || to == rows.book[k].receiver)
        case NoMoney => true)
  }

  function BookAfter(rows: Rows, plan: Plan): seq<Entry>
    requires Sound(rows, plan)
  {
    if plan.money.Book? then rows.book + [plan.money.entry] else rows.book
  }

  function PayoutsAfter(rows: Rows, plan: Plan): seq<Payout>
    requires Sound(rows, plan)
  {
    if plan.money.Award?
    then rows.payouts + [Payout(plan.money.to, rows.book[plan.money.k].amount)]
    else rows.payouts
  }

  function Applied(rows: Rows, plan: Plan): Rows
    requires Sound(rows, plan)
  {
    var paid := rows.(book := BookAfter(rows, plan), payouts := PayoutsAfter(rows, plan));
    match plan.row
    case NoRow => paid
    case AddUser(p) => paid.(profiles := rows.profiles + [p])
    case EditUser(u, p) => paid.(profiles := rows.profiles[u := p])
    case AddSite(s) =>
      paid.(sites := rows.sites + [s], members := rows.members + {(s.moderator, |rows.sites|)})
    case HandOver(s, u) => paid.(sites := rows.sites[s := rows.sites[s].(moderator := u)])
    case Join(u, s) => paid.(members := rows.members + {(u, s)})
    case Leave(u, s) => paid.(members := rows.members - {(u, s)})
    case AddItem(c) => paid.(contents := rows.contents + [c])
    case EditItem(id, e) => paid.(contents := rows.contents[id := ItemLife.Apply(rows.contents[id], e)])
  }

  // ---- users and sites

  function NewProfile(fullName: bool, superuser: bool): Profile {
    Profile(if fullName then {FullName} else {}, 0, 0, superuser, false)
  }

  function DefaultSite(public: bool, moderator: UserId): Site {
    Site(public, public, public, public, public, true, 2, 2, 1, 2, 1, 1, moderator)
  }

  function FirstSuperuser(profiles: seq<Profile>): (r: Option<UserId>)
    ensures r.Some? ==> r.value < |profiles| && profiles[r.value].isSuperuser
    ensures r.None? ==> forall u :: 0 <= u < |profiles| ==> !profiles[u].isSuperuser
    ensures r.Some? ==> forall u :: 0 <= u < r.value ==> !profiles[u].isSuperuser
  {
    if profiles == [] then None else
      var n := |profiles| - 1;
      var front := FirstSuperuser(profiles[..n]);
      if front.Some? then front else if profiles[n].isSuperuser then Some(n) else None
  }

  function Counts(contents: seq<Content>): seq<int> {
    seq(|contents|, i requires 0 <= i < |contents| => ItemLife.UpvoteCount(contents[i]))
  }

  function KarmaOf(rows: Rows, u: UserId): int
    requires u < |rows.profiles|
  {
    Karma.ComputeKarma(rows, Counts(rows.contents), u)
  }

  function PlanCreateSite(rows: Rows, p: UserId, public: bool, nameTaken: bool): (r: Option<Plan>)
    requires p < |rows.profiles|
    ensures r.Some? ==> Sound(rows, r.value)
  {
    if !rows.profiles[p].isSuperuser &&
       (!public
        || KarmaOf(rows, p) < Rules.MIN_KARMA_CREATE_SITE
        || Money.Purse(rows, p) < Rules.CREATE_SITE_COST) then None
    else if nameTaken then None
    else
      var admin := FirstSuperuser(rows.profiles);
      if admin.None? then None
      else Some(Plan(AddSite(DefaultSite(public, p)),
                     Book(Payment(p, admin.value, Rules.CREATE_SITE_COST, SiteCreation))))
  }

  /** Only the moderator names the next moderator. */
  function PlanHandOver(rows: Rows, p: UserId, s: SiteId, u: UserId): (r: Option<Plan>)
    ensures r.Some? ==> Sound(rows, r.value)
  {
    if s < |rows.sites| && rows.sites[s].moderator == p && u < |rows.profiles|
    then Some(Plan(HandOver(s, u), NoMoney)) else None
  }

  // ---- questions and submissions

  function PlanCreateQuestion(rows: Rows, p: UserId, s: SiteId): (r: Option<Plan>)
    requires p < |rows.profiles|
    ensures r.Some? ==> Sound(rows, r.value)
  {
    if !UserInSite(rows, s, Some(p), WriteSiteQuestion) then None
    else if Money.Purse(rows, p) < rows.sites[s].createQuestionCost then None
    else if !UserInSite(rows, s, Some(p), ReadSite) then None
    else Some(Plan(AddItem(Content(p, map[], Question(QuestionRow(s, false)))), NoMoney))
  }

  function PlanCreateSubmission(rows: Rows, p: UserId, s: SiteId): (r: Option<Plan>)
    requires p < |rows.profiles|
    ensures r.Some? ==> Sound(rows, r.value)
  {
    if !UserInSite(rows, s, Some(p), WriteSiteSubmission) then None
    else if Money.Purse(rows, p) < rows.sites[s].createSubmissionCost then None
    else if !UserInSite(rows, s, Some(p), ReadSite) then None
    else Some(Plan(AddItem(Content(p, map[], Submission(SubmissionRow(s, false)))), NoMoney))
  }

  function PlanHideItem(rows: Rows, p: UserId, id: ItemId): (r: Option<Plan>)
    requires id < |rows.contents|
    ensures r.Some? ==> Sound(rows, r.value)
  {
    var c := rows.contents[id];
    if !c.item.Question? && !c.item.Submission? then None
    else
      var s := if c.item.Question? then c.item.question.site else c.item.submission.site;
      if s >= |rows.sites| || (rows.sites[s].moderator != p && c.author != p) then None
      else if c.item.Question? && !UserInSite(rows, s, Some(p), ReadSite) then None
      else Some(Plan(EditItem(id, ItemLife.Hide), NoMoney))
  }

  // ---- answers

  function NewAnswer(s: SiteId, q: ItemId, text: Text, publish: bool, visibility: Visibility, now: int): AnswerRow
    requires text.rendered.Some?
  {
    AnswerRow(s, q, visibility, false, false, publish, text.source, text.rendered.value, text.editor, None, now,
              [], [], [])
  }

  function PlanCreateAnswer(rows: Rows, now: int, p: UserId, q: ItemId, text: Text, publish: bool,
                            visibility: Visibility): (r: Option<Plan>)
    requires p < |rows.profiles|
    ensures r.Some? ==> Sound(rows, r.value)
  {
    if !IsQuestion(rows, q) then None
    else if !UserInSite(rows, SiteOfQuestion(rows, q), Some(p), WriteSiteAnswer) then None
    else if HasLiveAnswer(rows, p, q) || text.rendered.None? then None
    else
      var a := NewAnswer(SiteOfQuestion(rows, q), q, text, publish, visibility, now);
      if AnswerShaped(rows, p, a, p)
      then Some(Plan(AddItem(Content(p, map[], Answer(a))), NoMoney))
      else None
  }

  /** An answer edit stands only if the answer can still be shown to whoever made it. */
  function IfShaped(rows: Rows, id: ItemId, e: AnswerLife.Edit, p: UserId): (r: Option<Plan>)
    requires id < |rows.contents| && rows.contents[id].item.Answer?
    requires AnswerLife.InRange(rows.contents[id].item.answer, e)
  {
    var c := rows.contents[id];
    if AnswerShaped(rows, c.author, AnswerLife.Apply(c.item.answer, e), p)
    then Some(Plan(EditItem(id, ItemLife.OnAnswer(e)), NoMoney))
    else None
  }

  function UpdateOf(isDraft: bool, content: Option<Text>, visibility: Visibility, now: int): AnswerLife.Edit {
    if isDraft && content.Some?
    then AnswerLife.SaveDraft(content.value, visibility)
    else AnswerLife.Publish(content, visibility, now)
  }

  function PlanUpdateAnswer(rows: Rows, now: int, p: UserId, id: ItemId, isDraft: bool, content: Option<Text>,
                            visibility: Visibility): (r: Option<Plan>)
    requires id < |rows.contents|
    ensures r.Some? ==> Sound(rows, r.value)
  {
    var c := rows.contents[id];
    if !c.item.Answer? || c.author != p then None
    else if !IsQuestion(rows, c.item.answer.question) then None
    else if !UserInSite(rows, SiteOfQuestion(rows, c.item.answer.question), Some(p), WriteSiteAnswer) then None
    else
      var e := UpdateOf(isDraft, content, visibility, now);
      if !AnswerLife.InRange(c.item.answer, e) then None else IfShaped(rows, id, e, p)
  }

  function PlanModerateAnswer(rows: Rows, p: UserId, id: ItemId, hidden: Option<bool>): (r: Option<Plan>)
    requires id < |rows.contents|
    ensures r.Some? ==> Sound(rows, r.value)
  {
    var c := rows.contents[id];
    if !c.item.Answer? || !AnswerShaped(rows, c.author, c.item.answer, p) then None
    else if c.item.answer.site >= |rows.sites| || rows.sites[c.item.answer.site].moderator != p then None
    else if hidden.None? then Some(NOTHING)
    else IfShaped(rows, id, AnswerLife.SetHidden(hidden.value), p)
  }

  // ---- suggested edits

  function PlanCreateSuggestEdit(rows: Rows, p: UserId, id: ItemId, text: Text): (r: Option<Plan>)
    requires id < |rows.contents|
    ensures r.Some? ==> Sound(rows, r.value)
  {
    var c := rows.contents[id];
    if !c.item.Answer? || !UserInSite(rows, c.item.answer.site, Some(p), WriteSiteAnswer) then None
    else if c.item.answer.bodyDraft.Some? && c.item.answer.bodyDraft.value != "" then None
    else if Money.Purse(rows, p) < rows.sites[c.item.answer.site].createSuggestionCost then None
    else if text.source == "" then None
    else IfShaped(rows, id, AnswerLife.Suggest(p, text), p)
  }

  /** The edit a status change asks for, or nothing when the machine or its owner forbids it. */
  function Transition(c: Content, now: int, p: UserId, k: nat, status: Status): (r: Option<AnswerLife.Edit>)
    requires c.item.Answer? && k < |c.item.answer.edits|
    ensures r.Some? && !c.item.answer.isDeleted ==> AnswerLife.Fits(c.item.answer, r.value)
    ensures r.Some? ==> AnswerLife.InRange(c.item.answer, r.value)
  {
    var s := c.item.answer.edits[k];
    if s.status.Accepted? then None
    else if s.status.Retracted? then
      if status.Pending? && s.author == p then Some(AnswerLife.Reopen(k)) else None
    else
      match status
      case Accepted =>
        if c.author == p && AnswerLife.Storable(AnswerLife.SuggestedText(s)) then Some(AnswerLife.Accept(k, now))
        else None
      case Rejected => if c.author == p then Some(AnswerLife.Reject(k, now)) else None
      case Retracted => if s.author == p then Some(AnswerLife.Retract(k, now)) else None
      case Pending => None
  }

  function PlanUpdateSuggestEdit(rows: Rows, now: int, p: UserId, id: ItemId, k: nat, status: Status)
    : (r: Option<Plan>)
    requires id < |rows.contents|
    ensures r.Some? ==> Sound(rows, r.value)
  {
    var c := rows.contents[id];
    if !c.item.Answer? || k >= |c.item.answer.edits| then None
    else if !UserInSite(rows, c.item.answer.site, Some(p), WriteSiteAnswer) then None
    else
      var e := Transition(c, now, p, k, status);
      if e.None? || c.item.answer.edits[k].text.source == "" then None
      else IfShaped(rows, id, e.value, p)
  }

  // ---- articles

  function NewArticle(title: string, text: Text, publish: bool, visibility: Visibility, now: int): ArticleRow {
    ArticleRow(visibility, false, publish, title, text.source, text.rendered, text.editor, None, None,
               if publish then Some(now) else None, [])
  }

  function PlanCreateArticle(rows: Rows, now: int, p: UserId, columnOwner: Option<UserId>, title: string,
                             text: Text, publish: bool, visibility: Visibility): (r: Option<Plan>)
    requires p < |rows.profiles|
    ensures r.Some? ==> Sound(rows, r.value)
  {
    if Money.Purse(rows, p) < Rules.CREATE_ARTICLE_COST then None
    else
      var admin := FirstSuperuser(rows.profiles);
      if admin.None? || columnOwner != Some(p) then None
      else Some(Plan(AddItem(Content(p, map[], Article(NewArticle(title, text, publish, visibility, now)))),
                     Book(Payment(p, admin.value, Rules.CREATE_ARTICLE_COST, ArticleCreation))))
  }

  function PlanUpdateArticle(rows: Rows, now: int, p: UserId, id: ItemId, isDraft: bool, title: string,
                             text: Text, visibility: Visibility): (r: Option<Plan>)
    requires id < |rows.contents|
    ensures r.Some? ==> Sound(rows, r.value)
  {
    var c := rows.contents[id];
    if !c.item.Article? || c.author != p then None
    else if isDraft then
      Some(Plan(EditItem(id, ItemLife.OnArticle(ArticleLife.SaveDraft(title, text, visibility))), NoMoney))
    else if c.item.article.isPublished && c.item.article.updatedAt.None? then None
    else
      Some(Plan(EditItem(id, ItemLife.OnArticle(ArticleLife.Publish(title, text, visibility, now))), NoMoney))
  }

  // ---- deletion

  function PlanDeleteItem(rows: Rows, p: UserId, id: ItemId): (r: Option<Plan>)
    requires id < |rows.contents|
    ensures r.Some? ==> Sound(rows, r.value)
  {
    var c := rows.contents[id];
    if c.author != p then None
    else
      match c.item
      case Answer(_) => Some(Plan(EditItem(id, ItemLife.OnAnswer(AnswerLife.Erase)), NoMoney))
      case Article(_) => Some(Plan(EditItem(id, ItemLife.OnArticle(ArticleLife.Erase)), NoMoney))
      case Comment(_) => Some(Plan(EditItem(id, ItemLife.EraseComment), NoMoney))
      case _ => None
  }

  function PlanDeleteDraft(rows: Rows, p: UserId, id: ItemId): (r: Option<Plan>)
    requires id < |rows.contents|
    ensures r.Some? ==> Sound(rows, r.value)
  {
    var c := rows.contents[id];
    if c.author != p then None
    else
      match c.item
      case Answer(a) =>
        if a.bodyDraft.None? || a.bodyDraft.value == "" then None
        else Some(Plan(EditItem(id, ItemLife.OnAnswer(AnswerLife.DropDraft)), NoMoney))
      case Article(_) => Some(Plan(EditItem(id, ItemLife.OnArticle(ArticleLife.DropDraft)), NoMoney))
      case _ => None
  }

  // ---- comments

  function Given(u: Option<Uuid>): nat {
    if u.Some? then 1 else 0
  }

  function ParentsGiven(u: ParentUuids): nat {
    Given(u.question) + Given(u.submission) + Given(u.answer) + Given(u.article) + Given(u.comment)
  }

  predicate NamesParent(u: Option<Uuid>) {
    u.Some? && u.value.Of?
  }

  predicate BlankParent(u: ParentUuids) {
    Some(Blank) in [u.question, u.submission, u.answer, u.article, u.comment]
  }

  /** The row of a comment before its keys are resolved. */
  function Unplaced(content: Text, shared: bool, now: int): CommentRow
    requires content.rendered.Some?
  {
    CommentRow(None, None, None, None, None, None, false, content.source, content.rendered.value, content.editor,
               shared, now)
  }

  /** The comment row for a body that gives exactly one parent. A blank uuid passes the
      exactly-one check but sets no foreign key. */
  function PlacedComment(rows: Rows, now: int, p: UserId, u: ParentUuids, content: Text, shared: bool)
    : (r: Option<CommentRow>)
    requires ParentsGiven(u) == 1 && content.rendered.Some?
    ensures r.Some? ==> !r.value.isDeleted && (IsOrphan(r.value) || HangsOnOne(rows, |rows.contents|, r.value))
    ensures r.Some? ==> (IsOrphan(r.value) <==> BlankParent(u))
  {
    var orphan := Unplaced(content, shared, now);
    if NamesParent(u.question) then
      var q := u.question.value.id;
      if IsQuestion(rows, q) && UserInSite(rows, SiteOfQuestion(rows, q), Some(p), WriteSiteComment)
      then Some(orphan.(site := Some(SiteOfQuestion(rows, q)), questionId := Some(q))) else None
    else if NamesParent(u.submission) then
      var s := u.submission.value.id;
      if s < |rows.contents| && rows.contents[s].item.Submission?
         && UserInSite(rows, rows.contents[s].item.submission.site, Some(p), WriteSiteComment)
      then Some(orphan.(site := Some(rows.contents[s].item.submission.site), submissionId := Some(s))) else None
    else if NamesParent(u.answer) then
      var a := u.answer.value.id;
      if a < |rows.contents| && rows.contents[a].item.Answer?
         && UserInSite(rows, rows.contents[a].item.answer.site, Some(p), WriteSiteComment)
      then Some(orphan.(site := Some(rows.contents[a].item.answer.site), answerId := Some(a))) else None
    else if NamesParent(u.article) then
      var a := u.article.value.id;
      if a < |rows.contents| && rows.contents[a].item.Article?
      then Some(orphan.(articleId := Some(a))) else None
    else if NamesParent(u.comment) then
      var m := u.comment.value.id;
      if m >= |rows.contents| || !rows.contents[m].item.Comment? then None
      else
        var s := rows.contents[m].item.comment.site;
        if s.None? then Some(orphan.(parentCommentId := Some(m)))
        else if UserInSite(rows, s.value, Some(p), WriteSiteComment)
        then Some(orphan.(site := s, parentCommentId := Some(m)))
        else None
    else Some(orphan)
  }

  /** The comment payload can be built for `user`. */
  predicate CommentShaped(rows: Rows, m: CommentRow, user: Option<UserId>) {
    m.site.Some? ==> UserInSite(rows, m.site.value, user, ReadSite)
  }

  function PlanCreateComment(rows: Rows, now: int, p: UserId, u: ParentUuids, content: Text, shared: bool)
    : (r: Option<Plan>)
    requires p < |rows.profiles|
    ensures r.Some? ==> Sound(rows, r.value)
  {
    if ParentsGiven(u) != 1 || content.rendered.None? then None
    else
      var m := PlacedComment(rows, now, p, u, content, shared);
      if m.None? || !CommentShaped(rows, m.value, Some(p)) then None
      else Some(Plan(AddItem(Content(p, map[], Comment(m.value))), NoMoney))
  }

  function PlanUpdateComment(rows: Rows, now: int, p: UserId, id: ItemId, content: Option<Text>, shared: bool,
                             mentioned: Option<seq<string>>): (r: Option<Plan>)
    requires id < |rows.contents|
    ensures r.Some? ==> Sound(rows, r.value)
  {
    var c := rows.contents[id];
    if !c.item.Comment? || c.author != p then None
    else if c.item.comment.site.Some?
            && !UserInSite(rows, c.item.comment.site.value, Some(p), WriteSiteComment) then None
    else if !CommentShaped(rows, c.item.comment, Some(p)) then None
    else Some(Plan(EditItem(id, ItemLife.Revise(content, shared, mentioned, now)), NoMoney))
  }

  // ---- votes

  /** Cast the vote and, unless the voter has voted here before, pay the author. */
  function PaidVote(c: Content, p: UserId, id: ItemId, price: int): Plan {
    Plan(EditItem(id, ItemLife.CastVote(p)),
         if p in c.votes then NoMoney else Book(Payment(p, c.author, price, UpvoteOf(p, id))))
  }

  /** A vote on content of site `s`, priced `price`, that is not already standing. */
  function PlanSiteVote(rows: Rows, p: UserId, id: ItemId, price: int): (r: Option<Plan>)
    requires p < |rows.profiles| && id < |rows.contents| && rows.contents[id].author < |rows.profiles|
    requires !HasActiveVote(rows.contents[id], p)
    ensures r.Some? ==> Sound(rows, r.value)
  {
    var c := rows.contents[id];
    if p == c.author || Money.Purse(rows, p) < price then None
    else Some(PaidVote(c, p, id, price))
  }

  function PlanUpvote(rows: Rows, p: UserId, id: ItemId): (r: Option<Plan>)
    requires p < |rows.profiles| && id < |rows.contents| && rows.contents[id].author < |rows.profiles|
    ensures r.Some? ==> Sound(rows, r.value)
  {
    var c := rows.contents[id];
    var standing := HasActiveVote(c, p);
    match c.item
    case Answer(a) =>
      if standing then Some(NOTHING)
      else if a.site >= |rows.sites| || !IsQuestion(rows, a.question)
              || !UserInSite(rows, SiteOfQuestion(rows, a.question), Some(p), ReadSite) then None
      else PlanSiteVote(rows, p, id, rows.sites[a.site].upvoteAnswerCost)
    case Question(q) =>
      if !UserInSite(rows, q.site, Some(p), ReadSite) then None
      else if standing then Some(NOTHING)
      else PlanSiteVote(rows, p, id, rows.sites[q.site].upvoteQuestionCost)
    case Submission(s) =>
      if !UserInSite(rows, s.site, Some(p), ReadSite) then None
      else if standing then Some(NOTHING)
      else PlanSiteVote(rows, p, id, rows.sites[s.site].upvoteSubmissionCost)
    case Article(_) =>
      if standing then None
      else PlanSiteVote(rows, p, id, Rules.UPVOTE_ARTICLE_COST)
    case Comment(m) =>
      if m.site.Some? && !UserInSite(rows, m.site.value, Some(p), ReadSite) then None
      else if standing then Some(NOTHING)
      else if p == c.author then None
      else Some(Plan(EditItem(id, ItemLife.CastVote(p)), NoMoney))
  }

  function PlanCancelUpvote(rows: Rows, p: UserId, id: ItemId): (r: Option<Plan>)
    requires id < |rows.contents|
    ensures r.Some? ==> Sound(rows, r.value)
  {
    var c := rows.contents[id];
    var standing := HasActiveVote(c, p);
    var cancel := if standing then Plan(EditItem(id, ItemLife.CancelVote(p)), NoMoney) else NOTHING;
    match c.item
    case Answer(a) =>
      if standing && (!IsQuestion(rows, a.question)
                      || !UserInSite(rows, SiteOfQuestion(rows, a.question), Some(p), ReadSite)) then None
      else Some(cancel)
    case Question(q) => if UserInSite(rows, q.site, Some(p), ReadSite) then Some(cancel) else None
    case Submission(s) => if UserInSite(rows, s.site, Some(p), ReadSite) then Some(cancel) else None
    case Article(_) => if standing then Some(cancel) else None
    case Comment(m) =>
      if m.site.Some? && !UserInSite(rows, m.site.value, Some(p), ReadSite) then None else Some(cancel)
  }

  // ---- coins

  function PlanWelcome(rows: Rows, p: UserId, eligible: bool, passed: bool, score: nat): (r: Option<Plan>)
    requires p < |rows.profiles|
    ensures r.Some? ==> Sound(rows, r.value)
  {
    if rows.profiles[p].claimedWelcome || !eligible then None
    else if !passed then Some(NOTHING)
    else Some(Plan(EditUser(p, rows.profiles[p].(claimedWelcome := true)), Book(Deposit(p, score))))
  }

  function PlanInvitation(rows: Rows, p: UserId, sent: int): (r: Option<Plan>)
    requires p < |rows.profiles|
    ensures r.Some? ==> Sound(rows, r.value)
  {
    var admin := FirstSuperuser(rows.profiles);
    if admin.None? then None
    else if sent < Rules.INVITE_NEW_USER_MAX_REWARDED
            && Money.Purse(rows, admin.value) >= Rules.INVITE_NEW_USER_REWARD
    then Some(Plan(NoRow, Book(Payment(admin.value, p, Rules.INVITE_NEW_USER_REWARD, Invitation))))
    else Some(NOTHING)
  }

  function PlanCreateReward(rows: Rows, now: int, p: UserId, receiver: UserId, amount: int, days: int,
                            condition: Option<ItemId>): (r: Option<Plan>)
    requires p < |rows.profiles|
    ensures r.Some? ==> Sound(rows, r.value)
  {
    if amount <= 0 || days <= 0 || receiver >= |rows.profiles| then None
    else if condition.Some? &&
            (!IsQuestion(rows, condition.value)
             || !UserInSite(rows, SiteOfQuestion(rows, condition.value), Some(receiver), WriteSiteAnswer)) then None
    else if Money.Purse(rows, p) < amount then None
    else Some(Plan(NoRow, Book(Reward(p, receiver, amount, now + days * Rules.SECONDS_PER_DAY, condition, Open))))
  }

  predicate Answered(rows: Rows, q: ItemId, giver: UserId) {
    exists i :: 0 <= i < |rows.contents| && AnswersFor(rows, rows.contents[i], q, giver)
  }

  predicate AnswersFor(rows: Rows, c: Content, q: ItemId, giver: UserId) {
    c.item.Answer? && c.item.answer.question == q && CanReadAnswer(rows, c.author, c.item.answer, giver)
  }

  /** The guard of a claim: the receiver, in time, with the condition met. */
  predicate MayClaim(rows: Rows, now: int, p: UserId, k: nat) {
    && Money.IsOpenReward(rows.book, k) && rows.book[k].receiver == p && rows.book[k].expiresAt >= now
    && (rows.book[k].condition.Some? ==> Answered(rows, rows.book[k].condition.value, rows.book[k].giver))
  }

  predicate MayRefund(rows: Rows, p: UserId, k: nat) {
    Money.IsOpenReward(rows.book, k) && rows.book[k].giver == p
  }

  /** A claim pays; the reward's row is left as it is. */
  function PlanClaimReward(rows: Rows, now: int, p: UserId, k: nat): (r: Option<Plan>)
    requires p < |rows.profiles|
    ensures r.Some? ==> Sound(rows, r.value)
  {
    if MayClaim(rows, now, p, k) then Some(Plan(NoRow, Award(k, p))) else None
  }

  function PlanRefundReward(rows: Rows, p: UserId, k: nat): (r: Option<Plan>)
    requires p < |rows.profiles|
    ensures r.Some? ==> Sound(rows, r.value)
  {
    if MayRefund(rows, p, k) then Some(Plan(NoRow, Award(k, p))) else None
  }

  function PlanUpload(rows: Rows, p: UserId, sha: string, figure: bool): (r: Option<Plan>)
    requires p < |rows.profiles|
    ensures r.Some? ==> Sound(rows, r.value)
  {
    if figure && KarmaOf(rows, p) < Rules.MIN_KARMA_UPLOAD_IMAGE then None
    else if !Money.ShaIn(rows.book, sha) && Money.Purse(rows, p) < Rules.UPLOAD_IMAGE_COST then None
    else Some(Plan(NoRow, Book(Upload(p, sha))))
  }

  // ---- every request

  predicate NamesUser(rows: Rows, req: Request) {
    req.SignUp? || req.p < |rows.profiles|
  }

  /** The request is about one existing item. */
  predicate OnItem(req: Request) {
    || req.HideItem? || req.UpdateAnswer? || req.ModerateAnswer? || req.CreateSuggestEdit?
    || req.UpdateSuggestEdit? || req.UpdateArticle? || req.DeleteItem? || req.DeleteDraft?
    || req.UpdateComment? || req.Upvote? || req.CancelUpvote?
  }

  function PlanOnItem(rows: Rows, now: int, req: Request): (r: Option<Plan>)
    requires NamesUser(rows, req) && OnItem(req) && req.id < |rows.contents|
    requires rows.contents[req.id].author < |rows.profiles|
    ensures r.Some? ==> Sound(rows, r.value)
  {
    match req
    case HideItem(p, id) => PlanHideItem(rows, p, id)
    case UpdateAnswer(p, id, isDraft, content, visibility) =>
      PlanUpdateAnswer(rows, now, p, id, isDraft, content, visibility)
    case ModerateAnswer(p, id, hidden) => PlanModerateAnswer(rows, p, id, hidden)
    case CreateSuggestEdit(p, id, text) => PlanCreateSuggestEdit(rows, p, id, text)
    case UpdateSuggestEdit(p, id, k, status) => PlanUpdateSuggestEdit(rows, now, p, id, k, status)
    case UpdateArticle(p, id, isDraft, title, text, visibility) =>
      PlanUpdateArticle(rows, now, p, id, isDraft, title, text, visibility)
    case DeleteItem(p, id) => PlanDeleteItem(rows, p, id)
    case DeleteDraft(p, id) => PlanDeleteDraft(rows, p, id)
    case UpdateComment(p, id, content, shared, mentioned) =>
      PlanUpdateComment(rows, now, p, id, content, shared, mentioned)
    case Upvote(p, id) => PlanUpvote(rows, p, id)
    case CancelUpvote(p, id) => PlanCancelUpvote(rows, p, id)
  }

  function PlanElse(rows: Rows, now: int, req: Request): (r: Option<Plan>)
    requires NamesUser(rows, req) && !OnItem(req)
    ensures r.Some? ==> Sound(rows, r.value)
  {
    match req
    case SignUp(fullName, superuser) => Some(Plan(AddUser(NewProfile(fullName, superuser)), NoMoney))
    case EditProfile(p, filled, work, education) =>
      Some(Plan(EditUser(p, rows.profiles[p].(
        filled := filled, workExperiences := work, educationExperiences := education)), NoMoney))
    case JoinSite(p, s) => if s < |rows.sites| then Some(Plan(Join(p, s), NoMoney)) else None
    case LeaveSite(p, s) => Some(Plan(Leave(p, s), NoMoney))
    case CreateSite(p, public, nameTaken) => PlanCreateSite(rows, p, public, nameTaken)
    case HandOverSite(p, s, u) => PlanHandOver(rows, p, s, u)
    case CreateQuestion(p, s) => PlanCreateQuestion(rows, p, s)
    case CreateSubmission(p, s) => PlanCreateSubmission(rows, p, s)
    case CreateAnswer(p, q, text, publish, visibility) =>
      PlanCreateAnswer(rows, now, p, q, text, publish, visibility)
    case CreateArticle(p, columnOwner, title, text, publish, visibility) =>
      PlanCreateArticle(rows, now, p, columnOwner, title, text, publish, visibility)
    case CreateComment(p, parents, text, shared) => PlanCreateComment(rows, now, p, parents, text, shared)
    case ClaimWelcomeReward(p, eligible, passed, score) => PlanWelcome(rows, p, eligible, passed, score)
    case RewardInvitation(p, sent) => PlanInvitation(rows, p, sent)
    case CreateReward(p, receiver, amount, days, condition) =>
      PlanCreateReward(rows, now, p, receiver, amount, days, condition)
    case ClaimReward(p, k) => PlanClaimReward(rows, now, p, k)
    case RefundReward(p, k) => PlanRefundReward(rows, p, k)
    case UploadImage(p, sha, figure) => PlanUpload(rows, p, sha, figure)
  }

  function PlanOf(rows: Rows, now: int, req: Request): (r: Option<Plan>)
    ensures r.Some? ==> Sound(rows, r.value)
  {
    if !NamesUser(rows, req) then None
    else if !OnItem(req) then PlanElse(rows, now, req)
    else if req.id >= |rows.contents| || rows.contents[req.id].author >= |rows.profiles| then None
    else PlanOnItem(rows, now, req)
  }

  // ---- runs

  datatype Event = Event(now: int, req: Request)

  predicate Granted(rows: Rows, ev: Event) {
    PlanOf(rows, ev.now, ev.req).Some?
  }

  /** A refused request changes nothing. */
  function Step(rows: Rows, ev: Event): Rows {
    var plan := PlanOf(rows, ev.now, ev.req);
    if plan.Some? then Applied(rows, plan.value) else rows
  }

  function Run(rows: Rows, log: seq<Event>): Rows
    decreases |log|
  {
    if log == [] then rows else Run(Step(rows, log[0]), log[1..])
  }
}
