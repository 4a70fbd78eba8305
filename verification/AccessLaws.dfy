/** Who gets in: what each request needs of the site it touches, in terms of the site's own flags and
    its members. */
module AccessLaws {
  import opened Basics
  import opened Model
  import opened Requests
  import ArticleLife
  import CoinLaws
  import EditLaws
  import ItemLife
  import Money
  import VoteLaws

  predicate Member(rows: Rows, p: UserId, s: SiteId) {
    (p, s) in rows.members
  }

  predicate MayRead(rows: Rows, p: UserId, s: SiteId) {
    s < |rows.sites| && (rows.sites[s].publicReadable || Member(rows, p, s))
  }

  predicate MayAsk(rows: Rows, p: UserId, s: SiteId) {
    s < |rows.sites| && (rows.sites[s].publicWritableQuestion || Member(rows, p, s))
  }

  predicate MaySubmit(rows: Rows, p: UserId, s: SiteId) {
    s < |rows.sites| && (rows.sites[s].publicWritableSubmission || Member(rows, p, s))
  }

  predicate MayAnswer(rows: Rows, p: UserId, s: SiteId) {
    s < |rows.sites| && (rows.sites[s].publicWritableAnswer || Member(rows, p, s))
  }

  predicate MayComment(rows: Rows, p: UserId, s: SiteId) {
    s < |rows.sites| && (rows.sites[s].publicWritableComment || Member(rows, p, s))
  }

  /** The site an item belongs to; articles and what hangs on them have none. */
  function SiteOf(c: Content): Option<SiteId> {
    match c.item
    case Answer(a) => Some(a.site)
    case Question(q) => Some(q.site)
    case Submission(s) => Some(s.site)
    case Comment(m) => m.site
    case Article(_) => None
  }

  /** Asking and submitting need write and read access and coins at the site's price, and no more. */
  lemma WhoAsks(rows: Rows, now: int, p: UserId, s: SiteId)
    ensures Granted(rows, Event(now, CreateQuestion(p, s)))
       <==> p < |rows.profiles| && MayAsk(rows, p, s) && MayRead(rows, p, s)
            && Money.Purse(rows, p) >= rows.sites[s].createQuestionCost
  {
  }

  lemma WhoSubmits(rows: Rows, now: int, p: UserId, s: SiteId)
    ensures Granted(rows, Event(now, CreateSubmission(p, s)))
       <==> p < |rows.profiles| && MaySubmit(rows, p, s) && MayRead(rows, p, s)
            && Money.Purse(rows, p) >= rows.sites[s].createSubmissionCost
  {
  }

  /** Answering needs write and read access to the question's site, a visible question, a rendered text
      and no undeleted answer of one's own. */
  lemma WhoAnswers(rows: Rows, now: int, p: UserId, q: ItemId, text: Text, publish: bool, visibility: Visibility)
    ensures Granted(rows, Event(now, CreateAnswer(p, q, text, publish, visibility)))
       <==> p < |rows.profiles| && q < |rows.contents| && rows.contents[q].item.Question? && text.rendered.Some?
            && MayAnswer(rows, p, rows.contents[q].item.question.site)
            && MayRead(rows, p, rows.contents[q].item.question.site)
            && (rows.contents[q].item.question.isHidden ==> rows.contents[q].author == p)
            && !(exists i :: 0 <= i < |rows.contents| && IsUndeletedAnswer(rows.contents[i], p, q))
  {
  }

  predicate MaySeeQuestion(rows: Rows, p: UserId, q: ItemId) {
    q < |rows.contents| && rows.contents[q].item.Question? && MayRead(rows, p, rows.contents[q].item.question.site)
    && (rows.contents[q].item.question.isHidden ==> rows.contents[q].author == p)
  }

  /** An answer is updated by its author alone, while it is not deleted, with access to its question and a
      text that can be stored. */
  lemma WhoUpdatesAnswers(rows: Rows, now: int, p: UserId, i: ItemId, isDraft: bool, content: Option<Text>,
                          visibility: Visibility)
    requires i < |rows.contents| && rows.contents[i].item.Answer? && rows.contents[i].author < |rows.profiles|
    ensures var c, a := rows.contents[i], rows.contents[i].item.answer;
      Granted(rows, Event(now, UpdateAnswer(p, i, isDraft, content, visibility)))
      <==> && p == c.author && !a.isDeleted && MaySeeQuestion(rows, p, a.question)
           && MayAnswer(rows, p, rows.contents[a.question].item.question.site)
           && (isDraft || content.None? || content.value.rendered.Some?)
  {
  }

  /** An article is updated by its author alone, deleted or not; that a published one is dated holds of
      all of them. */
  lemma WhoUpdatesArticles(rows: Rows, now: int, p: UserId, i: ItemId, isDraft: bool, title: string, text: Text,
                           visibility: Visibility)
    requires i < |rows.contents| && rows.contents[i].item.Article? && rows.contents[i].author < |rows.profiles|
    requires ArticleLife.Dated(rows.contents[i].item.article)
    ensures Granted(rows, Event(now, UpdateArticle(p, i, isDraft, title, text, visibility)))
       <==> p == rows.contents[i].author
  {
  }

  /** Suggesting an edit needs write access, coins at the site's price, a text, and an answer without a
      draft that one can be shown along with its question. */
  lemma WhoSuggests(rows: Rows, now: int, p: UserId, i: ItemId, text: Text)
    requires i < |rows.contents| && rows.contents[i].item.Answer? && rows.contents[i].author < |rows.profiles|
    ensures var a := rows.contents[i].item.answer;
      Granted(rows, Event(now, CreateSuggestEdit(p, i, text)))
      <==> && p < |rows.profiles| && MayAnswer(rows, p, a.site)
           && Money.Purse(rows, p) >= rows.sites[a.site].createSuggestionCost
           && a.bodyDraft in {None, Some("")} && text.source != "" && !a.isDeleted
           && (p == rows.contents[i].author
               || (a.isPublished && !a.isHiddenByModerator && MayRead(rows, p, a.site)))
           && MaySeeQuestion(rows, p, a.question)
  {
    assert p < |rows.profiles| ==>
      PlanOf(rows, now, CreateSuggestEdit(p, i, text)) == PlanCreateSuggestEdit(rows, p, i, text);
  }

  /** What a uuid names, if it names anything, is there, and its site is open to `p`'s comments. */
  predicate OpenTo(rows: Rows, p: UserId, u: Option<Uuid>) {
    u.Some? && u.value.Of? ==>
      && u.value.id < |rows.contents|
      && var s := SiteOf(rows.contents[u.value.id]);
         s.Some? ==> MayComment(rows, p, s.value) && MayRead(rows, p, s.value)
  }

  /** Each uuid names an item of its own kind, if it names anything. */
  predicate KindsMatch(rows: Rows, u: ParentUuids) {
    && (Names(rows, u.question) ==> rows.contents[u.question.value.id].item.Question?)
    && (Names(rows, u.submission) ==> rows.contents[u.submission.value.id].item.Submission?)
    && (Names(rows, u.answer) ==> rows.contents[u.answer.value.id].item.Answer?)
    && (Names(rows, u.article) ==> rows.contents[u.article.value.id].item.Article?)
    && (Names(rows, u.comment) ==> rows.contents[u.comment.value.id].item.Comment?)
  }

  predicate Names(rows: Rows, u: Option<Uuid>) {
    u.Some? && u.value.Of? && u.value.id < |rows.contents|
  }

  /** Commenting needs exactly one uuid, a rendered text, and write and read access to the site of what
      the uuid names, if it names anything and that has a site. */
  lemma WhoComments(rows: Rows, now: int, p: UserId, u: ParentUuids, text: Text, shared: bool)
    ensures Granted(rows, Event(now, CreateComment(p, u, text, shared)))
       <==> && p < |rows.profiles| && text.rendered.Some? && EditLaws.OnlyOneGiven(u) && KindsMatch(rows, u)
            && OpenTo(rows, p, u.question) && OpenTo(rows, p, u.submission) && OpenTo(rows, p, u.answer)
            && OpenTo(rows, p, u.article) && OpenTo(rows, p, u.comment)
  {
    if p < |rows.profiles| {
      assert PlanOf(rows, now, CreateComment(p, u, text, shared))
          == PlanCreateComment(rows, now, p, u, text, shared);
      CommentPlanned(rows, now, p, u, text, shared);
    }
  }

  lemma CommentPlanned(rows: Rows, now: int, p: UserId, u: ParentUuids, text: Text, shared: bool)
    requires p < |rows.profiles|
    ensures PlanCreateComment(rows, now, p, u, text, shared).Some?
       <==> && text.rendered.Some? && EditLaws.OnlyOneGiven(u) && KindsMatch(rows, u)
            && OpenTo(rows, p, u.question) && OpenTo(rows, p, u.submission) && OpenTo(rows, p, u.answer)
            && OpenTo(rows, p, u.article) && OpenTo(rows, p, u.comment)
  {
  }

  lemma WhoEditsComments(rows: Rows, now: int, p: UserId, i: ItemId, content: Option<Text>, shared: bool,
                         mentioned: Option<seq<string>>)
    requires i < |rows.contents| && rows.contents[i].author < |rows.profiles|
    ensures var c := rows.contents[i];
      Granted(rows, Event(now, UpdateComment(p, i, content, shared, mentioned)))
      <==> c.item.Comment? && p == c.author
           && (c.item.comment.site.Some? ==>
                 MayComment(rows, p, c.item.comment.site.value) && MayRead(rows, p, c.item.comment.site.value))
  {
  }

  /** What an item needs of someone who votes on it or takes the vote back. */
  predicate MayVoteOn(rows: Rows, p: UserId, c: Content) {
    match c.item
    case Answer(a) =>
      a.question < |rows.contents| && rows.contents[a.question].item.Question?
      && MayRead(rows, p, rows.contents[a.question].item.question.site)
    case Question(q) => MayRead(rows, p, q.site)
    case Submission(s) => MayRead(rows, p, s.site)
    case Comment(m) => m.site.Some? ==> MayRead(rows, p, m.site.value)
    case Article(_) => true
  }

  /** A vote that does not stand yet is cast for anyone but the author who may read and, comments apart,
      has the price. */
  lemma WhoVotes(rows: Rows, now: int, p: UserId, i: ItemId)
    requires i < |rows.contents| && p < |rows.profiles| && rows.contents[i].author < |rows.profiles|
    ensures var c, d := rows.contents[i], Step(rows, Event(now, Upvote(p, i))).contents;
      && i < |d|
      && (!VoteLaws.Stands(c, p) ==>
            (VoteLaws.Stands(d[i], p) <==>
              && p != c.author && MayVoteOn(rows, p, c)
              && (c.item.Answer? ==> c.item.answer.site < |rows.sites|)
              && (c.item.Comment? || Money.Purse(rows, p) >= CoinLaws.Price(rows, c))))
  {
    var c := rows.contents[i];
    assert PlanOf(rows, now, Upvote(p, i)) == PlanUpvote(rows, p, i);
    CoinLaws.VotePlanned(rows, now, p, i);
    if !VoteLaws.Stands(c, p) {
      VoteGranted(rows, p, i);
    }
  }

  lemma VoteGranted(rows: Rows, p: UserId, i: ItemId)
    requires i < |rows.contents| && p < |rows.profiles| && rows.contents[i].author < |rows.profiles|
    requires !VoteLaws.Stands(rows.contents[i], p)
    ensures var c := rows.contents[i];
      PlanUpvote(rows, p, i).Some? <==>
        && p != c.author && MayVoteOn(rows, p, c)
        && (c.item.Answer? ==> c.item.answer.site < |rows.sites|)
        && (c.item.Comment? || Money.Purse(rows, p) >= CoinLaws.Price(rows, c))
  {
  }

  /** A vote that stands is cancelled for anyone who may read. */
  lemma WhoCancels(rows: Rows, now: int, p: UserId, i: ItemId)
    requires i < |rows.contents| && p < |rows.profiles| && rows.contents[i].author < |rows.profiles|
    requires VoteLaws.Stands(rows.contents[i], p)
    ensures var d := Step(rows, Event(now, CancelUpvote(p, i))).contents;
      i < |d| && (VoteLaws.Stands(d[i], p) <==> !MayVoteOn(rows, p, rows.contents[i]))
  {
    assert PlanOf(rows, now, CancelUpvote(p, i)) == PlanCancelUpvote(rows, p, i);
    CancelGranted(rows, p, i);
  }

  lemma CancelGranted(rows: Rows, p: UserId, i: ItemId)
    requires i < |rows.contents| && VoteLaws.Stands(rows.contents[i], p)
    ensures var plan := PlanCancelUpvote(rows, p, i);
      if MayVoteOn(rows, p, rows.contents[i])
      then plan.Some? && plan.value.row == EditItem(i, ItemLife.CancelVote(p))
      else plan.None?
  {
  }

  /** Hiding is for the site's moderator and the author; for a question, if they may read the site. */
  lemma WhoHides(rows: Rows, now: int, p: UserId, i: ItemId)
    requires i < |rows.contents| && p < |rows.profiles| && rows.contents[i].author < |rows.profiles|
    ensures var c := rows.contents[i];
      Granted(rows, Event(now, HideItem(p, i)))
      <==> && (c.item.Question? || c.item.Submission?) && SiteOf(c).value < |rows.sites|
           && (p == c.author || p == rows.sites[SiteOf(c).value].moderator)
           && (c.item.Question? ==> MayRead(rows, p, SiteOf(c).value))
  {
  }

  /** Writing an article needs a column of one's own, 2 coins and someone to pay them to. */
  lemma WhoWritesArticles(rows: Rows, now: int, p: UserId, columnOwner: Option<UserId>, title: string, text: Text,
                          publish: bool, visibility: Visibility)
    ensures Granted(rows, Event(now, CreateArticle(p, columnOwner, title, text, publish, visibility)))
       <==> && p < |rows.profiles| && columnOwner == Some(p) && Money.Purse(rows, p) >= 2
            && FirstSuperuser(rows.profiles).Some?
  {
  }

  /** A free name and someone to pay are enough for a superuser; anyone else makes public sites only and
      needs 100 karma and 10 coins. */
  lemma WhoMakesSites(rows: Rows, now: int, p: UserId, public: bool, nameTaken: bool)
    ensures Granted(rows, Event(now, CreateSite(p, public, nameTaken)))
       <==> && p < |rows.profiles| && !nameTaken && FirstSuperuser(rows.profiles).Some?
            && (rows.profiles[p].isSuperuser
                || (public && KarmaOf(rows, p) >= 100 && Money.Purse(rows, p) >= 10))
  {
  }

  /** A reward is offered to an existing user for a positive time and a positive amount the giver has; if
      for an answer, to someone who may answer in the question's site. */
  lemma WhoOffers(rows: Rows, now: int, p: UserId, receiver: UserId, amount: int, days: int,
                  condition: Option<ItemId>)
    ensures Granted(rows, Event(now, CreateReward(p, receiver, amount, days, condition)))
       <==> && p < |rows.profiles| && receiver < |rows.profiles| && days > 0 && 0 < amount <= Money.Purse(rows, p)
            && (condition.Some? ==>
                  && condition.value < |rows.contents| && rows.contents[condition.value].item.Question?
                  && MayAnswer(rows, receiver, rows.contents[condition.value].item.question.site))
  {
  }

  lemma WhoUploads(rows: Rows, now: int, p: UserId, sha: string, figure: bool)
    ensures Granted(rows, Event(now, UploadImage(p, sha, figure)))
       <==> && p < |rows.profiles| && (figure ==> KarmaOf(rows, p) >= 100)
            && ((exists k :: 0 <= k < |rows.book| && rows.book[k].Upload? && rows.book[k].sha == sha)
                || Money.Purse(rows, p) >= 2)
  {
  }

  /** A new site has its creator as moderator and member, is open or closed as a whole, and charges 2 to
      hold for a question or submission, 1 for a suggestion, and 2, 1 and 1 for votes. */
  lemma CreateSiteStep(rows: Rows, now: int, p: UserId, public: bool)
    requires Granted(rows, Event(now, CreateSite(p, public, false)))
    ensures var after, n := Step(rows, Event(now, CreateSite(p, public, false))), |rows.sites|;
      && after.sites == rows.sites + [Site(public, public, public, public, public, true, 2, 2, 1, 2, 1, 1, p)]
      && after.members == rows.members + {(p, n)}
      && after.profiles == rows.profiles && after.contents == rows.contents
  {
  }

  /** Handing a site over names its next moderator; flags, prices and members stay. */
  lemma HandOverStep(rows: Rows, now: int, p: UserId, s: SiteId, u: UserId)
    requires s < |rows.sites| && Granted(rows, Event(now, HandOverSite(p, s, u)))
    ensures Step(rows, Event(now, HandOverSite(p, s, u)))
         == rows.(sites := rows.sites[s := rows.sites[s].(moderator := u)])
  {
  }

  /** A newcomer has a name or nothing in the profile, no claim and nothing else; editing a profile sets
      its fields and neither the claim nor the superuser's flag. */
  lemma ProfileSteps(rows: Rows, now: int, p: UserId, fullName: bool, superuser: bool,
                     filled: set<ProfileField>, work: nat, education: nat)
    requires p < |rows.profiles|
    ensures Step(rows, Event(now, SignUp(fullName, superuser)))
         == rows.(profiles :=
              rows.profiles + [Profile(if fullName then {FullName} else {}, 0, 0, superuser, false)])
    ensures Step(rows, Event(now, EditProfile(p, filled, work, education)))
         == rows.(profiles := rows.profiles[
              p := Profile(filled, work, education, rows.profiles[p].isSuperuser, rows.profiles[p].claimedWelcome)])
  {
  }

  /** Joining and leaving change that one membership. */
  lemma MembershipStep(rows: Rows, now: int, p: UserId, s: SiteId, q: UserId, t: SiteId)
    requires p < |rows.profiles| && s < |rows.sites|
    ensures Member(Step(rows, Event(now, JoinSite(p, s))), q, t) <==> Member(rows, q, t) || (q == p && t == s)
    ensures Member(Step(rows, Event(now, LeaveSite(p, s))), q, t) <==> Member(rows, q, t) && !(q == p && t == s)
  {
  }
}
