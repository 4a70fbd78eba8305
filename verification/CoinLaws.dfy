/** What each request does to what users hold: who pays whom, how much, and when nothing moves. */
module CoinLaws {
  import opened Basics
  import opened Model
  import opened Requests
  import ItemLife
  import Ledger
  import Money

  /** `u` holds as much more after the request as `x` says. */
  predicate Gains(rows: Rows, ev: Event, u: UserId, x: int) {
    Money.Purse(Step(rows, ev), u) == Money.Purse(rows, u) + x
  }

  function Transfer(from: UserId, to: UserId, amount: int, u: UserId): int {
    (if u == to then amount else 0) - (if u == from then amount else 0)
  }

  lemma PurseStep(rows: Rows, ev: Event, u: UserId)
    ensures var plan := PlanOf(rows, ev.now, ev.req);
      Gains(rows, ev, u, if plan.Some? then Ledger.Charge(rows, plan.value, u) else 0)
  {
    var plan := PlanOf(rows, ev.now, ev.req);
    if plan.Some? {
      Ledger.PurseAfter(rows, plan.value, u);
    }
  }

  // ---- votes

  /** What a first vote costs: the site's price for that kind, 2 for an article, nothing for a comment. */
  function Price(rows: Rows, c: Content): int {
    match c.item
    case Answer(a) => if a.site < |rows.sites| then rows.sites[a.site].upvoteAnswerCost else 0
    case Question(q) => if q.site < |rows.sites| then rows.sites[q.site].upvoteQuestionCost else 0
    case Submission(s) => if s.site < |rows.sites| then rows.sites[s.site].upvoteSubmissionCost else 0
    case Article(_) => 2
    case Comment(_) => 0
  }

  lemma VotePlanned(rows: Rows, now: int, p: UserId, i: ItemId)
    requires i < |rows.contents| && p < |rows.profiles| && rows.contents[i].author < |rows.profiles|
    ensures var c, plan := rows.contents[i], PlanUpvote(rows, p, i);
      plan.Some? ==>
        if HasActiveVote(c, p) then plan.value == NOTHING
        else
          && p != c.author && plan.value.row == EditItem(i, ItemLife.CastVote(p))
          && (!c.item.Comment? ==> Money.Purse(rows, p) >= Price(rows, c))
          && plan.value.money
             == if p in c.votes || c.item.Comment? then NoMoney
                else Book(Payment(p, c.author, Price(rows, c), UpvoteOf(p, i)))
  {
  }

  /** The first vote of `p` on anything but a comment is paid by the voter to the author, at the price
      of that kind, and moves nobody else's coins. A vote that is revived, repeated or refused, and any
      vote on a comment, moves no coins; but to stand again it must still be affordable. */
  lemma VoteMovesCoins(rows: Rows, now: int, p: UserId, i: ItemId, u: UserId)
    requires i < |rows.contents|
    ensures var c, ev := rows.contents[i], Event(now, Upvote(p, i));
      i < |Step(rows, ev).contents| &&
      var d := Step(rows, ev).contents[i];
      && (p !in c.votes && p in d.votes && !c.item.Comment? ==>
            p != c.author && Gains(rows, ev, u, Transfer(p, c.author, Price(rows, c), u)))
      && (p in c.votes || p !in d.votes || c.item.Comment? ==> Gains(rows, ev, u, 0))
      && (!HasActiveVote(c, p) && HasActiveVote(d, p) ==> p != c.author)
      && (!HasActiveVote(c, p) && HasActiveVote(d, p) && !c.item.Comment? ==>
            Money.Purse(rows, p) >= Price(rows, c))
  {
    var ev := Event(now, Upvote(p, i));
    PurseStep(rows, ev, u);
    if p < |rows.profiles| && rows.contents[i].author < |rows.profiles| {
      assert PlanOf(rows, now, ev.req) == PlanUpvote(rows, p, i);
      VotePlanned(rows, now, p, i);
    }
  }

  // ---- charges and grants

  /** Writing an article costs the author 2, paid to the first superuser. */
  lemma ArticleMovesCoins(rows: Rows, now: int, p: UserId, columnOwner: Option<UserId>, title: string, text: Text,
                          publish: bool, visibility: Visibility, u: UserId)
    requires Granted(rows, Event(now, CreateArticle(p, columnOwner, title, text, publish, visibility)))
    ensures Money.Purse(rows, p) >= 2 && FirstSuperuser(rows.profiles).Some?
    ensures Gains(rows, Event(now, CreateArticle(p, columnOwner, title, text, publish, visibility)), u,
                  Transfer(p, FirstSuperuser(rows.profiles).value, 2, u))
  {
    PurseStep(rows, Event(now, CreateArticle(p, columnOwner, title, text, publish, visibility)), u);
  }

  /** Creating a site costs its creator 10, paid to the first superuser; whoever is not a superuser
      needs that much, 100 karma and a public site. */
  lemma SiteMovesCoins(rows: Rows, now: int, p: UserId, public: bool, nameTaken: bool, u: UserId)
    requires Granted(rows, Event(now, CreateSite(p, public, nameTaken)))
    ensures p < |rows.profiles| && !nameTaken && FirstSuperuser(rows.profiles).Some?
    ensures !rows.profiles[p].isSuperuser ==> public && KarmaOf(rows, p) >= 100 && Money.Purse(rows, p) >= 10
    ensures Gains(rows, Event(now, CreateSite(p, public, nameTaken)), u,
                  Transfer(p, FirstSuperuser(rows.profiles).value, 10, u))
  {
    PurseStep(rows, Event(now, CreateSite(p, public, nameTaken)), u);
  }

  /** An invitation pays 5 from the first superuser to the inviter, for fewer than ten sent so far and
      while the superuser has 5. */
  lemma InvitationMovesCoins(rows: Rows, now: int, p: UserId, sent: int, u: UserId)
    requires p < |rows.profiles| && FirstSuperuser(rows.profiles).Some?
    ensures var admin, ev := FirstSuperuser(rows.profiles).value, Event(now, RewardInvitation(p, sent));
      Gains(rows, ev, u, if sent < 10 && Money.Purse(rows, admin) >= 5 then Transfer(admin, p, 5, u) else 0)
  {
    PurseStep(rows, Event(now, RewardInvitation(p, sent)), u);
  }

  /** A passed welcome test deposits its score, once per user. */
  lemma WelcomeMovesCoins(rows: Rows, now: int, p: UserId, eligible: bool, passed: bool, score: nat, u: UserId)
    requires p < |rows.profiles|
    ensures var ev := Event(now, ClaimWelcomeReward(p, eligible, passed, score));
      && Gains(rows, ev, u,
               if u == p && eligible && passed && !rows.profiles[p].claimedWelcome then score else 0)
      && p < |Step(rows, ev).profiles|
      && (Step(rows, ev).profiles[p].claimedWelcome
          <==> rows.profiles[p].claimedWelcome || (eligible && passed))
  {
    PurseStep(rows, Event(now, ClaimWelcomeReward(p, eligible, passed, score)), u);
  }

  /** A picture costs its uploader 2 if nobody has uploaded it before, and nothing otherwise. */
  lemma UploadMovesCoins(rows: Rows, now: int, p: UserId, sha: string, figure: bool, u: UserId)
    requires Granted(rows, Event(now, UploadImage(p, sha, figure)))
    ensures p < |rows.profiles|
    ensures figure ==> KarmaOf(rows, p) >= 100
    ensures var known := exists k :: 0 <= k < |rows.book| && rows.book[k].Upload? && rows.book[k].sha == sha;
      && (!known ==> Money.Purse(rows, p) >= 2)
      && Gains(rows, Event(now, UploadImage(p, sha, figure)), u, if u == p && !known then -2 else 0)
  {
    PurseStep(rows, Event(now, UploadImage(p, sha, figure)), u);
  }

  // ---- rewards

  /** Offering a reward takes a positive amount the giver has, and records an open reward that runs for
      so many days. */
  lemma OfferMovesCoins(rows: Rows, now: int, p: UserId, receiver: UserId, amount: int, days: int,
                        condition: Option<ItemId>, u: UserId)
    requires Granted(rows, Event(now, CreateReward(p, receiver, amount, days, condition)))
    ensures receiver < |rows.profiles| && 0 < amount <= Money.Purse(rows, p) && days > 0
    ensures var ev := Event(now, CreateReward(p, receiver, amount, days, condition));
      && Gains(rows, ev, u, if u == p then -amount else 0)
      && Step(rows, ev).book == rows.book + [Reward(p, receiver, amount, now + days * 86400, condition, Open)]
  {
    PurseStep(rows, Event(now, CreateReward(p, receiver, amount, days, condition)), u);
  }

  /** Some answer to `q` that `reader` may read, or wrote. */
  predicate ReadablyAnswered(rows: Rows, q: ItemId, reader: UserId) {
    exists i :: 0 <= i < |rows.contents| && ReadableAnswer(rows, rows.contents[i], q, reader)
  }

  predicate ReadableAnswer(rows: Rows, c: Content, q: ItemId, reader: UserId) {
    c.item.Answer? &&
    var a := c.item.answer;
    && a.question == q && !a.isDeleted
    && (c.author == reader ||
        (a.isPublished && !a.isHiddenByModerator && a.site < |rows.sites|
         && (rows.sites[a.site].publicReadable || (reader, a.site) in rows.members)))
  }

  lemma ReadablyAnsweredIsAnswered(rows: Rows, q: ItemId, reader: UserId)
    ensures ReadablyAnswered(rows, q, reader) <==> Answered(rows, q, reader)
  {
    assert forall c :: ReadableAnswer(rows, c, q, reader) <==> AnswersFor(rows, c, q, reader);
  }

  /** A claim pays the receiver of an open reward, up to its expiry and, if the reward is for an answer,
      once the giver can read one; any other claim leaves everything alone. */
  lemma ClaimMovesCoins(rows: Rows, now: int, p: UserId, k: nat, u: UserId)
    ensures var ev := Event(now, ClaimReward(p, k));
      if && p < |rows.profiles| && k < |rows.book| && rows.book[k].Reward? && rows.book[k].state.Open?
         && p == rows.book[k].receiver && now <= rows.book[k].expiresAt
         && (rows.book[k].condition.Some? ==> ReadablyAnswered(rows, rows.book[k].condition.value, rows.book[k].giver))
      then Gains(rows, ev, u, if u == p then rows.book[k].amount else 0)
      else Step(rows, ev) == rows
  {
    PurseStep(rows, Event(now, ClaimReward(p, k)), u);
    if k < |rows.book| && rows.book[k].Reward? && rows.book[k].condition.Some? {
      ReadablyAnsweredIsAnswered(rows, rows.book[k].condition.value, rows.book[k].giver);
    }
  }

  /** A refund pays the giver of an open reward, expired or not; any other leaves everything alone. */
  lemma RefundMovesCoins(rows: Rows, now: int, p: UserId, k: nat, u: UserId)
    ensures var ev := Event(now, RefundReward(p, k));
      if && p < |rows.profiles| && k < |rows.book| && rows.book[k].Reward? && rows.book[k].state.Open?
         && p == rows.book[k].giver
      then Gains(rows, ev, u, if u == p then rows.book[k].amount else 0)
      else Step(rows, ev) == rows
  {
    PurseStep(rows, Event(now, RefundReward(p, k)), u);
  }

  // ---- nothing else

  predicate Charges(req: Request) {
    || req.Upvote? || req.CreateArticle? || req.CreateSite? || req.RewardInvitation?
    || req.ClaimWelcomeReward? || req.CreateReward? || req.ClaimReward? || req.RefundReward?
    || req.UploadImage?
  }

  /** No other request moves anyone's coins: not cancelling a vote, nor asking, answering, suggesting,
      commenting, editing, hiding or deleting. */
  lemma NothingElseMovesCoins(rows: Rows, ev: Event, u: UserId)
    requires !Charges(ev.req)
    ensures Gains(rows, ev, u, 0)
    ensures Step(rows, ev).book == rows.book && Step(rows, ev).payouts == rows.payouts
  {
    var plan := PlanOf(rows, ev.now, ev.req);
    if plan.Some? {
      NothingBooked(rows, ev);
      assert BookAfter(rows, plan.value) == rows.book && PayoutsAfter(rows, plan.value) == rows.payouts;
    }
  }

  lemma NothingBooked(rows: Rows, ev: Event)
    requires !Charges(ev.req)
    ensures var plan := PlanOf(rows, ev.now, ev.req); plan.Some? ==> plan.value.money == NoMoney
  {
  }
}
