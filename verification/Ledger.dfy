/** Whole runs of requests, seen from the book: every party is a user, coins are conserved, each
    voter pays for an item once, and no balance goes below zero unless one branch is taken. */
module Ledger {
  import opened Basics
  import opened Model
  import opened Requests
  import ItemLife
  import Money
  import Rules

  // ---- every line names users

  predicate BookOfUsers(rows: Rows) {
    Money.AllPartiesBelow(rows.book, |rows.profiles|) && Money.PayoutsBelow(rows.payouts, |rows.profiles|)
  }

  lemma BookOfUsersApplied(rows: Rows, plan: Plan)
    requires BookOfUsers(rows) && Sound(rows, plan)
    ensures BookOfUsers(Applied(rows, plan)) && |rows.profiles| <= |Applied(rows, plan).profiles|
  {
  }

  lemma {:induction false} BookOfUsersRun(rows: Rows, log: seq<Event>)
    requires BookOfUsers(rows)
    ensures BookOfUsers(Run(rows, log)) && |rows.profiles| <= |Run(rows, log).profiles|
    decreases |log|
  {
    if log != [] {
      var plan := PlanOf(rows, log[0].now, log[0].req);
      if plan.Some? {
        BookOfUsersApplied(rows, plan.value);
      }
      BookOfUsersRun(Step(rows, log[0]), log[1..]);
    }
  }

  /** After any run, all purses together are the deposits, less what open rewards hold, less the price
      of each distinct picture, plus every award made for a reward: nothing else creates or destroys
      coins. */
  lemma ConservationOfRun(log: seq<Event>)
    ensures var rows := Run(EMPTY, log);
      Money.SumPurses(rows, |rows.profiles|)
      == Money.Deposited(rows.book) - Money.InEscrow(rows.book) - Rules.UPLOAD_IMAGE_COST * |Money.Shas(rows.book)|
         + Money.TotalPaidOut(rows.payouts)
  {
    BookOfUsersRun(EMPTY, log);
    Money.PursesAreConserved(Run(EMPTY, log), |Run(EMPTY, log).profiles|);
  }

  // ---- one payment per voter and item

  function Pays(e: Entry, v: UserId, i: ItemId): nat {
    if e.Payment? && e.memo == UpvoteOf(v, i) then 1 else 0
  }

  /** How often `v` has paid for upvoting `i`. */
  function TimesPaid(book: seq<Entry>, v: UserId, i: ItemId): nat {
    if book == [] then 0 else
      var n := |book| - 1;
      TimesPaid(book[..n], v, i) + Pays(book[n], v, i)
  }

  /** Every upvote of `i`, by whomever. */
  function UpvotePayments(book: seq<Entry>, i: ItemId): nat {
    if book == [] then 0 else
      var n := |book| - 1;
      UpvotePayments(book[..n], i)
      + (if book[n].Payment? && book[n].memo.UpvoteOf? && book[n].memo.item == i then 1 else 0)
  }

  predicate HasPaidRow(rows: Rows, v: UserId, i: ItemId) {
    i < |rows.contents| && !rows.contents[i].item.Comment? && v in rows.contents[i].votes
  }

  function PaidRows(rows: Rows, i: ItemId): nat {
    if i < |rows.contents| && !rows.contents[i].item.Comment? then |rows.contents[i].votes| else 0
  }

  lemma PaidAppend(book: seq<Entry>, e: Entry, v: UserId, i: ItemId)
    ensures TimesPaid(book + [e], v, i) == TimesPaid(book, v, i) + Pays(e, v, i)
    ensures UpvotePayments(book + [e], i)
         == UpvotePayments(book, i)
            + (if e.Payment? && e.memo.UpvoteOf? && e.memo.item == i then 1 else 0)
  {
    assert (book + [e])[..|book|] == book;
  }

  /** A request books an upvote payment exactly when it inserts the voter's first row. */
  predicate PaysForFirstVote(rows: Rows, plan: Plan) {
    match plan.row
    case EditItem(i, CastVote(v)) =>
      i < |rows.contents| &&
      if rows.contents[i].item.Comment? || v in rows.contents[i].votes
      then plan.money == NoMoney
      else plan.money.Book? && plan.money.entry.Payment? && plan.money.entry.memo == UpvoteOf(v, i)
    case _ =>
      plan.money.Book? && plan.money.entry.Payment? ==> !plan.money.entry.memo.UpvoteOf?
  }

  lemma VotesArePaidFor(rows: Rows, ev: Event)
    ensures var plan := PlanOf(rows, ev.now, ev.req); plan.Some? ==> PaysForFirstVote(rows, plan.value)
  {
  }

  /** The plan inserts `v`'s first row on `i`. */
  predicate FirstVote(rows: Rows, plan: Plan, v: UserId, i: ItemId) {
    plan.row == EditItem(i, ItemLife.CastVote(v)) && i < |rows.contents|
    && !rows.contents[i].item.Comment? && v !in rows.contents[i].votes
  }

  predicate SomeFirstVote(rows: Rows, plan: Plan, i: ItemId) {
    plan.row.EditItem? && plan.row.edit.CastVote? && FirstVote(rows, plan, plan.row.edit.voter, i)
  }

  lemma PaidRowsApplied(rows: Rows, plan: Plan, v: UserId, i: ItemId)
    requires Sound(rows, plan)
    ensures HasPaidRow(Applied(rows, plan), v, i) <==> HasPaidRow(rows, v, i) || FirstVote(rows, plan, v, i)
    ensures PaidRows(Applied(rows, plan), i) == PaidRows(rows, i) + (if SomeFirstVote(rows, plan, i) then 1 else 0)
  {
    if plan.row.EditItem? && plan.row.id == i {
      EditAddsRow(rows.contents[i], plan.row.edit, v);
    }
  }

  lemma EditAddsRow(c: Content, e: ItemLife.Edit, v: UserId)
    requires ItemLife.Fits(c, e)
    ensures var d := ItemLife.Apply(c, e);
      && (v in d.votes <==> v in c.votes || e == ItemLife.CastVote(v))
      && |d.votes| == |c.votes| + (if e.CastVote? && e.voter !in c.votes then 1 else 0)
      && (d.item.Comment? <==> c.item.Comment?)
  {
    var d := ItemLife.Apply(c, e);
    if e.CastVote? {
      assert d.votes.Keys == c.votes.Keys + {e.voter};
    } else {
      assert d.votes.Keys == c.votes.Keys;
    }
    assert |d.votes| == |d.votes.Keys| && |c.votes| == |c.votes.Keys|;
  }

  lemma PaymentsApplied(rows: Rows, plan: Plan, v: UserId, i: ItemId)
    requires Sound(rows, plan) && PaysForFirstVote(rows, plan)
    ensures TimesPaid(BookAfter(rows, plan), v, i)
         == TimesPaid(rows.book, v, i) + (if FirstVote(rows, plan, v, i) then 1 else 0)
    ensures UpvotePayments(BookAfter(rows, plan), i)
         == UpvotePayments(rows.book, i) + (if SomeFirstVote(rows, plan, i) then 1 else 0)
  {
    if plan.money.Book? {
      PaidAppend(rows.book, plan.money.entry, v, i);
    }
  }

  /** Over every run: each (voter, item) pair has paid once if the voter has a vote row on
      the item, cancelled or not, and never otherwise; an item's upvote payments are as many as its
      vote rows. Votes on comments are free. */
  lemma {:induction false} PaidOnceRun(rows: Rows, log: seq<Event>, v: UserId, i: ItemId)
    requires TimesPaid(rows.book, v, i) == (if HasPaidRow(rows, v, i) then 1 else 0)
    requires UpvotePayments(rows.book, i) == PaidRows(rows, i)
    ensures var after := Run(rows, log);
      && TimesPaid(after.book, v, i) == (if HasPaidRow(after, v, i) then 1 else 0)
      && UpvotePayments(after.book, i) == PaidRows(after, i)
    decreases |log|
  {
    if log != [] {
      var plan := PlanOf(rows, log[0].now, log[0].req);
      if plan.Some? {
        VotesArePaidFor(rows, log[0]);
        PaidRowsApplied(rows, plan.value, v, i);
        PaymentsApplied(rows, plan.value, v, i);
      }
      PaidOnceRun(Step(rows, log[0]), log[1..], v, i);
    }
  }

  /** The same from the empty database: in every reachable state. */
  lemma PaidOnce(log: seq<Event>, v: UserId, i: ItemId)
    ensures var rows := Run(EMPTY, log);
      && TimesPaid(rows.book, v, i) == (if HasPaidRow(rows, v, i) then 1 else 0)
      && UpvotePayments(rows.book, i) == PaidRows(rows, i)
  {
    PaidOnceRun(EMPTY, log, v, i);
  }

  // ---- one welcome deposit per user

  function DepositsTo(book: seq<Entry>, u: UserId): nat {
    if book == [] then 0 else
      var n := |book| - 1;
      DepositsTo(book[..n], u) + (if book[n].Deposit? && book[n].payee == u then 1 else 0)
  }

  predicate Welcomed(rows: Rows, u: UserId) {
    u < |rows.profiles| && rows.profiles[u].claimedWelcome
  }

  /** A deposit is booked exactly together with setting its payee's flag, which was not set. */
  predicate WelcomesOnce(rows: Rows, plan: Plan) {
    var deposits := plan.money.Book? && plan.money.entry.Deposit?;
    match plan.row
    case AddUser(p) => !p.claimedWelcome && !deposits
    case EditUser(u, p) =>
      u < |rows.profiles| &&
      if deposits
      then plan.money.entry.payee == u && !rows.profiles[u].claimedWelcome && p.claimedWelcome
      else p.claimedWelcome == rows.profiles[u].claimedWelcome
    case _ => !deposits
  }

  lemma DepositsAreWelcomes(rows: Rows, ev: Event)
    ensures var plan := PlanOf(rows, ev.now, ev.req); plan.Some? ==> WelcomesOnce(rows, plan.value)
  {
  }

  lemma WelcomeApplied(rows: Rows, plan: Plan, u: UserId)
    requires Sound(rows, plan) && WelcomesOnce(rows, plan)
    requires DepositsTo(rows.book, u) == (if Welcomed(rows, u) then 1 else 0)
    ensures var after := Applied(rows, plan);
      DepositsTo(after.book, u) == (if Welcomed(after, u) then 1 else 0)
  {
    assert plan.money.Book? ==> (rows.book + [plan.money.entry])[..|rows.book|] == rows.book;
  }

  /** Over every run a user has received exactly one deposit if the welcome test was
      rewarded, and none otherwise. */
  lemma {:induction false} WelcomedOnceRun(rows: Rows, log: seq<Event>, u: UserId)
    requires DepositsTo(rows.book, u) == (if Welcomed(rows, u) then 1 else 0)
    ensures var after := Run(rows, log);
      DepositsTo(after.book, u) == (if Welcomed(after, u) then 1 else 0)
    decreases |log|
  {
    if log != [] {
      var plan := PlanOf(rows, log[0].now, log[0].req);
      if plan.Some? {
        DepositsAreWelcomes(rows, log[0]);
        WelcomeApplied(rows, plan.value, u);
      }
      WelcomedOnceRun(Step(rows, log[0]), log[1..], u);
    }
  }

  /** The same from the empty database: in every reachable state. */
  lemma WelcomedOnce(log: seq<Event>, u: UserId)
    ensures var rows := Run(EMPTY, log);
      DepositsTo(rows.book, u) == (if Welcomed(rows, u) then 1 else 0)
  {
    WelcomedOnceRun(EMPTY, log, u);
  }

  // ---- no balance below zero

  ghost predicate NonNegative(rows: Rows) {
    forall u :: 0 <= u < |rows.profiles| ==> Money.Purse(rows, u) >= 0
  }

  /** The prices the operators set, and the rewards on offer, are not negative. */
  predicate FairPrices(rows: Rows) {
    && (forall s :: 0 <= s < |rows.sites| ==> FairSite(rows.sites[s]))
    && (forall k :: 0 <= k < |rows.book| ==> rows.book[k].Reward? ==> rows.book[k].amount >= 0)
  }

  /** Creating a site is charged to a superuser without the balance check everyone else gets. */
  predicate Overdraws(rows: Rows, req: Request) {
    && req.CreateSite? && !req.nameTaken
    && req.p < |rows.profiles| && rows.profiles[req.p].isSuperuser
    && FirstSuperuser(rows.profiles) != Some(req.p)
    && Money.Purse(rows, req.p) < Rules.CREATE_SITE_COST
  }

  /** What a plan's new line of the book or award means for `u`. */
  function Charge(rows: Rows, plan: Plan, u: UserId): int
    requires Sound(rows, plan)
  {
    match plan.money
    case NoMoney => 0
    case Book(e) => Money.Effect(rows.book, e, u)
    case Award(k, to) => Money.At(to, u, rows.book[k].amount)
  }

  predicate Underwater(rows: Rows, plan: Plan, u: UserId)
    requires Sound(rows, plan)
  {
    Money.Purse(rows, u) + Charge(rows, plan, u) < 0
  }

  lemma GatedItemCharges(rows: Rows, ev: Event, u: UserId)
    requires FairPrices(rows) && OnItem(ev.req)
    requires u < |rows.profiles| && Money.Purse(rows, u) >= 0
    ensures var plan := PlanOf(rows, ev.now, ev.req); plan.Some? ==> !Underwater(rows, plan.value, u)
  {
    if !ev.req.Upvote? {
      OnlyVotesBook(rows, ev);
    }
  }

  lemma OnlyVotesBook(rows: Rows, ev: Event)
    requires OnItem(ev.req) && !ev.req.Upvote?
    ensures var plan := PlanOf(rows, ev.now, ev.req); plan.Some? ==> plan.value.money == NoMoney
  {
  }

  lemma GatedOtherCharges(rows: Rows, ev: Event, u: UserId)
    requires FairPrices(rows) && !OnItem(ev.req)
    requires u < |rows.profiles| && Money.Purse(rows, u) >= 0
    ensures var plan := PlanOf(rows, ev.now, ev.req);
      plan.Some? ==> (Underwater(rows, plan.value, u) <==> Overdraws(rows, ev.req) && ev.req.p == u)
  {
  }

  /** The gate in front of every charge: whoever pays could afford it, one branch excepted. */
  lemma GatedCharges(rows: Rows, ev: Event, u: UserId)
    requires FairPrices(rows)
    requires u < |rows.profiles| && Money.Purse(rows, u) >= 0
    ensures var plan := PlanOf(rows, ev.now, ev.req);
      plan.Some? ==> (Underwater(rows, plan.value, u) <==> Overdraws(rows, ev.req) && ev.req.p == u)
  {
    if OnItem(ev.req) {
      GatedItemCharges(rows, ev, u);
    } else {
      GatedOtherCharges(rows, ev, u);
    }
  }

  lemma {:induction false} StrangersHaveNothing(book: seq<Entry>, n: nat, u: UserId)
    requires Money.AllPartiesBelow(book, n) && u >= n
    ensures Money.Balance(book, u) == 0
  {
    if book != [] {
      StrangersHaveNothing(book[..|book| - 1], n, u);
    }
  }

  lemma FairPricesApplied(rows: Rows, plan: Plan)
    requires FairPrices(rows) && Sound(rows, plan)
    ensures FairPrices(Applied(rows, plan))
  {
  }

  lemma PurseAfter(rows: Rows, plan: Plan, u: UserId)
    requires Sound(rows, plan)
    ensures Money.Purse(Applied(rows, plan), u) == Money.Purse(rows, u) + Charge(rows, plan, u)
  {
    match plan.money
    case NoMoney =>
    case Book(e) => Money.BalanceAppend(rows.book, e, u);
    case Award(k, to) => Money.PaidOutAppend(rows.payouts, Payout(to, rows.book[k].amount), u);
  }

  /** Exactly when one request keeps every balance at zero or above: always, except when a superuser
      who is not the one paid creates a site without the coins for it. */
  lemma NonNegativeStep(rows: Rows, ev: Event)
    requires BookOfUsers(rows) && FairPrices(rows) && NonNegative(rows)
    ensures NonNegative(Step(rows, ev)) <==> !Overdraws(rows, ev.req)
  {
    var plan := PlanOf(rows, ev.now, ev.req);
    if plan.Some? {
      var after := Applied(rows, plan.value);
      forall u | 0 <= u < |after.profiles| && !(Overdraws(rows, ev.req) && ev.req.p == u)
        ensures Money.Purse(after, u) >= 0
      {
        PurseAfter(rows, plan.value, u);
        if u < |rows.profiles| {
          GatedCharges(rows, ev, u);
        } else {
          BookOfUsersApplied(rows, plan.value);
          NewcomerHasNothing(rows, plan.value, u);
        }
      }
      if Overdraws(rows, ev.req) {
        PurseAfter(rows, plan.value, ev.req.p);
        GatedCharges(rows, ev, ev.req.p);
      }
    }
  }

  lemma NewcomerHasNothing(rows: Rows, plan: Plan, u: UserId)
    requires Sound(rows, plan) && BookOfUsers(rows) && u >= |rows.profiles|
    ensures Money.Purse(Applied(rows, plan), u) == 0
  {
    var after := Applied(rows, plan);
    assert Money.AllPartiesBelow(after.book, |rows.profiles|);
    StrangersHaveNothing(after.book, |rows.profiles|, u);
    Money.PaidOutToNobody(after.payouts, |rows.profiles|, u);
  }

  ghost predicate NeverNegative(rows: Rows, log: seq<Event>)
    decreases |log|
  {
    NonNegative(rows) && (log == [] || NeverNegative(Step(rows, log[0]), log[1..]))
  }

  ghost predicate NeverOverdraws(rows: Rows, log: seq<Event>)
    decreases |log|
  {
    log == [] || (!Overdraws(rows, log[0].req) && NeverOverdraws(Step(rows, log[0]), log[1..]))
  }

  /** Over whole runs: balances stay at zero or above throughout exactly when that branch is never
      taken. */
  lemma {:induction false} NeverNegativeExactly(rows: Rows, log: seq<Event>)
    requires BookOfUsers(rows) && FairPrices(rows) && NonNegative(rows)
    ensures NeverNegative(rows, log) <==> NeverOverdraws(rows, log)
    decreases |log|
  {
    if log != [] {
      NonNegativeStep(rows, log[0]);
      if !Overdraws(rows, log[0].req) {
        FairStep(rows, log[0]);
        NeverNegativeExactly(Step(rows, log[0]), log[1..]);
      }
    }
  }

  lemma FairStep(rows: Rows, ev: Event)
    requires BookOfUsers(rows) && FairPrices(rows)
    ensures BookOfUsers(Step(rows, ev)) && FairPrices(Step(rows, ev))
  {
    var plan := PlanOf(rows, ev.now, ev.req);
    if plan.Some? {
      BookOfUsersApplied(rows, plan.value);
      FairPricesApplied(rows, plan.value);
    }
  }

  predicate SoleSuperuser(profiles: seq<Profile>) {
    forall u, w :: 0 <= u < |profiles| && 0 <= w < |profiles| && profiles[u].isSuperuser && profiles[w].isSuperuser
      ==> u == w
  }

  lemma SuperusersStay(rows: Rows, plan: Plan)
    requires Sound(rows, plan)
    ensures SoleSuperuser(Applied(rows, plan).profiles) ==> SoleSuperuser(rows.profiles)
  {
    var after := Applied(rows, plan).profiles;
    assert forall u :: 0 <= u < |rows.profiles| ==> u < |after| && after[u].isSuperuser == rows.profiles[u].isSuperuser;
  }

  /** With at most one superuser, no run of requests with non-negative amounts ever takes a balance
      below zero. */
  lemma {:induction false} NonNegativeRun(rows: Rows, log: seq<Event>)
    requires BookOfUsers(rows) && FairPrices(rows) && NonNegative(rows)
    requires SoleSuperuser(Run(rows, log).profiles)
    ensures SoleSuperuser(rows.profiles)
    ensures NonNegative(Run(rows, log))
    decreases |log|
  {
    if log != [] {
      FairStep(rows, log[0]);
      SoleSuperuserEarlier(rows, log);
      NonNegativeStep(rows, log[0]);
      NonNegativeRun(Step(rows, log[0]), log[1..]);
    }
  }

  lemma {:induction false} SoleSuperuserEarlier(rows: Rows, log: seq<Event>)
    requires SoleSuperuser(Run(rows, log).profiles)
    ensures SoleSuperuser(rows.profiles)
    decreases |log|
  {
    if log != [] {
      SoleSuperuserEarlier(Step(rows, log[0]), log[1..]);
      var plan := PlanOf(rows, log[0].now, log[0].req);
      if plan.Some? {
        SuperusersStay(rows, plan.value);
      }
    }
  }

  lemma SignUpStep(rows: Rows, superuser: bool)
    ensures Step(rows, Event(0, SignUp(false, superuser)))
         == rows.(profiles := rows.profiles + [NewProfile(false, superuser)])
  {
  }

  lemma SiteByPoorSuperuser(rows: Rows, p: UserId)
    requires p < |rows.profiles| && rows.profiles[p].isSuperuser && FirstSuperuser(rows.profiles).Some?
    ensures Step(rows, Event(0, CreateSite(p, true, false))).book
         == rows.book + [Payment(p, FirstSuperuser(rows.profiles).value, Rules.CREATE_SITE_COST, SiteCreation)]
    ensures Step(rows, Event(0, CreateSite(p, true, false))).payouts == rows.payouts
  {
  }

  /** Two superusers and an empty purse are enough to see a negative balance. */
  lemma SecondSuperuserGoesNegative()
    ensures var signUp, create := Event(0, SignUp(false, true)), Event(0, CreateSite(1, true, false));
      Money.Purse(Run(EMPTY, [signUp, signUp, create]), 1) == -Rules.CREATE_SITE_COST
  {
    var signUp, create := Event(0, SignUp(false, true)), Event(0, CreateSite(1, true, false));
    var r1 := Step(EMPTY, signUp);
    var r2 := Step(r1, signUp);
    var log := [signUp, signUp, create];
    assert log[1..] == [signUp, create] && [signUp, create][1..] == [create] && [create][1..] == [];
    assert Run(EMPTY, log) == Run(r1, [signUp, create]) == Run(r2, [create]) == Step(r2, create);
    SignUpStep(EMPTY, true);
    SignUpStep(r1, true);
    TwoSuperusers(r2.profiles);
    SiteByPoorSuperuser(r2, 1);
    Money.BalanceAppend([], Payment(1, 0, Rules.CREATE_SITE_COST, SiteCreation), 1);
  }

  lemma TwoSuperusers(profiles: seq<Profile>)
    requires profiles == [NewProfile(false, true), NewProfile(false, true)]
    ensures FirstSuperuser(profiles) == Some(0)
  {
    assert profiles[..1] == [NewProfile(false, true)] && profiles[..1][..0] == [];
    assert FirstSuperuser(profiles[..1]) == Some(0);
  }
}
