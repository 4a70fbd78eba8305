/** Claims and refunds over whole runs: they pay, leave the reward open, and so can be made again.
    What users hold is accounted for by the stored rows exactly as long as none is made. */
module Rewards {
  import opened Basics
  import opened Model
  import opened Requests
  import Ledger
  import Money
  import Rules

  /** Rewards are for positive amounts, all of them are open, and so were all awards positive. */
  ghost predicate RewardsOpen(rows: Rows) {
    && (forall k :: 0 <= k < |rows.book| && rows.book[k].Reward? ==>
          rows.book[k].state.Open? && rows.book[k].amount > 0)
    && Money.PayoutsPositive(rows.payouts)
  }

  lemma RewardsOpenApplied(rows: Rows, plan: Plan)
    requires RewardsOpen(rows) && Sound(rows, plan)
    ensures RewardsOpen(Applied(rows, plan))
  {
  }

  /** Over every run no reward is ever stored as claimed or refunded. */
  lemma {:induction false} RewardsStayOpen(rows: Rows, log: seq<Event>)
    requires RewardsOpen(rows)
    ensures RewardsOpen(Run(rows, log))
    decreases |log|
  {
    if log != [] {
      var plan := PlanOf(rows, log[0].now, log[0].req);
      if plan.Some? {
        RewardsOpenApplied(rows, plan.value);
      }
      RewardsStayOpen(Step(rows, log[0]), log[1..]);
    }
  }

  /** The request is a claim or a refund that passes its guard. */
  predicate PassesGuard(rows: Rows, ev: Event) {
    match ev.req
    case ClaimReward(p, k) => p < |rows.profiles| && MayClaim(rows, ev.now, p, k)
    case RefundReward(p, k) => p < |rows.profiles| && MayRefund(rows, p, k)
    case _ => false
  }

  lemma AwardsPlanned(rows: Rows, ev: Event)
    ensures var plan := PlanOf(rows, ev.now, ev.req);
      && (PassesGuard(rows, ev) <==> plan.Some? && plan.value.money.Award?)
      && (PassesGuard(rows, ev) ==> plan.value == Plan(NoRow, Award(ev.req.k, ev.req.p)))
  {
  }

  ghost predicate EverPaysOut(rows: Rows, log: seq<Event>)
    decreases |log|
  {
    log != [] && (PassesGuard(rows, log[0]) || EverPaysOut(Step(rows, log[0]), log[1..]))
  }

  lemma {:induction false} PayoutsOfRun(rows: Rows, log: seq<Event>)
    ensures Run(rows, log).payouts == [] <==> rows.payouts == [] && !EverPaysOut(rows, log)
    decreases |log|
  {
    if log != [] {
      AwardsPlanned(rows, log[0]);
      var plan := PlanOf(rows, log[0].now, log[0].req);
      if plan.Some? {
        assert Applied(rows, plan.value).payouts == PayoutsAfter(rows, plan.value);
      }
      PayoutsOfRun(Step(rows, log[0]), log[1..]);
    }
  }

  /** What every user holds is what the stored rows account for. */
  ghost predicate BalancesFold(rows: Rows) {
    forall u :: 0 <= u < |rows.profiles| ==> Money.Purse(rows, u) == Money.Balance(rows.book, u)
  }

  ghost predicate TotalsFold(rows: Rows) {
    Money.SumPurses(rows, |rows.profiles|)
    == Money.Deposited(rows.book) - Money.InEscrow(rows.book) - Rules.UPLOAD_IMAGE_COST * |Money.Shas(rows.book)|
  }

  /** After any run, balances are the fold of the stored rows, and coins are conserved by the stored
      rows, exactly when no claim and no refund ever passed its guard. */
  lemma BalancesFoldExactly(log: seq<Event>)
    ensures var rows := Run(EMPTY, log);
      && (BalancesFold(rows) <==> !EverPaysOut(EMPTY, log))
      && (TotalsFold(rows) <==> !EverPaysOut(EMPTY, log))
  {
    var rows := Run(EMPTY, log);
    Ledger.ConservationOfRun(log);
    PayoutsOfRun(EMPTY, log);
    RewardsStayOpen(EMPTY, log);
    Ledger.BookOfUsersRun(EMPTY, log);
    FoldsWithoutPayouts(rows);
  }

  lemma FoldsWithoutPayouts(rows: Rows)
    requires Ledger.BookOfUsers(rows) && Money.PayoutsPositive(rows.payouts)
    ensures BalancesFold(rows) <==> rows.payouts == []
    ensures Money.TotalPaidOut(rows.payouts) == 0 <==> rows.payouts == []
  {
    Money.PaidOutIsNotNegative(rows.payouts, 0);
    if rows.payouts != [] {
      var to := rows.payouts[|rows.payouts| - 1].to;
      assert Money.Purse(rows, to) > Money.Balance(rows.book, to);
    }
  }

  lemma AwardStep(rows: Rows, ev: Event)
    requires PassesGuard(rows, ev)
    ensures Step(rows, ev) == rows.(payouts := rows.payouts + [Payout(ev.req.p, rows.book[ev.req.k].amount)])
    ensures PassesGuard(Step(rows, ev), ev)
  {
    AwardsPlanned(rows, ev);
    var after := rows.(payouts := rows.payouts + [Payout(ev.req.p, rows.book[ev.req.k].amount)]);
    assert Step(rows, ev) == after;
    AnsweredKept(rows, after);
  }

  lemma AnsweredKept(rows: Rows, after: Rows)
    requires after.(payouts := rows.payouts) == rows
    ensures forall q, giver :: Answered(after, q, giver) <==> Answered(rows, q, giver)
  {
    forall q, giver
      ensures Answered(after, q, giver) <==> Answered(rows, q, giver)
    {
      assert forall c :: AnswersFor(after, c, q, giver) <==> AnswersFor(rows, c, q, giver);
    }
  }

  function Repeated(ev: Event, n: nat): (log: seq<Event>)
    ensures |log| == n
  {
    if n == 0 then [] else [ev] + Repeated(ev, n - 1)
  }

  lemma AwardPays(rows: Rows, ev: Event)
    requires PassesGuard(rows, ev)
    ensures var after := Step(rows, ev);
      && after.book == rows.book && PassesGuard(after, ev)
      && Money.Purse(after, ev.req.p) == Money.Purse(rows, ev.req.p) + rows.book[ev.req.k].amount
  {
    AwardStep(rows, ev);
    Money.PaidOutAppend(rows.payouts, Payout(ev.req.p, rows.book[ev.req.k].amount), ev.req.p);
  }

  lemma RunRepeated(rows: Rows, ev: Event, n: nat)
    requires n > 0
    ensures Run(rows, Repeated(ev, n)) == Run(Step(rows, ev), Repeated(ev, n - 1))
  {
    assert Repeated(ev, n)[1..] == Repeated(ev, n - 1);
  }

  function Times(n: nat, amount: int): int {
    if n == 0 then 0 else amount + Times(n - 1, amount)
  }

  lemma {:induction false} TimesIsProduct(n: nat, amount: int)
    ensures Times(n, amount) == n * amount
  {
    if n > 0 {
      TimesIsProduct(n - 1, amount);
      assert n * amount == (n - 1) * amount + amount;
    }
  }

  lemma {:induction false} RepeatsPay(rows: Rows, ev: Event, n: nat)
    requires PassesGuard(rows, ev)
    ensures var after, amount := Run(rows, Repeated(ev, n)), rows.book[ev.req.k].amount;
      && after.book == rows.book && PassesGuard(after, ev)
      && Money.Purse(after, ev.req.p) == Money.Purse(rows, ev.req.p) + Times(n, amount)
    decreases n
  {
    if n > 0 {
      AwardPays(rows, ev);
      RunRepeated(rows, ev, n);
      RepeatsPay(Step(rows, ev), ev, n - 1);
    }
  }

  /** A claim or refund that passes its guard passes it again, and pays again, any number of times. */
  lemma EveryRepeatPays(rows: Rows, ev: Event, n: nat)
    requires PassesGuard(rows, ev)
    ensures var after := Run(rows, Repeated(ev, n));
      && after.book == rows.book && PassesGuard(after, ev)
      && Money.Purse(after, ev.req.p) == Money.Purse(rows, ev.req.p) + n * rows.book[ev.req.k].amount
  {
    RepeatsPay(rows, ev, n);
    TimesIsProduct(n, rows.book[ev.req.k].amount);
  }

  lemma {:induction false} RunConcat(rows: Rows, log: seq<Event>, more: seq<Event>)
    ensures Run(rows, log + more) == Run(Run(rows, log), more)
    decreases |log|
  {
    if log == [] {
      assert log + more == more;
    } else {
      RunConcat(Step(rows, log[0]), log[1..], more);
      assert (log + more)[1..] == log[1..] + more;
    }
  }

  const SIGN_UP := Event(0, SignUp(false, false))
  const EARN_FIVE := Event(0, ClaimWelcomeReward(0, true, true, 5))
  const PROMISE_FIVE := Event(0, CreateReward(0, 1, 5, 1, None))
  const CLAIM_FIVE := Event(0, ClaimReward(1, 1))

  /** With five coins in the whole system, claiming a reward of five twice leaves its receiver with
      ten, and the reward open. */
  lemma ClaimedTwiceIsPaidTwice()
    ensures var rows := Run(EMPTY, [SIGN_UP, SIGN_UP, EARN_FIVE, PROMISE_FIVE] + Repeated(CLAIM_FIVE, 2));
      && Money.Deposited(rows.book) == 5 && Money.Purse(rows, 1) == 10
      && Money.IsOpenReward(rows.book, 1)
  {
    RunConcat(EMPTY, [SIGN_UP, SIGN_UP, EARN_FIVE, PROMISE_FIVE], Repeated(CLAIM_FIVE, 2));
    var rows := PromisedFive();
    EveryRepeatPays(rows, CLAIM_FIVE, 2);
  }

  lemma PromisedFive() returns (rows: Rows)
    ensures rows == Run(EMPTY, [SIGN_UP, SIGN_UP, EARN_FIVE, PROMISE_FIVE])
    ensures Money.Deposited(rows.book) == 5 && Money.Purse(rows, 1) == 0 && PassesGuard(rows, CLAIM_FIVE)
    ensures rows.book[1].amount == 5
  {
    var r2 := TwoUsers();
    RunConcat(EMPTY, [SIGN_UP, SIGN_UP], [EARN_FIVE, PROMISE_FIVE]);
    assert [SIGN_UP, SIGN_UP] + [EARN_FIVE, PROMISE_FIVE] == [SIGN_UP, SIGN_UP, EARN_FIVE, PROMISE_FIVE];
    assert [EARN_FIVE, PROMISE_FIVE][1..] == [PROMISE_FIVE] && [PROMISE_FIVE][1..] == [];
    EarnFive(r2);
    var r3 := Step(r2, EARN_FIVE);
    PromiseFive(r3);
    rows := Step(r3, PROMISE_FIVE);
    assert Run(r2, [EARN_FIVE, PROMISE_FIVE]) == Run(r3, [PROMISE_FIVE]) == Run(rows, []) == rows;
    BookOfFive(rows.book[1]);
  }

  lemma FirstFive()
    ensures Money.Deposited([Deposit(0, 5)]) == 5
    ensures Money.Balance([Deposit(0, 5)], 0) == 5 && Money.Balance([Deposit(0, 5)], 1) == 0
  {
    Money.BalanceAppend([], Deposit(0, 5), 0);
    Money.BalanceAppend([], Deposit(0, 5), 1);
    assert [] + [Deposit(0, 5)] == [Deposit(0, 5)];
    assert [Deposit(0, 5)][..0] == [];
  }

  lemma BookOfFive(reward: Entry)
    requires reward == Reward(0, 1, 5, Rules.SECONDS_PER_DAY, None, Open)
    ensures Money.Deposited([Deposit(0, 5), reward]) == 5 && Money.Balance([Deposit(0, 5), reward], 1) == 0
  {
    FirstFive();
    assert [Deposit(0, 5), reward][..1] == [Deposit(0, 5)];
    assert [Deposit(0, 5)] + [reward] == [Deposit(0, 5), reward];
    Money.BalanceAppend([Deposit(0, 5)], reward, 1);
  }

  lemma TwoUsers() returns (rows: Rows)
    ensures rows == Run(EMPTY, [SIGN_UP, SIGN_UP])
    ensures rows == EMPTY.(profiles := [NewProfile(false, false), NewProfile(false, false)])
  {
    assert [SIGN_UP, SIGN_UP][1..] == [SIGN_UP] && [SIGN_UP][1..] == [];
    Ledger.SignUpStep(EMPTY, false);
    var r1 := Step(EMPTY, SIGN_UP);
    Ledger.SignUpStep(r1, false);
    rows := Step(r1, SIGN_UP);
    assert Run(EMPTY, [SIGN_UP, SIGN_UP]) == Run(r1, [SIGN_UP]) == Run(rows, []) == rows;
  }

  lemma EarnFive(rows: Rows)
    requires rows == EMPTY.(profiles := [NewProfile(false, false), NewProfile(false, false)])
    ensures Step(rows, EARN_FIVE).book == [Deposit(0, 5)] && Step(rows, EARN_FIVE).payouts == []
    ensures |Step(rows, EARN_FIVE).profiles| == 2
  {
  }

  lemma PromiseFive(rows: Rows)
    requires rows.book == [Deposit(0, 5)] && rows.payouts == [] && |rows.profiles| == 2
    ensures var reward := Reward(0, 1, 5, Rules.SECONDS_PER_DAY, None, Open);
      Step(rows, PROMISE_FIVE) == rows.(book := [Deposit(0, 5), reward])
  {
    FirstFive();
  }
}
