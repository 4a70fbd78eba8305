/** Coins as a function of the book: each user's balance is a fold over the payments, deposits,
    rewards and uploads recorded so far, and the totals are conserved. What a user really holds is
    that balance and the awards for rewards, which are not recorded. */
module Money {
  import opened Model
  import Rules

  // ---- one user's balance

  predicate ShaIn(book: seq<Entry>, sha: string) {
    exists k :: 0 <= k < |book| && book[k].Upload? && book[k].sha == sha
  }

  /** `x` for user `a`, nothing for anyone else. */
  function At(a: UserId, u: UserId, x: int): int {
    if a == u then x else 0
  }

  /** What entry `e`, recorded after `before`, means for `u`. An upload is charged only when it is
      the first of its content. */
  function Effect(before: seq<Entry>, e: Entry, u: UserId): int {
    match e
    case Payment(payer, payee, amount, _) => At(payee, u, amount) - At(payer, u, amount)
    case Deposit(payee, amount) => At(payee, u, amount)
    case Reward(giver, receiver, amount, _, _, state) =>
      (if state.Claimed? then At(receiver, u, amount) else 0)
      - (if state.Refunded? then 0 else At(giver, u, amount))
    case Upload(uploader, sha) =>
      if ShaIn(before, sha) then 0 else -At(uploader, u, Rules.UPLOAD_IMAGE_COST)
  }

  function Balance(book: seq<Entry>, u: UserId): int {
    if book == [] then Rules.INITIAL_USER_COINS else
      var n := |book| - 1;
      Balance(book[..n], u) + Effect(book[..n], book[n], u)
  }

  lemma BalanceAppend(book: seq<Entry>, e: Entry, u: UserId)
    ensures Balance(book + [e], u) == Balance(book, u) + Effect(book, e, u)
  {
    assert (book + [e])[..|book|] == book;
  }

  predicate IsOpenReward(book: seq<Entry>, k: nat) {
    k < |book| && book[k].Reward? && book[k].state.Open?
  }

  function Settled(book: seq<Entry>, k: nat, state: RewardState): seq<Entry>
    requires IsOpenReward(book, k)
  {
    book[k := book[k].(state := state)]
  }

  /** What closing an open reward would mean if it were stored: claiming moves its amount to the
      receiver, refunding returns it to the giver, and nobody else's balance changes. */
  lemma {:induction false} BalanceSettle(book: seq<Entry>, k: nat, state: RewardState, u: UserId)
    requires IsOpenReward(book, k) && !state.Open?
    ensures Balance(Settled(book, k, state), u)
         == Balance(book, u)
            + At(if state.Claimed? then book[k].receiver else book[k].giver, u, book[k].amount)
  {
    var n := |book| - 1;
    var after := Settled(book, k, state);
    if k == n {
      assert after[..n] == book[..n];
    } else {
      BalanceSettle(book[..n], k, state, u);
      assert after[..n] == Settled(book[..n], k, state);
      assert after[n] == book[n];
      if book[n].Upload? {
        SettlingKeepsShas(book[..n], k, state, book[n].sha);
      }
    }
  }

  lemma SettlingKeepsShas(book: seq<Entry>, k: nat, state: RewardState, sha: string)
    requires IsOpenReward(book, k)
    ensures ShaIn(Settled(book, k, state), sha) <==> ShaIn(book, sha)
  {
    var after := Settled(book, k, state);
    assert forall j :: 0 <= j < |book| && book[j].Upload? ==> after[j] == book[j];
    assert forall j :: 0 <= j < |book| && after[j].Upload? ==> after[j] == book[j];
  }

  // ---- awards nobody records

  function PaidOut(payouts: seq<Payout>, u: UserId): int {
    if payouts == [] then 0 else
      var n := |payouts| - 1;
      PaidOut(payouts[..n], u) + At(payouts[n].to, u, payouts[n].amount)
  }

  /** What `u` holds. */
  function Purse(rows: Rows, u: UserId): int {
    Balance(rows.book, u) + PaidOut(rows.payouts, u)
  }

  lemma PaidOutAppend(payouts: seq<Payout>, p: Payout, u: UserId)
    ensures PaidOut(payouts + [p], u) == PaidOut(payouts, u) + At(p.to, u, p.amount)
  {
    assert (payouts + [p])[..|payouts|] == payouts;
  }

  function TotalPaidOut(payouts: seq<Payout>): int {
    if payouts == [] then 0 else
      var n := |payouts| - 1;
      TotalPaidOut(payouts[..n]) + payouts[n].amount
  }

  predicate PayoutsBelow(payouts: seq<Payout>, n: nat) {
    forall k :: 0 <= k < |payouts| ==> payouts[k].to < n
  }

  predicate PayoutsPositive(payouts: seq<Payout>) {
    forall k :: 0 <= k < |payouts| ==> payouts[k].amount > 0
  }

  lemma {:induction false} PaidOutToNobody(payouts: seq<Payout>, n: nat, u: UserId)
    requires PayoutsBelow(payouts, n) && u >= n
    ensures PaidOut(payouts, u) == 0
  {
    if payouts != [] {
      PaidOutToNobody(payouts[..|payouts| - 1], n, u);
    }
  }

  lemma {:induction false} PaidOutIsNotNegative(payouts: seq<Payout>, u: UserId)
    requires PayoutsPositive(payouts)
    ensures PaidOut(payouts, u) >= 0 && TotalPaidOut(payouts) >= |payouts|
    ensures payouts != [] ==> PaidOut(payouts, payouts[|payouts| - 1].to) > 0
  {
    if payouts != [] {
      var n := |payouts| - 1;
      PaidOutIsNotNegative(payouts[..n], u);
      PaidOutIsNotNegative(payouts[..n], payouts[n].to);
    }
  }

  // ---- all users together

  function SumBalances(book: seq<Entry>, n: nat): int {
    if n == 0 then 0 else SumBalances(book, n - 1) + Balance(book, n - 1)
  }

  function Deposited(book: seq<Entry>): int {
    if book == [] then 0 else
      var n := |book| - 1;
      Deposited(book[..n]) + (if book[n].Deposit? then book[n].amount else 0)
  }

  /** Coins that have left their giver and not yet reached anyone. */
  function InEscrow(book: seq<Entry>): int {
    if book == [] then 0 else
      var n := |book| - 1;
      InEscrow(book[..n]) + (if book[n].Reward? && book[n].state.Open? then book[n].amount else 0)
  }

  function Shas(book: seq<Entry>): set<string> {
    set k | 0 <= k < |book| && book[k].Upload? :: book[k].sha
  }

  /** Every party of the entry is one of the first `n` users. */
  predicate PartiesBelow(e: Entry, n: nat) {
    match e
    case Payment(payer, payee, _, _) => payer < n && payee < n
    case Deposit(payee, _) => payee < n
    case Reward(giver, receiver, _, _, _, _) => giver < n && receiver < n
    case Upload(uploader, _) => uploader < n
  }

  predicate AllPartiesBelow(book: seq<Entry>, n: nat) {
    forall k :: 0 <= k < |book| ==> PartiesBelow(book[k], n)
  }

  /** What `e` adds to the first `n` balances together. */
  function Net(before: seq<Entry>, e: Entry, n: nat): int {
    match e
    case Payment(payer, payee, amount, _) => (if payee < n then amount else 0) - (if payer < n then amount else 0)
    case Deposit(payee, amount) => if payee < n then amount else 0
    case Reward(giver, receiver, amount, _, _, state) =>
      (if state.Claimed? && receiver < n then amount else 0)
      - (if !state.Refunded? && giver < n then amount else 0)
    case Upload(uploader, sha) =>
      if ShaIn(before, sha) || uploader >= n then 0 else -Rules.UPLOAD_IMAGE_COST
  }

  lemma {:induction false} SumGrowsByNet(book: seq<Entry>, e: Entry, n: nat)
    ensures SumBalances(book + [e], n) == SumBalances(book, n) + Net(book, e, n)
  {
    if n > 0 {
      SumGrowsByNet(book, e, n - 1);
      BalanceAppend(book, e, n - 1);
    }
  }

  lemma {:induction false} NothingYet(n: nat)
    ensures SumBalances([], n) == 0
  {
    if n > 0 {
      NothingYet(n - 1);
    }
  }

  /** Conservation: all balances together are what was deposited, less what is held in open
      rewards, less the price of each distinct picture. Payments, self-payments included, add nothing. */
  lemma {:induction false} CoinsAreConserved(book: seq<Entry>, n: nat)
    requires AllPartiesBelow(book, n)
    ensures SumBalances(book, n)
         == Deposited(book) - InEscrow(book) - Rules.UPLOAD_IMAGE_COST * |Shas(book)|
  {
    if book == [] {
      NothingYet(n);
    } else {
      var m := |book| - 1;
      var front, e := book[..m], book[m];
      CoinsAreConserved(front, n);
      assert book == front + [e];
      SumGrowsByNet(front, e, n);
      ShasGrow(front, e);
    }
  }

  lemma ShasGrow(book: seq<Entry>, e: Entry)
    ensures |Shas(book + [e])| == |Shas(book)| + (if e.Upload? && !ShaIn(book, e.sha) then 1 else 0)
  {
    var after := book + [e];
    forall s
      ensures s in Shas(after) <==> s in Shas(book) || (e.Upload? && s == e.sha)
    {
      if s in Shas(book) {
        var k :| 0 <= k < |book| && book[k].Upload? && book[k].sha == s;
        assert after[k] == book[k];
      }
      if e.Upload? && s == e.sha {
        assert after[|book|] == e;
      }
    }
    assert Shas(after) == Shas(book) + (if e.Upload? then {e.sha} else {});
  }

  function SumPurses(rows: Rows, n: nat): int {
    if n == 0 then 0 else SumPurses(rows, n - 1) + Purse(rows, n - 1)
  }

  function SumPaidOut(payouts: seq<Payout>, n: nat): int {
    if n == 0 then 0 else SumPaidOut(payouts, n - 1) + PaidOut(payouts, n - 1)
  }

  lemma {:induction false} PursesSplit(rows: Rows, n: nat)
    ensures SumPurses(rows, n) == SumBalances(rows.book, n) + SumPaidOut(rows.payouts, n)
  {
    if n > 0 {
      PursesSplit(rows, n - 1);
    }
  }

  lemma {:induction false} SumPaidOutGrows(payouts: seq<Payout>, p: Payout, n: nat)
    ensures SumPaidOut(payouts + [p], n) == SumPaidOut(payouts, n) + (if p.to < n then p.amount else 0)
  {
    if n > 0 {
      SumPaidOutGrows(payouts, p, n - 1);
      PaidOutAppend(payouts, p, n - 1);
    }
  }

  lemma {:induction false} NothingPaidOut(n: nat)
    ensures SumPaidOut([], n) == 0
  {
    if n > 0 {
      NothingPaidOut(n - 1);
    }
  }

  lemma {:induction false} AllPaidOut(payouts: seq<Payout>, n: nat)
    requires PayoutsBelow(payouts, n)
    ensures SumPaidOut(payouts, n) == TotalPaidOut(payouts)
  {
    if payouts == [] {
      NothingPaidOut(n);
    } else {
      var m := |payouts| - 1;
      AllPaidOut(payouts[..m], n);
      SumPaidOutGrows(payouts[..m], payouts[m], n);
      assert payouts == payouts[..m] + [payouts[m]];
    }
  }

  /** Conservation with the awards counted in: what everyone holds exceeds what the book accounts for
      by exactly the awards made. */
  lemma PursesAreConserved(rows: Rows, n: nat)
    requires AllPartiesBelow(rows.book, n) && PayoutsBelow(rows.payouts, n)
    ensures SumPurses(rows, n)
         == Deposited(rows.book) - InEscrow(rows.book) - Rules.UPLOAD_IMAGE_COST * |Shas(rows.book)|
            + TotalPaidOut(rows.payouts)
  {
    PursesSplit(rows, n);
    CoinsAreConserved(rows.book, n);
    AllPaidOut(rows.payouts, n);
  }
}
