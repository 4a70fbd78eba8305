/** The three cached columns and what it means for them to be in step with the rows. */
module Columns {
  import opened Basics
  import opened Model
  import opened Requests
  import ItemLife
  import Karma
  import Ledger
  import Money
  import Rewards
  import Rules

  /** A whole database state: the rows, and the columns `User.karma`, `User.remaining_coins` and
      `upvotes_count`. */
  datatype Tables = Tables(rows: Rows, karma: seq<int>, remainingCoins: seq<int>, upvotesCount: seq<int>)

  /** The database whose cached columns are all computed from scratch: karma and counts from the
      rows, coins from the book and the awards made. */
  function Recomputed(rows: Rows): Tables {
    Tables(rows,
           seq(|rows.profiles|, u requires 0 <= u < |rows.profiles| => KarmaOf(rows, u)),
           seq(|rows.profiles|, u requires 0 <= u < |rows.profiles| => Money.Purse(rows, u)),
           Counts(rows.contents))
  }

  /** The coin column as the stored rows alone account for it. */
  function CoinsOfBook(rows: Rows): seq<int> {
    seq(|rows.profiles|, u requires 0 <= u < |rows.profiles| => Money.Balance(rows.book, u))
  }

  lemma CoinsFoldTogether(rows: Rows)
    ensures Recomputed(rows).remainingCoins == CoinsOfBook(rows) <==> Rewards.BalancesFold(rows)
  {
    var a, b := Recomputed(rows).remainingCoins, CoinsOfBook(rows);
    if a == b {
      forall u | 0 <= u < |rows.profiles|
        ensures Money.Purse(rows, u) == Money.Balance(rows.book, u)
      {
        assert a[u] == b[u];
      }
    }
  }

  predicate AuthorsKnown(rows: Rows) {
    forall i :: 0 <= i < |rows.contents| ==> rows.contents[i].author < |rows.profiles|
  }

  predicate CountsInStep(rows: Rows, counts: seq<int>) {
    |counts| == |rows.contents| &&
    forall i :: 0 <= i < |counts| ==> counts[i] == ItemLife.UpvoteCount(rows.contents[i])
  }

  predicate KarmaInStep(rows: Rows, counts: seq<int>, karma: seq<int>) {
    |counts| == |rows.contents| && |karma| == |rows.profiles| &&
    forall u :: 0 <= u < |karma| ==>
      karma[u] == Karma.ProfileKarma(rows.profiles[u]) + Karma.Earned(rows.contents, counts, u)
  }

  predicate CoinsInStep(rows: Rows, coins: seq<int>) {
    |coins| == |rows.profiles| && forall u :: 0 <= u < |coins| ==> coins[u] == Money.Purse(rows, u)
  }

  predicate InStep(t: Tables) {
    && AuthorsKnown(t.rows) && Ledger.BookOfUsers(t.rows)
    && CountsInStep(t.rows, t.upvotesCount)
    && KarmaInStep(t.rows, t.upvotesCount, t.karma)
    && CoinsInStep(t.rows, t.remainingCoins)
  }

  lemma KarmaColumn(t: Tables, u: UserId)
    requires InStep(t) && u < |t.rows.profiles|
    ensures t.karma[u] == KarmaOf(t.rows, u)
  {
    assert Counts(t.rows.contents) == t.upvotesCount;
    Karma.ComputeKarmaInOnePass(t.rows, t.upvotesCount, u);
  }

  /** Columns kept in step are exactly the recomputed ones: nothing drifts. */
  lemma NoDrift(t: Tables)
    requires InStep(t)
    ensures t == Recomputed(t.rows)
  {
    var r := Recomputed(t.rows);
    forall u | 0 <= u < |t.karma|
      ensures t.karma[u] == r.karma[u]
    {
      KarmaColumn(t, u);
    }
    assert t.karma == r.karma && t.remainingCoins == r.remainingCoins && t.upvotesCount == r.upvotesCount;
  }

  // ---- the steps that keep karma in step

  /** Replace one item, refresh its counter, and move its author by the difference of contributions. */
  function Tracked(t: Tables, id: ItemId, c: Content): Tables
    requires id < |t.rows.contents| == |t.upvotesCount| && c.author < |t.karma|
  {
    var n := ItemLife.UpvoteCount(c);
    var delta := Karma.Contribution(c, n) - Karma.Contribution(t.rows.contents[id], t.upvotesCount[id]);
    Tables(t.rows.(contents := t.rows.contents[id := c]),
           t.karma[c.author := t.karma[c.author] + delta],
           t.remainingCoins,
           t.upvotesCount[id := n])
  }

  lemma TrackedInStep(t: Tables, id: ItemId, c: Content)
    requires InStep(t) && id < |t.rows.contents| && c.author == t.rows.contents[id].author
    ensures InStep(Tracked(t, id, c))
  {
    var n := ItemLife.UpvoteCount(c);
    forall u | 0 <= u < |t.karma|
      ensures Karma.Earned(t.rows.contents[id := c], t.upvotesCount[id := n], u)
           == Karma.Earned(t.rows.contents, t.upvotesCount, u)
              + Karma.Share(c, n, u) - Karma.Share(t.rows.contents[id], t.upvotesCount[id], u)
    {
      Karma.EarnedUpdate(t.rows.contents, t.upvotesCount, id, c, n, u);
    }
  }

  /** An update that does not go through tracking: the row changes, karma does not. It keeps step
      exactly when the change is worth nothing. */
  lemma UntrackedInStep(t: Tables, id: ItemId, c: Content)
    requires InStep(t) && id < |t.rows.contents|
    requires c.author == t.rows.contents[id].author && c.votes == t.rows.contents[id].votes
    ensures InStep(t.(rows := t.rows.(contents := t.rows.contents[id := c])))
       <==> Karma.Contribution(c, t.upvotesCount[id])
            == Karma.Contribution(t.rows.contents[id], t.upvotesCount[id])
  {
    var contents := t.rows.contents[id := c];
    assert t.upvotesCount[id := t.upvotesCount[id]] == t.upvotesCount;
    forall u | 0 <= u < |t.karma|
      ensures Karma.Earned(contents, t.upvotesCount, u)
           == Karma.Earned(t.rows.contents, t.upvotesCount, u)
              + Karma.Share(c, t.upvotesCount[id], u) - Karma.Share(t.rows.contents[id], t.upvotesCount[id], u)
    {
      Karma.EarnedUpdate(t.rows.contents, t.upvotesCount, id, c, t.upvotesCount[id], u);
    }
    var after := t.(rows := t.rows.(contents := contents));
    assert AuthorsKnown(after.rows) && CountsInStep(after.rows, after.upvotesCount);
    if Karma.Contribution(c, t.upvotesCount[id]) != Karma.Contribution(t.rows.contents[id], t.upvotesCount[id]) {
      assert after.karma[c.author]
          != Karma.ProfileKarma(t.rows.profiles[c.author]) + Karma.Earned(contents, t.upvotesCount, c.author);
    }
  }

  /** Add a new item nobody has voted on, and give its author what it is worth. */
  function Recorded(t: Tables, c: Content): Tables
    requires c.author < |t.karma|
  {
    Tables(t.rows.(contents := t.rows.contents + [c]),
           t.karma[c.author := t.karma[c.author] + Karma.Contribution(c, 0)],
           t.remainingCoins,
           t.upvotesCount + [0])
  }

  lemma RecordedInStep(t: Tables, c: Content)
    requires InStep(t) && c.author < |t.rows.profiles| && c.votes == map[]
    ensures InStep(Recorded(t, c))
  {
    assert Active(c.votes) == {};
    forall u | 0 <= u < |t.karma|
      ensures Karma.Earned(t.rows.contents + [c], t.upvotesCount + [0], u)
           == Karma.Earned(t.rows.contents, t.upvotesCount, u) + Karma.Share(c, 0, u)
    {
      Karma.EarnedAppend(t.rows.contents, t.upvotesCount, c, 0, u);
    }
  }

  lemma {:induction false} StrangersEarnNothing(contents: seq<Content>, counts: seq<int>, u: UserId)
    requires |counts| == |contents|
    requires forall i :: 0 <= i < |contents| ==> contents[i].author != u
    ensures Karma.Earned(contents, counts, u) == 0
  {
    if contents != [] {
      StrangersEarnNothing(contents[..|contents| - 1], counts[..|counts| - 1], u);
    }
  }

  // ---- the steps that keep coins in step

  /** Append a line to the book and move every balance by what it means. */
  function Booked(t: Tables, e: Entry): Tables {
    t.(rows := t.rows.(book := t.rows.book + [e]),
       remainingCoins := seq(|t.remainingCoins|, u requires 0 <= u < |t.remainingCoins| =>
                               t.remainingCoins[u] + Money.Effect(t.rows.book, e, u)))
  }

  lemma BookedInStep(t: Tables, e: Entry)
    requires InStep(t) && Money.PartiesBelow(e, |t.rows.profiles|)
    ensures InStep(Booked(t, e))
  {
    forall u | 0 <= u < |t.remainingCoins|
      ensures Money.Balance(t.rows.book + [e], u) == Money.Balance(t.rows.book, u) + Money.Effect(t.rows.book, e, u)
    {
      Money.BalanceAppend(t.rows.book, e, u);
    }
  }

  /** Award the amount of reward `k` to `to`, and leave the reward as it is stored. */
  function Awarded(t: Tables, k: nat, to: UserId): Tables
    requires Money.IsOpenReward(t.rows.book, k) && to < |t.remainingCoins|
  {
    var amount := t.rows.book[k].amount;
    t.(rows := t.rows.(payouts := t.rows.payouts + [Payout(to, amount)]),
       remainingCoins := t.remainingCoins[to := t.remainingCoins[to] + amount])
  }

  lemma AwardedInStep(t: Tables, k: nat, to: UserId)
    requires InStep(t) && Money.IsOpenReward(t.rows.book, k) && to < |t.rows.profiles|
    ensures InStep(Awarded(t, k, to))
  {
    forall u | 0 <= u < |t.remainingCoins|
      ensures Awarded(t, k, to).remainingCoins[u] == Money.Purse(Awarded(t, k, to).rows, u)
    {
      Money.PaidOutAppend(t.rows.payouts, Payout(to, t.rows.book[k].amount), u);
    }
  }

  /** The same award with the reward's closing stored. */
  function Closed(t: Tables, k: nat, state: RewardState): Tables
    requires Money.IsOpenReward(t.rows.book, k)
    requires t.rows.book[k].giver < |t.remainingCoins| && t.rows.book[k].receiver < |t.remainingCoins|
  {
    var e := t.rows.book[k];
    var u := if state.Claimed? then e.receiver else e.giver;
    t.(rows := t.rows.(book := Money.Settled(t.rows.book, k, state)),
       remainingCoins := t.remainingCoins[u := t.remainingCoins[u] + e.amount])
  }

  /** Were the closing stored, the award would keep balances equal to the fold of the book with
      nothing left to history: only the lost closing makes awards unaccounted for. */
  lemma ClosedInStep(t: Tables, k: nat, state: RewardState)
    requires InStep(t) && Money.IsOpenReward(t.rows.book, k) && !state.Open?
    ensures Money.PartiesBelow(t.rows.book[k], |t.rows.profiles|)
    ensures InStep(Closed(t, k, state)) && Closed(t, k, state).rows.payouts == t.rows.payouts
  {
    assert Money.PartiesBelow(t.rows.book[k], |t.rows.profiles|);
    var after := Closed(t, k, state);
    forall u | 0 <= u < |t.remainingCoins|
      ensures after.remainingCoins[u] == Money.Purse(after.rows, u)
    {
      Money.BalanceSettle(t.rows.book, k, state, u);
    }
  }

  // ---- users

  lemma NewUserInStep(t: Tables, p: Profile)
    requires InStep(t)
    ensures InStep(Tables(t.rows.(profiles := t.rows.profiles + [p]), t.karma + [Karma.ProfileKarma(p)],
                          t.remainingCoins + [Rules.INITIAL_USER_COINS], t.upvotesCount))
  {
    var n := |t.rows.profiles|;
    StrangersEarnNothing(t.rows.contents, t.upvotesCount, n);
    Ledger.StrangersHaveNothing(t.rows.book, n, n);
    Money.PaidOutToNobody(t.rows.payouts, n, n);
  }

  lemma EditedUserInStep(t: Tables, u: UserId, p: Profile)
    requires InStep(t) && u < |t.rows.profiles|
    ensures var delta := Karma.ProfileKarma(p) - Karma.ProfileKarma(t.rows.profiles[u]);
      InStep(Tables(t.rows.(profiles := t.rows.profiles[u := p]), t.karma[u := t.karma[u] + delta],
                    t.remainingCoins, t.upvotesCount))
  {
  }
}
