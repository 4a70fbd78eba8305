/** The database session and the crud layer: the code that changes rows, and with them, incrementally,
    the karma, coin and counter columns. Every method that is done leaves all three in step. */
module Database {
  import opened Basics
  import opened Model
  import opened Columns
  import AnswerLife
  import ArticleLife
  import CommentUpdate
  import ItemLife
  import Karma
  import Money
  import Rules

  class Session {
    var rows: Rows
    var karma: seq<int>
    var remainingCoins: seq<int>
    var upvotesCount: seq<int>
    var stored: Tables    // what the database holds: the state at the last commit
    var committed: bool

    function Live(): Tables
      reads this
    {
      Tables(rows, karma, remainingCoins, upvotesCount)
    }

    constructor ()
      ensures Live() == stored == Recomputed(EMPTY) && InStep(Live())
    {
      rows, karma, remainingCoins, upvotesCount := EMPTY, [], [], [];
      stored := Tables(EMPTY, [], [], []);
      committed := false;
    }

    // ---- karma.py

    method Move(u: UserId, delta: int)
      requires u < |karma|
      modifies `karma
      ensures karma == old(karma)[u := old(karma)[u] + delta]
    {
      if delta != 0 {
        karma := karma[u := karma[u] + delta];
      }
    }

    // ---- the crud layer

    /** Write one content row in place, as an attribute assignment does. */
    method Put(id: ItemId, c: Content)
      requires id < |rows.contents|
      modifies `rows
      ensures rows == old(rows).(contents := old(rows).contents[id := c])
    {
      rows := rows.(contents := rows.contents[id := c]);
    }

    method Create(c: Content) returns (id: ItemId)
      requires InStep(Live()) && c.author < |rows.profiles| && c.votes == map[]
      modifies `rows, `karma, `upvotesCount
      ensures InStep(Live()) && id == |old(rows).contents|
      ensures rows == old(rows).(contents := old(rows).contents + [c])
    {
      RecordedInStep(Live(), c);
      id := |rows.contents|;
      rows := rows.(contents := rows.contents + [c]);
      upvotesCount := upvotesCount + [0];
      Move(c.author, Karma.Contribution(c, upvotesCount[id]));
    }

    method CastVote(id: ItemId, voter: UserId)
      requires InStep(Live()) && id < |rows.contents|
      modifies `rows, `karma, `upvotesCount
      ensures InStep(Live())
      ensures var c := old(rows).contents[id];
        rows == old(rows).(contents := old(rows).contents[id := c.(votes := ItemLife.Upvoted(c.votes, voter))])
    {
      var c := rows.contents[id];
      var before := Karma.Contribution(c, upvotesCount[id]);
      ghost var d := c.(votes := ItemLife.Upvoted(c.votes, voter));
      ItemLife.CastMovesCount(c.votes, voter);
      TrackedInStep(Live(), id, d);
      if voter !in c.votes {
        Put(id, c.(votes := c.votes[voter := false]));
        upvotesCount := upvotesCount[id := upvotesCount[id] + 1];
      } else if c.votes[voter] {
        upvotesCount := upvotesCount[id := upvotesCount[id] + 1];
        Put(id, c.(votes := c.votes[voter := false]));
      } else {
        assert c.votes == c.votes[voter := false];
      }
      if !c.item.Comment? {
        Move(c.author, Karma.Contribution(rows.contents[id], upvotesCount[id]) - before);
      }
      assert Live() == Tracked(old(Live()), id, d);
    }

    method CancelVote(id: ItemId, voter: UserId)
      requires InStep(Live()) && id < |rows.contents|
      modifies `rows, `karma, `upvotesCount
      ensures InStep(Live())
      ensures var c := old(rows).contents[id];
        rows == old(rows).(contents := old(rows).contents[id := c.(votes := ItemLife.Cancelled(c.votes, voter))])
    {
      var c := rows.contents[id];
      var before := Karma.Contribution(c, upvotesCount[id]);
      ghost var d := c.(votes := ItemLife.Cancelled(c.votes, voter));
      ItemLife.CancelMovesCount(c.votes, voter);
      TrackedInStep(Live(), id, d);
      if voter in c.votes && !c.votes[voter] {
        upvotesCount := upvotesCount[id := upvotesCount[id] - 1];
        assert upvotesCount[id] >= 0;
        Put(id, c.(votes := c.votes[voter := true]));
      }
      if !c.item.Comment? {
        Move(c.author, Karma.Contribution(rows.contents[id], upvotesCount[id]) - before);
      }
      assert Live() == Tracked(old(Live()), id, d);
    }

    /** Write the fields of one row through the tracked update. */
    method Update(id: ItemId, item: Item)
      requires InStep(Live()) && id < |rows.contents|
      modifies `rows, `karma
      ensures InStep(Live())
      ensures rows == old(rows).(contents := old(rows).contents[id := old(rows).contents[id].(item := item)])
    {
      var c := rows.contents[id];
      TrackedInStep(Live(), id, c.(item := item));
      var before := Karma.Contribution(c, upvotesCount[id]);
      Put(id, c.(item := item));
      Move(c.author, Karma.Contribution(rows.contents[id], upvotesCount[id]) - before);
      assert Live() == Tracked(old(Live()), id, c.(item := item));
    }

    /** The untracked update of a comment: set every field that is an attribute of the row. */
    method UpdateComment(id: ItemId, fields: seq<CommentUpdate.Field>)
      requires InStep(Live()) && id < |rows.contents| && rows.contents[id].item.Comment?
      requires forall f :: f in fields ==> !f.IsDeleted?
      modifies `rows
      ensures InStep(Live())
      ensures var c := old(rows).contents[id];
        rows == old(rows).(contents := old(rows).contents[id :=
          c.(item := Comment(CommentUpdate.Assign(c.item.comment, fields)))])
    {
      ghost var before, c := rows, rows.contents[id];
      assert before.contents[id := c] == before.contents;
      for k := 0 to |fields|
        invariant rows == before.(contents := before.contents[id :=
          c.(item := Comment(CommentUpdate.Assign(c.item.comment, fields[..k])))])
      {
        assert fields[..k + 1][..k] == fields[..k];
        var d := rows.contents[id];
        if CommentUpdate.IsAttribute(fields[k]) {
          Put(id, d.(item := Comment(CommentUpdate.SetAttribute(d.item.comment, fields[k]))));
        }
      }
      assert fields[..|fields|] == fields;
      CommentUpdate.DeletionFlagKept(c.item.comment, fields);
      UntrackedInStep(old(Live()), id, rows.contents[id]);
    }

    method Redact(archives: seq<Archive>) returns (r: seq<Archive>)
      ensures r == AnswerLife.Redacted(archives)
    {
      r := archives;
      for k := 0 to |archives|
        invariant |r| == |archives|
        invariant forall j :: 0 <= j < k ==> r[j] == archives[j].(body := DELETED)
        invariant forall j :: k <= j < |r| ==> r[j] == archives[j]
      {
        r := r[k := r[k].(body := DELETED)];
      }
    }

    method DeleteAnswer(id: ItemId)
      requires InStep(Live()) && id < |rows.contents| && rows.contents[id].item.Answer?
      modifies `rows, `karma, `upvotesCount
      ensures InStep(Live())
      ensures var c := old(rows).contents[id];
        rows == old(rows).(contents := old(rows).contents[id :=
          c.(item := Answer(AnswerLife.Apply(c.item.answer, AnswerLife.Erase)))])
    {
      var a := rows.contents[id].item.answer;
      var archives := Redact(a.archives);
      a := a.(isDeleted := true);
      a := a.(body := DELETED, bodyDraft := Some(DELETED), rendered := DELETED);
      a := a.(archives := archives);
      Update(id, Answer(a));
    }

    method DeleteArticle(id: ItemId)
      requires InStep(Live()) && id < |rows.contents| && rows.contents[id].item.Article?
      modifies `rows, `karma, `upvotesCount
      ensures InStep(Live())
      ensures var c := old(rows).contents[id];
        rows == old(rows).(contents := old(rows).contents[id :=
          c.(item := Article(ArticleLife.Apply(c.item.article, ArticleLife.Erase)))])
    {
      var a := rows.contents[id].item.article;
      var archives := Redact(a.archives);
      a := a.(isDeleted := true);
      a := a.(body := DELETED, bodyDraft := Some(DELETED));
      a := a.(archives := archives);
      Update(id, Article(a));
    }

    method DeleteComment(id: ItemId)
      requires InStep(Live()) && id < |rows.contents| && rows.contents[id].item.Comment?
      modifies `rows, `karma, `upvotesCount
      ensures InStep(Live())
      ensures var c := old(rows).contents[id];
        rows == old(rows).(contents := old(rows).contents[id := ItemLife.Apply(c, ItemLife.EraseComment)])
    {
      var c := rows.contents[id];
      var before := Karma.Contribution(c, upvotesCount[id]);
      var d := c.(item := Comment(c.item.comment.(isDeleted := true, body := DELETED, rendered := DELETED)));
      TrackedInStep(Live(), id, d);
      Put(id, d);
      Move(c.author, Karma.Contribution(rows.contents[id], upvotesCount[id]) - before);
      assert Live() == Tracked(old(Live()), id, d);
    }

    // ---- coins.py and the rows that record its calls

    method DeductCoins(u: UserId, amount: int)
      requires u < |remainingCoins|
      modifies `remainingCoins
      ensures remainingCoins == old(remainingCoins)[u := old(remainingCoins)[u] - amount]
    {
      remainingCoins := remainingCoins[u := remainingCoins[u] - amount];
    }

    method AwardCoins(u: UserId, amount: int)
      requires u < |remainingCoins|
      modifies `remainingCoins
      ensures remainingCoins == old(remainingCoins)[u := old(remainingCoins)[u] + amount]
    {
      remainingCoins := remainingCoins[u := remainingCoins[u] + amount];
    }

    method AddEntry(e: Entry)
      modifies `rows
      ensures rows == old(rows).(book := old(rows).book + [e])
    {
      rows := rows.(book := rows.book + [e]);
    }

    method MakePayment(payer: UserId, payee: UserId, amount: int, memo: Memo)
      requires InStep(Live()) && payer < |rows.profiles| && payee < |rows.profiles|
      modifies `rows, `remainingCoins
      ensures InStep(Live())
      ensures rows == old(rows).(book := old(rows).book + [Payment(payer, payee, amount, memo)])
    {
      BookedInStep(Live(), Payment(payer, payee, amount, memo));
      DeductCoins(payer, amount);
      AwardCoins(payee, amount);
      AddEntry(Payment(payer, payee, amount, memo));
      assert Live() == Booked(old(Live()), Payment(payer, payee, amount, memo));
    }

    method MakeDeposit(payee: UserId, amount: int)
      requires InStep(Live()) && payee < |rows.profiles|
      modifies `rows, `remainingCoins
      ensures InStep(Live())
      ensures rows == old(rows).(book := old(rows).book + [Deposit(payee, amount)])
    {
      BookedInStep(Live(), Deposit(payee, amount));
      AwardCoins(payee, amount);
      AddEntry(Deposit(payee, amount));
      assert Live() == Booked(old(Live()), Deposit(payee, amount));
    }

    method CreateReward(giver: UserId, receiver: UserId, amount: int, expiresAt: int, condition: Option<ItemId>)
      requires InStep(Live()) && giver < |rows.profiles| && receiver < |rows.profiles|
      modifies `rows, `remainingCoins
      ensures InStep(Live())
      ensures rows == old(rows).(
        book := old(rows).book + [Reward(giver, receiver, amount, expiresAt, condition, Open)])
    {
      var reward := Reward(giver, receiver, amount, expiresAt, condition, Open);
      BookedInStep(Live(), reward);
      DeductCoins(giver, amount);
      AddEntry(reward);
      assert Live() == Booked(old(Live()), reward);
    }

    /** Set the closing time of a reward, in the session only. */
    method SetState(k: nat, state: RewardState)
      requires Money.IsOpenReward(rows.book, k)
      modifies `rows
      ensures rows == old(rows).(book := Money.Settled(old(rows).book, k, state))
    {
      rows := rows.(book := rows.book[k := rows.book[k].(state := state)]);
    }

    /** Reload a row: whatever was set and not flushed is discarded. */
    method Refresh(k: nat, inDatabase: Entry)
      requires k < |rows.book|
      modifies `rows
      ensures rows == old(rows).(book := old(rows).book[k := inDatabase])
    {
      rows := rows.(book := rows.book[k := inDatabase]);
    }

    /** Pay out an open reward. The session never flushes by itself and nothing here asks it to, so
        the refresh finds the row as it was loaded: the award stays, the closing is lost. */
    method PayReward(k: nat, state: RewardState)
      requires InStep(Live()) && Money.IsOpenReward(rows.book, k) && !state.Open?
      modifies `rows, `remainingCoins
      ensures InStep(Live()) && Money.IsOpenReward(rows.book, k)
      ensures var e := old(rows).book[k];
        rows == old(rows).(
          payouts := old(rows).payouts + [Payout(if state.Claimed? then e.receiver else e.giver, e.amount)])
    {
      ghost var before := Live();
      var loaded := rows.book[k];
      var to := if state.Claimed? then loaded.receiver else loaded.giver;
      assert Money.PartiesBelow(rows.book[k], |rows.profiles|);
      AwardedInStep(before, k, to);
      SetState(k, state);
      AwardCoins(to, loaded.amount);
      rows := rows.(payouts := rows.payouts + [Payout(to, loaded.amount)]);
      Refresh(k, loaded);
      assert rows.book == before.rows.book;
      assert Live() == Awarded(before, k, to);
    }

    /** Record an upload, and charge it when its content is new. */
    method RecordUpload(u: UserId, sha: string, isNew: bool)
      requires InStep(Live()) && u < |rows.profiles| && isNew == !Money.ShaIn(rows.book, sha)
      modifies `rows, `remainingCoins
      ensures InStep(Live())
      ensures rows == old(rows).(book := old(rows).book + [Upload(u, sha)])
    {
      BookedInStep(Live(), Upload(u, sha));
      if isNew {
        DeductCoins(u, Rules.UPLOAD_IMAGE_COST);
      }
      AddEntry(Upload(u, sha));
      assert Live() == Booked(old(Live()), Upload(u, sha));
    }

    // ---- users and sites

    method CreateUser(profile: Profile)
      requires InStep(Live())
      modifies `rows, `karma, `remainingCoins
      ensures InStep(Live())
      ensures rows == old(rows).(profiles := old(rows).profiles + [profile])
    {
      NewUserInStep(Live(), profile);
      var u := |rows.profiles|;
      rows := rows.(profiles := rows.profiles + [profile]);
      remainingCoins := remainingCoins + [Rules.INITIAL_USER_COINS];
      karma := karma + [0];
      Move(u, Karma.ProfileKarma(profile));
      assert karma == old(karma) + [Karma.ProfileKarma(profile)];
    }

    method UpdateUser(u: UserId, profile: Profile)
      requires InStep(Live()) && u < |rows.profiles|
      modifies `rows, `karma
      ensures InStep(Live())
      ensures rows == old(rows).(profiles := old(rows).profiles[u := profile])
    {
      EditedUserInStep(Live(), u, profile);
      var before := Karma.ProfileKarma(rows.profiles[u]);
      rows := rows.(profiles := rows.profiles[u := profile]);
      Move(u, Karma.ProfileKarma(rows.profiles[u]) - before);
    }

    method CreateSite(site: Site)
      requires InStep(Live())
      modifies `rows
      ensures InStep(Live())
      ensures rows == old(rows).(sites := old(rows).sites + [site])
    {
      rows := rows.(sites := rows.sites + [site]);
    }

    method SetModerator(s: SiteId, u: UserId)
      requires InStep(Live()) && s < |rows.sites|
      modifies `rows
      ensures InStep(Live())
      ensures rows == old(rows).(sites := old(rows).sites[s := old(rows).sites[s].(moderator := u)])
    {
      rows := rows.(sites := rows.sites[s := rows.sites[s].(moderator := u)]);
    }

    method SetMember(u: UserId, s: SiteId, isMember: bool)
      requires InStep(Live())
      modifies `rows
      ensures InStep(Live())
      ensures rows == old(rows).(
        members := if isMember then old(rows).members + {(u, s)} else old(rows).members - {(u, s)})
    {
      rows := rows.(members := if isMember then rows.members + {(u, s)} else rows.members - {(u, s)});
    }

    // ---- the transaction

    method Commit()
      modifies `stored, `committed
      ensures stored == Live() && committed
    {
      stored := Live();
      committed := true;
    }

    method Rollback()
      modifies this
      ensures Live() == stored == old(stored) && !committed
    {
      rows, karma := stored.rows, stored.karma;
      remainingCoins, upvotesCount := stored.remainingCoins, stored.upvotesCount;
      committed := false;
    }

    /** Leave the request: what was not committed is undone. */
    method Close()
      modifies this
      ensures stored == old(stored)
      ensures Live() == if old(committed) then old(Live()) else stored
      ensures !committed
    {
      if !committed {
        Rollback();
      }
      committed := false;
    }
  }
}
