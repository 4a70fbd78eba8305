/** Whose votes are whose: what a vote and its cancellation do to the vote table of an item, and that
    nothing else does. */
module VoteLaws {
  import opened Basics
  import opened Model
  import opened Requests
  import ItemLife

  /** The vote tables `before` and `after` differ at most in the row of `p`. */
  predicate OnlyVoteOf(before: map<UserId, bool>, after: map<UserId, bool>, p: UserId) {
    && (forall v :: v in before && v != p ==> v in after && after[v] == before[v])
    && (forall v :: v in after && v != p ==> v in before)
    && (p in before ==> p in after)
  }

  predicate Stands(c: Content, v: UserId) {
    v in c.votes && !c.votes[v]
  }

  predicate Turns(plan: Plan, i: ItemId) {
    plan.row.EditItem? && plan.row.id == i && (plan.row.edit.CastVote? || plan.row.edit.CancelVote?)
  }

  lemma VoteApplied(rows: Rows, plan: Plan, i: ItemId)
    requires Sound(rows, plan) && i < |rows.contents|
    ensures i < |Applied(rows, plan).contents|
    ensures var c, d := rows.contents[i], Applied(rows, plan).contents[i];
      if Turns(plan, i)
      then d.item == c.item && OnlyVoteOf(c.votes, d.votes, plan.row.edit.voter)
           && plan.row.edit.voter in d.votes && d.votes[plan.row.edit.voter] == plan.row.edit.CancelVote?
           && Stands(c, plan.row.edit.voter) == plan.row.edit.CancelVote?
      else d.votes == c.votes
  {
    if plan.row.EditItem? && plan.row.id == i && plan.row.edit.Revise? {
      ItemLife.EditKeepsIdentity(rows.contents[i], plan.row.edit);
    }
  }

  lemma VotePlanned(rows: Rows, ev: Event, i: ItemId)
    requires i < |rows.contents|
    ensures var plan := PlanOf(rows, ev.now, ev.req);
      plan.Some? && Turns(plan.value, i) ==>
        if plan.value.row.edit.CastVote? then ev.req == Upvote(plan.value.row.edit.voter, i)
        else ev.req == CancelUpvote(plan.value.row.edit.voter, i)
  {
  }

  /** Whatever is requested: the votes on an item change only by its voter upvoting or cancelling, in
      that voter's row only; a cancelled row stays. */
  lemma VotesAreOnesOwn(rows: Rows, ev: Event, i: ItemId)
    requires i < |rows.contents|
    ensures i < |Step(rows, ev).contents|
    ensures var c, d := rows.contents[i], Step(rows, ev).contents[i];
      c.votes != d.votes ==>
        && (ev.req == Upvote(ev.req.p, i) || ev.req == CancelUpvote(ev.req.p, i))
        && OnlyVoteOf(c.votes, d.votes, ev.req.p)
        && (if ev.req.Upvote? then !Stands(c, ev.req.p) && Stands(d, ev.req.p)
            else Stands(c, ev.req.p) && !Stands(d, ev.req.p))
        && d.item == c.item
  {
    var plan := PlanOf(rows, ev.now, ev.req);
    if plan.Some? {
      VoteApplied(rows, plan.value, i);
      VotePlanned(rows, ev, i);
    }
  }
}
