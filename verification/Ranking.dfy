/** Ranking of the answers to a question, over the reals. */
module Ranking {
  import opened Basics
  import Sorting

  /** The parts of an answer that ranking reads: `position` is its place in the input list. */
  datatype Candidate = Candidate(position: nat, author: nat, upvotes: nat, ageInDays: nat, featured: bool)

  function Power(x: real, n: nat): real {
    if n == 0 then 1.0 else x * Power(x, n - 1)
  }

  function Freshness(ageInDays: nat, recencyBoost: nat): real {
    Power(1.0 / (ageInDays as real + 1.0), recencyBoost) / 2.0 + 0.5
  }

  function Weight(c: Candidate, principal: Option<nat>): real {
    (c.upvotes + 1) as real
    * (if Some(c.author) == principal then 1000.0 else 1.0)
    * Freshness(c.ageInDays, 2)
    * (if c.featured then 2.0 else 1.0)
  }

  function RankAnswers(answers: seq<Candidate>, principal: Option<nat>): seq<Candidate> {
    Sorting.StableSort(answers, c => Weight(c, principal))
  }

  lemma {:induction false} PowerOfUnit(x: real, n: nat)
    requires 0.0 < x <= 1.0
    ensures 0.0 < Power(x, n) <= 1.0
  {
    if n > 0 {
      PowerOfUnit(x, n - 1);
      ProductOfUnits(x, Power(x, n - 1));
    }
  }

  lemma ProductOfUnits(x: real, y: real)
    requires 0.0 < x <= 1.0 && 0.0 < y <= 1.0
    ensures 0.0 < x * y <= 1.0
  {
    assert x * y <= 1.0 * y;
  }

  /** Age never takes away more than half of an answer's weight. */
  lemma FreshnessBounds(ageInDays: nat, recencyBoost: nat)
    ensures 0.5 < Freshness(ageInDays, recencyBoost) <= 1.0
  {
    PowerOfUnit(1.0 / (ageInDays as real + 1.0), recencyBoost);
  }

  /** The viewer's own answer weighs more than any other with at most 249 upvotes, however old,
      unfeatured and unvoted it is. */
  lemma OwnAnswerOutweighs(own: Candidate, other: Candidate, viewer: nat)
    requires own.author == viewer && other.author != viewer && other.upvotes <= 249
    ensures Weight(own, Some(viewer)) > Weight(other, Some(viewer))
  {
    var f, g := Freshness(own.ageInDays, 2), Freshness(other.ageInDays, 2);
    FreshnessBounds(own.ageInDays, 2);
    FreshnessBounds(other.ageInDays, 2);
    var mine, theirs := (own.upvotes + 1) as real, (other.upvotes + 1) as real;
    Grows(mine * 1000.0, 1000.0, f);
    var base := mine * 1000.0 * f;
    assert base > 500.0;
    assert Weight(own, Some(viewer)) == base * (if own.featured then 2.0 else 1.0) >= base;
    Grows(1.0, g, theirs);
    var rival := theirs * 1.0 * g;
    assert rival <= 250.0;
    assert Weight(other, Some(viewer)) == rival * (if other.featured then 2.0 else 1.0) <= 500.0;
  }

  lemma Grows(a: real, b: real, k: real)
    requires a >= b && k >= 0.0
    ensures a * k >= b * k
  {
  }

  /** 249 is the exact limit: at 250 a fresh featured answer can win over an old one of one's own. */
  lemma LimitIsSharp()
    ensures exists own: Candidate, other: Candidate ::
      own.author == 1 && other.author == 0 && other.upvotes == 250 && Weight(own, Some(1)) < Weight(other, Some(1))
  {
    var own, other := Candidate(0, 1, 0, 15, false), Candidate(1, 0, 250, 0, true);
    var x := 1.0 / 16.0;
    assert 15 as real + 1.0 == 16.0 && 0 as real + 1.0 == 1.0;
    assert Power(x, 2) == x * Power(x, 1) == x * (x * Power(x, 0));
    assert Power(1.0, 2) == 1.0 * Power(1.0, 1) == 1.0 * (1.0 * Power(1.0, 0)) == 1.0;
    assert Freshness(15, 2) < 0.502 && Freshness(0, 2) == 1.0;
    assert Weight(own, Some(1)) < 502.0;
    assert Weight(other, Some(1)) == 502.0;
  }

  /** The ranking is a stable sort of the answers by weight, and in it the viewer's own answer comes
      strictly before every other answer with at most 249 upvotes. */
  lemma OwnAnswerRanksFirst(answers: seq<Candidate>, viewer: nat, i: nat, j: nat)
    requires forall k, l :: 0 <= k < l < |answers| ==> answers[k].position < answers[l].position
    ensures var r, key := RankAnswers(answers, Some(viewer)), (c: Candidate) => Weight(c, Some(viewer));
      && multiset(r) == multiset(answers)
      && Sorting.Ranked(r, key, (c: Candidate) => c.position)
      && (i < |r| && j < |r| && r[i].author == viewer && r[j].author != viewer && r[j].upvotes <= 249 ==> i < j)
  {
    var r, key := RankAnswers(answers, Some(viewer)), (c: Candidate) => Weight(c, Some(viewer));
    var pos := (c: Candidate) => c.position;
    Sorting.SortPermutes(answers, key);
    Sorting.SortRanks(answers, key, pos);
    if i < |r| && j < |r| && r[i].author == viewer && r[j].author != viewer && r[j].upvotes <= 249 && j <= i {
      OwnAnswerOutweighs(r[i], r[j], viewer);
    }
  }
}
