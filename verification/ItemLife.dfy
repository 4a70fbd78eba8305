/** Edits to any item: its votes, its visibility flag, or the answer or article machine; and what a
    run of them leaves of the votes. */
module ItemLife {
  import opened Basics
  import opened Model
  import AnswerLife
  import ArticleLife
  import CommentUpdate
  import Karma

  datatype Edit =
    | CastVote(voter: UserId)
    | CancelVote(voter: UserId)
    | OnAnswer(answerEdit: AnswerLife.Edit)
    | OnArticle(articleEdit: ArticleLife.Edit)
    | Hide
    | EraseComment
    | Revise(content: Option<Text>, shared: bool, mentioned: Option<seq<string>>, at: int)

  /** The edit suits the item's kind and names rows that exist. */
  predicate InRange(c: Content, e: Edit) {
    match e
    case CastVote(_) => true
    case CancelVote(_) => true
    case OnAnswer(ae) => c.item.Answer? && AnswerLife.InRange(c.item.answer, ae)
    case OnArticle(ae) => c.item.Article? && ArticleLife.Fits(c.item.article, ae)
    case Hide => c.item.Question? || c.item.Submission?
    case EraseComment => c.item.Comment?
    case Revise(_, _, _, _) => c.item.Comment?
  }

  /** The edits that are ever committed. */
  predicate Fits(c: Content, e: Edit) {
    && InRange(c, e)
    && match e
       case CastVote(v) => !HasActiveVote(c, v) && v != c.author
       case CancelVote(v) => HasActiveVote(c, v)
       case OnAnswer(ae) => AnswerLife.Fits(c.item.answer, ae)
       case _ => true
  }

  function Hidden(item: Item): Item
    requires item.Question? || item.Submission?
  {
    match item
    case Question(q) => Question(q.(isHidden := true))
    case Submission(s) => Submission(s.(isHidden := true))
  }

  function Apply(c: Content, e: Edit): Content
    requires InRange(c, e)
  {
    match e
    case CastVote(v) => c.(votes := Upvoted(c.votes, v))
    case CancelVote(v) => c.(votes := Cancelled(c.votes, v))
    case OnAnswer(ae) => c.(item := Answer(AnswerLife.Apply(c.item.answer, ae)))
    case OnArticle(ae) => c.(item := Article(ArticleLife.Apply(c.item.article, ae)))
    case Hide => c.(item := Hidden(c.item))
    case EraseComment =>
      c.(item := Comment(c.item.comment.(isDeleted := true, body := DELETED, rendered := DELETED)))
    case Revise(content, shared, mentioned, at) =>
      c.(item := Comment(CommentUpdate.Assign(c.item.comment, CommentUpdate.Fields(content, shared, mentioned, at))))
  }

  // ---- what never changes

  predicate SamePlace(m: CommentRow, n: CommentRow) {
    && n.site == m.site && n.questionId == m.questionId && n.submissionId == m.submissionId
    && n.answerId == m.answerId && n.articleId == m.articleId && n.parentCommentId == m.parentCommentId
  }

  /** Same author, same kind, same place in the site. */
  predicate SameIdentity(c: Content, d: Content) {
    && d.author == c.author
    && match c.item
       case Answer(a) => d.item.Answer? && d.item.answer.site == a.site && d.item.answer.question == a.question
       case Question(q) => d.item.Question? && d.item.question.site == q.site
       case Article(_) => d.item.Article?
       case Submission(s) => d.item.Submission? && d.item.submission.site == s.site
       case Comment(m) =>
         d.item.Comment? && SamePlace(m, d.item.comment)
  }

  lemma EditKeepsIdentity(c: Content, e: Edit)
    requires Fits(c, e)
    ensures SameIdentity(c, Apply(c, e))
    ensures e.Revise? ==> Apply(c, e).item.comment.isDeleted == c.item.comment.isDeleted
  {
    if e.Revise? {
      CommentUpdate.RequestStoresNoText(c.item.comment, e.content, e.shared, e.mentioned, e.at);
    }
  }

  // ---- runs

  ghost predicate Fitting(c: Content, es: seq<Edit>)
    decreases es
  {
    es == [] || (Fits(c, es[0]) && Fitting(Apply(c, es[0]), es[1..]))
  }

  ghost function Replay(c: Content, es: seq<Edit>): Content
    requires Fitting(c, es)
    decreases es
  {
    if es == [] then c else Replay(Apply(c, es[0]), es[1..])
  }

  function AnswerEdits(es: seq<Edit>): seq<AnswerLife.Edit> {
    if es == [] then [] else
      (if es[0].OnAnswer? then [es[0].answerEdit] else []) + AnswerEdits(es[1..])
  }

  function ArticleEdits(es: seq<Edit>): seq<ArticleLife.Edit> {
    if es == [] then [] else
      (if es[0].OnArticle? then [es[0].articleEdit] else []) + ArticleEdits(es[1..])
  }

  /** The answer machine sees exactly the answer edits of a run, and they fit it. */
  lemma {:induction false} AnswerOfRun(c: Content, es: seq<Edit>)
    requires Fitting(c, es) && c.item.Answer?
    ensures AnswerLife.Fitting(c.item.answer, AnswerEdits(es))
    ensures Replay(c, es).item == Answer(AnswerLife.Replay(c.item.answer, AnswerEdits(es)))
    decreases es
  {
    if es != [] {
      AnswerOfRun(Apply(c, es[0]), es[1..]);
      if es[0].OnAnswer? {
        assert AnswerEdits(es)[1..] == AnswerEdits(es[1..]);
      } else {
        assert AnswerEdits(es) == AnswerEdits(es[1..]);
      }
    }
  }

  lemma {:induction false} ArticleOfRun(c: Content, es: seq<Edit>)
    requires Fitting(c, es) && c.item.Article?
    ensures ArticleLife.Fitting(c.item.article, ArticleEdits(es))
    ensures Replay(c, es).item == Article(ArticleLife.Replay(c.item.article, ArticleEdits(es)))
    decreases es
  {
    if es != [] {
      ArticleOfRun(Apply(c, es[0]), es[1..]);
      if es[0].OnArticle? {
        assert ArticleEdits(es)[1..] == ArticleEdits(es[1..]);
      } else {
        assert ArticleEdits(es) == ArticleEdits(es[1..]);
      }
    }
  }

  /** A comment's text is written once: source, rendering and editor stay as posted, whatever text
      later updates carry, until deletion replaces the first two. */
  lemma {:induction false} CommentTextOfRun(c: Content, es: seq<Edit>)
    requires Fitting(c, es) && c.item.Comment?
    ensures Replay(c, es).item.Comment?
    ensures var m, n := c.item.comment, Replay(c, es).item.comment;
      && n.body == (if EraseComment in es then DELETED else m.body)
      && n.rendered == (if EraseComment in es then DELETED else m.rendered)
      && n.editor == m.editor
    decreases es
  {
    if es != [] {
      if es[0].Revise? {
        var e := es[0];
        CommentUpdate.RequestStoresNoText(c.item.comment, e.content, e.shared, e.mentioned, e.at);
      }
      CommentTextOfRun(Apply(c, es[0]), es[1..]);
    }
  }

  // ---- votes

  function UpvoteCount(c: Content): nat {
    |Active(c.votes)|
  }

  /** The stored counter moves with the vote rows: by one exactly when the vote's standing changes. */
  lemma CastMovesCount(votes: map<UserId, bool>, v: UserId)
    ensures |Active(votes[v := false])| == |Active(votes)| + (if v in Active(votes) then 0 else 1)
  {
    var before, after := Active(votes), Active(votes[v := false]);
    assert after == before + {v};
    if v in before {
      assert after == before;
    }
  }

  lemma CancelMovesCount(votes: map<UserId, bool>, v: UserId)
    ensures |Active(votes[v := true])| == |Active(votes)| - (if v in Active(votes) then 1 else 0)
  {
    var before, after := Active(votes), Active(votes[v := true]);
    assert after == before - {v};
    if v !in before {
      assert after == before;
    }
  }

  lemma EditMovesCount(c: Content, e: Edit)
    requires Fits(c, e)
    ensures UpvoteCount(Apply(c, e))
         == UpvoteCount(c) + (if e.CastVote? then 1 else if e.CancelVote? then -1 else 0)
  {
    match e
    case CastVote(v) => CastMovesCount(c.votes, v);
    case CancelVote(v) => CancelMovesCount(c.votes, v);
    case _ =>
  }

  /** The crud upvote: insert the voter's row, or revive it. */
  function Upvoted(votes: map<UserId, bool>, v: UserId): map<UserId, bool> {
    votes[v := false]
  }

  /** The crud cancellation: mark a standing row cancelled; otherwise nothing. */
  function Cancelled(votes: map<UserId, bool>, v: UserId): map<UserId, bool> {
    if v in votes && !votes[v] then votes[v := true] else votes
  }

  /** What a voter asked for last, if anything; every request counts, including the ones that
      change nothing. */
  datatype Ballot = Up(voter: UserId) | Down(voter: UserId)

  function LastWasUp(ballots: seq<Ballot>, v: UserId): bool {
    if ballots == [] then false
    else if ballots[|ballots| - 1].voter == v then ballots[|ballots| - 1].Up?
    else LastWasUp(ballots[..|ballots| - 1], v)
  }

  /** The vote table after `ballots`, in that order. */
  function Tally(ballots: seq<Ballot>): map<UserId, bool> {
    if ballots == [] then map[] else
      var votes := Tally(ballots[..|ballots| - 1]);
      var b := ballots[|ballots| - 1];
      if b.Up? then Upvoted(votes, b.voter) else Cancelled(votes, b.voter)
  }

  lemma {:induction false} StandingVotes(ballots: seq<Ballot>, v: UserId)
    ensures v in Active(Tally(ballots)) <==> LastWasUp(ballots, v)
  {
    if ballots != [] {
      StandingVotes(ballots[..|ballots| - 1], v);
    }
  }

  /** The count and the karma of an item depend only on whose last action was an upvote, not on
      order, repetition or interleaving. */
  lemma LastActionDecides(c: Content, p: seq<Ballot>, q: seq<Ballot>)
    requires forall v :: LastWasUp(p, v) <==> LastWasUp(q, v)
    ensures var x, y := c.(votes := Tally(p)), c.(votes := Tally(q));
      && Active(x.votes) == Active(y.votes) == (set v | v in Tally(p) && LastWasUp(p, v))
      && UpvoteCount(x) == UpvoteCount(y)
      && Karma.Contribution(x, UpvoteCount(x)) == Karma.Contribution(y, UpvoteCount(y))
  {
    forall v
      ensures v in Active(Tally(p)) <==> LastWasUp(p, v)
      ensures v in Active(Tally(q)) <==> LastWasUp(q, v)
    {
      StandingVotes(p, v);
      StandingVotes(q, v);
    }
    assert Active(Tally(p)) == Active(Tally(q));
  }

  function Ballots(es: seq<Edit>): seq<Ballot> {
    if es == [] then [] else
      var n := |es| - 1;
      Ballots(es[..n])
      + match es[n]
        case CastVote(v) => [Up(v)]
        case CancelVote(v) => [Down(v)]
        case _ => []
  }

  lemma {:induction false} FittingSplits(c: Content, es: seq<Edit>, n: nat)
    requires Fitting(c, es) && n <= |es|
    ensures Fitting(c, es[..n]) && Fitting(Replay(c, es[..n]), es[n..])
    ensures Replay(c, es) == Replay(Replay(c, es[..n]), es[n..])
    decreases n
  {
    if n > 0 {
      FittingSplits(Apply(c, es[0]), es[1..], n - 1);
      assert es[1..][..n - 1] == es[..n][1..];
      assert es[1..][n - 1..] == es[n..];
    } else {
      assert es[n..] == es;
    }
  }

  /** The vote table of an item that started without votes is the tally of its run. */
  lemma {:induction false} VotesOfRun(c: Content, es: seq<Edit>)
    requires Fitting(c, es) && c.votes == map[]
    ensures Replay(c, es).votes == Tally(Ballots(es))
  {
    if es != [] {
      var n := |es| - 1;
      FittingSplits(c, es, n);
      VotesOfRun(c, es[..n]);
      var b := Replay(c, es[..n]);
      assert es[n..] == [es[n]];
      assert Replay(b, es[n..]) == Replay(Apply(b, es[n]), es[n..][1..]) == Apply(b, es[n]);
      if es[n].CastVote? || es[n].CancelVote? {
        assert Ballots(es)[..|Ballots(es)| - 1] == Ballots(es[..n]);
      } else {
        assert Ballots(es) == Ballots(es[..n]);
      }
    }
  }
}
