/** The life of one answer: drafts, publication, archives, deletion, and the suggested edits that
    publish through it.

    `Apply` says what an edit does to the row; `Fits` says which edits are ever committed. Module
    Requests proves that every accepted request performs a fitting edit: nothing but another
    deletion or the removal of the draft fits a deleted answer. */
module AnswerLife {
  import opened Basics
  import opened Model

  datatype Edit =
    | SetHidden(hidden: bool)
    | SaveDraft(text: Text, visibility: Visibility)
    | Publish(content: Option<Text>, visibility: Visibility, at: int)
    | DropDraft
    | Erase
    | Suggest(author: UserId, text: Text)
    | Accept(k: nat, at: int)
    | Reject(k: nat, at: int)
    | Retract(k: nat, at: int)
    | Reopen(k: nat)

  /** A published text must come with its rendering: that column does not admit null. */
  predicate Storable(content: Option<Text>) {
    content.Some? ==> content.value.rendered.Some?
  }

  /** The edit names a suggestion that exists, and its text can be stored. */
  predicate InRange(a: AnswerRow, e: Edit) {
    match e
    case Publish(content, _, _) => Storable(content)
    case Accept(k, _) => k < |a.edits| && Storable(SuggestedText(a.edits[k]))
    case Reject(k, _) => k < |a.edits|
    case Retract(k, _) => k < |a.edits|
    case Reopen(k) => k < |a.edits|
    case _ => true
  }

  predicate Undecided(s: SuggestEdit) {
    s.status.Pending? || s.status.Rejected?
  }

  predicate Fits(a: AnswerRow, e: Edit) {
    && InRange(a, e)
    && (a.isDeleted ==> e.Erase? || e.DropDraft?)
    && match e
       case Suggest(_, text) => text.source != ""
       case Accept(k, _) => Undecided(a.edits[k])
       case Reject(k, _) => Undecided(a.edits[k])
       case Retract(k, _) => Undecided(a.edits[k])
       case Reopen(k) => a.edits[k].status.Retracted?
       case _ => true
  }

  function Redacted(archives: seq<Archive>): seq<Archive> {
    seq(|archives|, i requires 0 <= i < |archives| => archives[i].(body := DELETED))
  }

  function Published(a: AnswerRow, content: Option<Text>, visibility: Visibility, at: int): AnswerRow
    requires Storable(content)
  {
    var archives := if a.isPublished
                    then a.archives + [Archive("", a.body, a.editor, a.updatedAt)]
                    else a.archives;
    var text := if content.Some? then content.value else Text(a.body, a.editor, Some(a.rendered));
    a.(archives := archives, isPublished := true, updatedAt := at, visibility := visibility,
       body := text.source, rendered := text.rendered.value, editor := text.editor, bodyDraft := None)
  }

  /** What an accepted suggestion publishes: a suggestion without a body leaves the text alone. */
  function SuggestedText(s: SuggestEdit): Option<Text> {
    if s.text.source == "" then None else Some(s.text)
  }

  function BaseOf(a: AnswerRow): Option<Text> {
    if a.body == "" then None else Some(Text(a.body, a.editor, Some(a.rendered)))
  }

  function WithContributor(a: AnswerRow, u: UserId): seq<UserId> {
    if u in a.contributors then a.contributors else a.contributors + [u]
  }

  function Apply(a: AnswerRow, e: Edit): AnswerRow
    requires InRange(a, e)
  {
    match e
    case SetHidden(h) => a.(isHiddenByModerator := h)
    case SaveDraft(text, visibility) => a.(bodyDraft := Some(text.source), visibility := visibility)
    case Publish(content, visibility, at) => Published(a, content, visibility, at)
    case DropDraft => a.(bodyDraft := None)
    case Erase =>
      a.(isDeleted := true, body := DELETED, bodyDraft := Some(DELETED), rendered := DELETED,
         archives := Redacted(a.archives))
    case Suggest(author, text) =>
      a.(edits := a.edits + [SuggestEdit(author, text, Pending, None, None, None, None)])
    case Accept(k, at) =>
      var s := a.edits[k];
      Published(a, SuggestedText(s), a.visibility, at).(
        contributors := WithContributor(a, s.author),
        edits := a.edits[k := s.(status := Accepted, acceptedAt := Some(at), acceptedDiffBase := BaseOf(a))])
    case Reject(k, at) =>
      a.(edits := a.edits[k := a.edits[k].(status := Rejected, rejectedAt := Some(at))])
    case Retract(k, at) =>
      a.(edits := a.edits[k := a.edits[k].(status := Retracted, retractedAt := Some(at))])
    case Reopen(k) =>
      a.(edits := a.edits[k := a.edits[k].(status := Pending, retractedAt := None)])
  }

  // ---- the published log

  function Bodies(archives: seq<Archive>): (r: seq<string>) {
    seq(|archives|, i requires 0 <= i < |archives| => archives[i].body)
  }

  /** Every text ever published, oldest first. */
  function PublishedLog(a: AnswerRow): seq<string> {
    Bodies(a.archives) + if a.isPublished then [a.body] else []
  }

  predicate Publishes(e: Edit) {
    e.Publish? || e.Accept?
  }

  /** A publishing edit appends exactly the text that is now the body; every other edit but
      deletion leaves the log alone. */
  lemma LogStep(a: AnswerRow, e: Edit)
    requires Fits(a, e) && !e.Erase?
    ensures PublishedLog(Apply(a, e))
         == PublishedLog(a) + (if Publishes(e) then [Apply(a, e).body] else [])
    ensures e.Publish? && e.content.Some? ==> Apply(a, e).body == e.content.value.source
    ensures e.Publish? && e.content.None? ==> Apply(a, e).body == a.body
    ensures Publishes(e) ==> Apply(a, e).isPublished
    ensures a.isPublished ==> Apply(a, e).isPublished
  {
    if Publishes(e) && a.isPublished {
      var b := Apply(a, e);
      assert Bodies(b.archives) == Bodies(a.archives) + [a.body];
      assert PublishedLog(a) == Bodies(b.archives);
    }
  }

  // ---- runs of edits

  ghost predicate Fitting(a: AnswerRow, es: seq<Edit>)
    decreases es
  {
    es == [] || (Fits(a, es[0]) && Fitting(Apply(a, es[0]), es[1..]))
  }

  ghost function Replay(a: AnswerRow, es: seq<Edit>): AnswerRow
    requires Fitting(a, es)
    decreases es
  {
    if es == [] then a else Replay(Apply(a, es[0]), es[1..])
  }

  /** The texts that a run of edits publishes, in order. */
  ghost function Texts(a: AnswerRow, es: seq<Edit>): seq<string>
    requires Fitting(a, es)
    decreases es
  {
    if es == [] then [] else
      var b := Apply(a, es[0]);
      (if Publishes(es[0]) then [b.body] else []) + Texts(b, es[1..])
  }

  /** The log is append-only: over any run without a deletion it grows by exactly what was published. */
  lemma {:induction false} LogOfRun(a: AnswerRow, es: seq<Edit>)
    requires Fitting(a, es) && Erase !in es
    ensures PublishedLog(Replay(a, es)) == PublishedLog(a) + Texts(a, es)
    decreases es
  {
    if es != [] {
      LogStep(a, es[0]);
      LogOfRun(Apply(a, es[0]), es[1..]);
    }
  }

  /** Publication never reverts, deletion included. */
  lemma {:induction false} PublishedForGood(a: AnswerRow, es: seq<Edit>)
    requires Fitting(a, es)
    ensures a.isPublished ==> Replay(a, es).isPublished
    ensures (exists e :: e in es && Publishes(e)) ==> Replay(a, es).isPublished
    decreases es
  {
    if es != [] {
      PublishedForGood(Apply(a, es[0]), es[1..]);
      if exists e :: e in es && Publishes(e) {
        var e :| e in es && Publishes(e);
        assert e == es[0] || e in es[1..];
      }
    }
  }

  // ---- archive timestamps

  predicate Chronological(a: AnswerRow) {
    && (forall i, j :: 0 <= i < j < |a.archives| ==> a.archives[i].createdAt <= a.archives[j].createdAt)
    && (forall i :: 0 <= i < |a.archives| ==> a.archives[i].createdAt <= a.updatedAt)
  }

  /** The publication times in `es` never go back, nor before `t`. */
  ghost predicate Clocked(t: int, es: seq<Edit>)
    decreases es
  {
    es == [] ||
    if Publishes(es[0]) then t <= es[0].at && Clocked(es[0].at, es[1..]) else Clocked(t, es[1..])
  }

  lemma {:induction false} ArchivesStayChronological(a: AnswerRow, es: seq<Edit>)
    requires Fitting(a, es) && Clocked(a.updatedAt, es) && Chronological(a)
    ensures Chronological(Replay(a, es))
    decreases es
  {
    if es != [] {
      ArchivesStayChronological(Apply(a, es[0]), es[1..]);
    }
  }

  // ---- deletion

  predicate Gone(a: AnswerRow) {
    a.isDeleted && a.body == DELETED && a.rendered == DELETED
    && (a.bodyDraft == None || a.bodyDraft == Some(DELETED))
    && forall i :: 0 <= i < |a.archives| ==> a.archives[i].body == DELETED
  }

  /** Deletion is terminal, whatever is attempted afterwards. */
  lemma {:induction false} GoneForGood(a: AnswerRow, es: seq<Edit>)
    requires Fitting(a, es) && (Gone(a) || Erase in es)
    ensures Gone(Replay(a, es))
    decreases es
  {
    if es != [] {
      assert Gone(Apply(a, es[0])) || Erase in es[1..];
      GoneForGood(Apply(a, es[0]), es[1..]);
    }
  }

  // ---- the suggestion machine

  predicate WellStamped(s: SuggestEdit) {
    && (s.acceptedAt.Some? <==> s.status.Accepted?)
    && (s.retractedAt.Some? <==> s.status.Retracted?)
    && (s.status.Rejected? ==> s.rejectedAt.Some?)
    && (s.acceptedDiffBase.Some? ==> s.status.Accepted?)
    && (s.status.Accepted? ==> s.text.rendered.Some?)
    && s.text.source != ""
  }

  predicate AllWellStamped(a: AnswerRow) {
    forall k :: 0 <= k < |a.edits| ==> WellStamped(a.edits[k])
  }

  /** One step of the four-status machine, as the status check allows it. */
  predicate Moves(s: Status, t: Status) {
    match s
    case Accepted => t.Accepted?
    case Retracted => t.Retracted? || t.Pending?
    case Pending => true
    case Rejected => !t.Pending?
  }

  /** No edit drops, rewords or reattributes a suggestion; its status takes at most one legal step,
      and once accepted the row is frozen. */
  lemma SuggestionStep(a: AnswerRow, e: Edit, k: nat)
    requires Fits(a, e) && k < |a.edits|
    ensures k < |Apply(a, e).edits|
    ensures var s, t := a.edits[k], Apply(a, e).edits[k];
      && t.author == s.author && t.text == s.text && Moves(s.status, t.status)
      && (s.status.Accepted? ==> t == s)
  {
  }

  /** In every run an accepted suggestion stays exactly as it was accepted. */
  lemma {:induction false} AcceptedIsAbsorbing(a: AnswerRow, es: seq<Edit>, k: nat)
    requires Fitting(a, es) && k < |a.edits|
    ensures var b := Replay(a, es);
      && k < |b.edits| && b.edits[k].author == a.edits[k].author && b.edits[k].text == a.edits[k].text
      && (a.edits[k].status.Accepted? ==> b.edits[k] == a.edits[k])
    decreases es
  {
    if es != [] {
      SuggestionStep(a, es[0], k);
      AcceptedIsAbsorbing(Apply(a, es[0]), es[1..], k);
    }
  }

  lemma {:induction false} StampsStayRight(a: AnswerRow, es: seq<Edit>)
    requires Fitting(a, es) && AllWellStamped(a)
    ensures AllWellStamped(Replay(a, es))
    decreases es
  {
    if es != [] {
      StampsStayRight(Apply(a, es[0]), es[1..]);
    }
  }

  /** Accepting publishes the suggested body, remembers the body it replaced, and, when the answer
      was already public, leaves that body as the newest archive. */
  lemma AcceptPublishes(a: AnswerRow, k: nat, at: int)
    requires Fits(a, Accept(k, at)) && AllWellStamped(a)
    ensures var b := Apply(a, Accept(k, at));
      && Text(b.body, b.editor, Some(b.rendered)) == a.edits[k].text
      && b.isPublished && b.bodyDraft == None && b.updatedAt == at
      && b.edits[k].status == Accepted && b.edits[k].acceptedAt == Some(at)
      && (a.body != "" ==> b.edits[k].acceptedDiffBase == Some(Text(a.body, a.editor, Some(a.rendered))))
      && (a.body == "" ==> b.edits[k].acceptedDiffBase == None)
      && (a.isPublished ==>
            b.archives == a.archives + [Archive("", a.body, a.editor, a.updatedAt)])
      && (!a.isPublished ==> b.archives == a.archives)
      && a.edits[k].author in b.contributors
  {
    assert WellStamped(a.edits[k]);
  }

  // ---- contributors

  ghost predicate HasAccepted(a: AnswerRow, u: UserId) {
    exists k :: 0 <= k < |a.edits| && a.edits[k].status.Accepted? && a.edits[k].author == u
  }

  /** The contributor list names each author of an accepted suggestion once, and nobody else. */
  ghost predicate Credited(a: AnswerRow) {
    && NoDuplicates(a.contributors)
    && forall u :: u in a.contributors <==> HasAccepted(a, u)
  }

  lemma CreditStep(a: AnswerRow, e: Edit)
    requires Fits(a, e) && Credited(a)
    ensures Credited(Apply(a, e))
  {
    var b := Apply(a, e);
    forall u
      ensures u in b.contributors <==> HasAccepted(b, u)
    {
      if HasAccepted(a, u) {
        var k :| 0 <= k < |a.edits| && a.edits[k].status.Accepted? && a.edits[k].author == u;
        assert b.edits[k] == a.edits[k];
      }
      if HasAccepted(b, u) {
        var k :| 0 <= k < |b.edits| && b.edits[k].status.Accepted? && b.edits[k].author == u;
        assert (e.Accept? && e.k == k) || (k < |a.edits| && a.edits[k] == b.edits[k]);
      }
      if e.Accept? && u == a.edits[e.k].author {
        assert b.edits[e.k].status.Accepted? && b.edits[e.k].author == u;
      }
    }
  }

  lemma {:induction false} ContributorsAreAcceptedAuthors(a: AnswerRow, es: seq<Edit>)
    requires Fitting(a, es) && Credited(a)
    ensures Credited(Replay(a, es))
    decreases es
  {
    if es != [] {
      CreditStep(a, es[0]);
      ContributorsAreAcceptedAuthors(Apply(a, es[0]), es[1..]);
    }
  }
}
