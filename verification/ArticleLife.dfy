/** The life of one article. It differs from an answer's in one way that matters: the update path
    never looks at `is_deleted`, so every edit fits a deleted article. */
module ArticleLife {
  import opened Basics
  import opened Model
  import AnswerLife

  datatype Edit =
    | SaveDraft(title: string, text: Text, visibility: Visibility)
    | Publish(title: string, text: Text, visibility: Visibility, at: int)
    | DropDraft
    | Erase

  predicate Fits(a: ArticleRow, e: Edit) {
    e.Publish? && a.isPublished ==> a.updatedAt.Some?
  }

  /** Publishing does not touch `editor`: only the draft's editor is ever stored. */
  function Apply(a: ArticleRow, e: Edit): ArticleRow
    requires Fits(a, e)
  {
    match e
    case SaveDraft(title, text, visibility) =>
      a.(titleDraft := Some(title), bodyDraft := Some(text.source), visibility := visibility)
    case Publish(title, text, visibility, at) =>
      var archives := if a.isPublished
                      then a.archives + [Archive(a.title, a.body, a.editor, a.updatedAt.value)]
                      else a.archives;
      a.(archives := archives, isPublished := true, updatedAt := Some(at), visibility := visibility,
         title := title, body := text.source, rendered := text.rendered, titleDraft := None, bodyDraft := None)
    case DropDraft => a.(titleDraft := None, bodyDraft := None)
    case Erase =>
      a.(isDeleted := true, body := DELETED, bodyDraft := Some(DELETED),
         archives := AnswerLife.Redacted(a.archives))
  }

  /** Every title and text ever published, oldest first. */
  function PublishedLog(a: ArticleRow): seq<(string, string)> {
    seq(|a.archives|, i requires 0 <= i < |a.archives| => (a.archives[i].title, a.archives[i].body))
    + if a.isPublished then [(a.title, a.body)] else []
  }

  predicate Dated(a: ArticleRow) {
    a.isPublished ==> a.updatedAt.Some?
  }

  predicate Chronological(a: ArticleRow) {
    && Dated(a)
    && (forall i, j :: 0 <= i < j < |a.archives| ==> a.archives[i].createdAt <= a.archives[j].createdAt)
    && (a.archives != [] ==>
          a.updatedAt.Some? &&
          forall i :: 0 <= i < |a.archives| ==> a.archives[i].createdAt <= a.updatedAt.value)
  }

  ghost predicate Fitting(a: ArticleRow, es: seq<Edit>)
    decreases es
  {
    es == [] || (Fits(a, es[0]) && Fitting(Apply(a, es[0]), es[1..]))
  }

  ghost function Replay(a: ArticleRow, es: seq<Edit>): ArticleRow
    requires Fitting(a, es)
    decreases es
  {
    if es == [] then a else Replay(Apply(a, es[0]), es[1..])
  }

  function TextOf(e: Edit): seq<(string, string)> {
    if e.Publish? then [(e.title, e.text.source)] else []
  }

  function Texts(es: seq<Edit>): seq<(string, string)> {
    if es == [] then [] else TextOf(es[0]) + Texts(es[1..])
  }

  lemma LogStep(a: ArticleRow, e: Edit)
    requires Fits(a, e) && !e.Erase?
    ensures PublishedLog(Apply(a, e)) == PublishedLog(a) + TextOf(e)
    ensures a.isPublished ==> Apply(a, e).isPublished
  {
    if e.Publish? && a.isPublished {
      assert PublishedLog(a) == PublishedLog(Apply(a, e))[..|a.archives| + 1];
    }
  }

  /** The log of an article grows by exactly the titles and texts published. */
  lemma {:induction false} LogOfRun(a: ArticleRow, es: seq<Edit>)
    requires Fitting(a, es) && Erase !in es
    ensures PublishedLog(Replay(a, es)) == PublishedLog(a) + Texts(es)
    ensures a.isPublished ==> Replay(a, es).isPublished
    decreases es
  {
    if es != [] {
      LogStep(a, es[0]);
      LogOfRun(Apply(a, es[0]), es[1..]);
    }
  }

  ghost predicate Clocked(t: Option<int>, es: seq<Edit>)
    decreases es
  {
    es == [] ||
    if es[0].Publish?
    then (t.Some? ==> t.value <= es[0].at) && Clocked(Some(es[0].at), es[1..])
    else Clocked(t, es[1..])
  }

  /** Archives stay ordered by time, and the assertion that a published article has a publication
      time never fails: every edit fits. */
  lemma {:induction false} ArchivesStayChronological(a: ArticleRow, es: seq<Edit>)
    requires Clocked(a.updatedAt, es) && Chronological(a)
    ensures Fitting(a, es) && Chronological(Replay(a, es))
    decreases es
  {
    if es != [] {
      ArchivesStayChronological(Apply(a, es[0]), es[1..]);
    }
  }

  /** The columns that deletion overwrites, `body` and the bodies of the archives, hold no text. */
  predicate BodiesGone(a: ArticleRow) {
    a.body == DELETED && forall i :: 0 <= i < |a.archives| ==> a.archives[i].body == DELETED
  }

  /** Some text was published since the last deletion in `es`, or, without one, `already`. */
  predicate Returns(already: bool, es: seq<Edit>)
    decreases es
  {
    if es == [] then already
    else
      match es[0]
      case Erase => Returns(false, es[1..])
      case Publish(_, text, _, _) => Returns(already || text.source != DELETED, es[1..])
      case _ => Returns(already, es[1..])
  }

  /** Unlike an answer's, an article's deletion does not bind even these columns: they are empty
      exactly until something else is published. */
  lemma {:induction false} BodiesGoneUntilPublished(a: ArticleRow, es: seq<Edit>)
    requires Fitting(a, es) && (BodiesGone(a) || a.isPublished)
    ensures BodiesGone(Replay(a, es)) <==> !Returns(!BodiesGone(a), es)
    decreases es
  {
    if es != [] {
      var b := Apply(a, es[0]);
      if es[0].Publish? && a.isPublished {
        assert b.archives[|a.archives|].body == a.body;
        assert forall i :: 0 <= i < |a.archives| ==> b.archives[i] == a.archives[i];
      }
      BodiesGoneUntilPublished(b, es[1..]);
    }
  }

  // ---- what deletion does not clear

  function LastTitle(title: string, es: seq<Edit>): string
    decreases es
  {
    if es == [] then title else LastTitle(if es[0].Publish? then es[0].title else title, es[1..])
  }

  function LastRendering(rendered: Option<string>, es: seq<Edit>): Option<string>
    decreases es
  {
    if es == [] then rendered else LastRendering(if es[0].Publish? then es[0].text.rendered else rendered, es[1..])
  }

  /** Title and rendered text are those of the last publication, whatever was deleted since, and the
      titles of archives survive as well. */
  lemma {:induction false} DeletionKeepsRendering(a: ArticleRow, es: seq<Edit>)
    requires Fitting(a, es)
    ensures var b := Replay(a, es);
      && b.title == LastTitle(a.title, es) && b.rendered == LastRendering(a.rendered, es)
      && |a.archives| <= |b.archives|
      && forall i :: 0 <= i < |a.archives| ==> b.archives[i].title == a.archives[i].title
    decreases es
  {
    if es != [] {
      DeletionKeepsRendering(Apply(a, es[0]), es[1..]);
    }
  }

  predicate NoRendering(rendered: Option<string>) {
    rendered == None || rendered == Some(DELETED)
  }

  /** Nothing of what was written is left in the text columns, rendered text included. */
  predicate TextGone(a: ArticleRow) {
    BodiesGone(a) && NoRendering(a.rendered)
  }

  /** After a deletion, exactly when all the text is gone: nothing else was published since, and the
      text in force at the deletion, or published since, came without a rendering. */
  lemma TextGoneExactly(a: ArticleRow, es: seq<Edit>)
    requires Fits(a, Erase) && Fitting(Apply(a, Erase), es)
    ensures TextGone(Replay(Apply(a, Erase), es))
       <==> !Returns(false, es) && NoRendering(LastRendering(a.rendered, es))
  {
    BodiesGoneUntilPublished(Apply(a, Erase), es);
    DeletionKeepsRendering(Apply(a, Erase), es);
  }

  /** What the full article payload shows: the read gate does not look at `is_deleted`. */
  datatype Payload = Payload(title: string, source: string, rendered: Option<string>)

  function Shown(a: ArticleRow, isAuthor: bool): Option<Payload> {
    if !(a.isPublished && a.visibility == Anyone) && !isAuthor then None
    else
      var source := if a.isPublished || a.bodyDraft.None? || a.bodyDraft.value == "" then a.body
                    else a.bodyDraft.value;
      Some(Payload(a.title, source, a.rendered))
  }

  /** A draft is shown to nobody but its author. Published text is what everyone sees, the author included;
      saving a draft of a published article changes nothing in the payload, and publishing shows the text. */
  lemma ReadersSeeThePublished(a: ArticleRow, title: string, text: Text, visibility: Visibility, at: int)
    requires Dated(a)
    ensures !a.isPublished ==> Shown(a, false) == None
    ensures a.isPublished ==>
      Shown(Apply(a, SaveDraft(title, text, a.visibility)), true) == Shown(a, true)
        == Some(Payload(a.title, a.body, a.rendered))
    ensures !a.isPublished && text.source != "" ==>
      Shown(Apply(a, SaveDraft(title, text, visibility)), true) == Some(Payload(a.title, text.source, a.rendered))
    ensures Shown(Apply(a, Publish(title, text, visibility, at)), true)
         == Some(Payload(title, text.source, text.rendered))
  {
  }

  /** Publishing a text with its rendering and then deleting the article leaves title and rendering
      on show to anyone. */
  lemma DeletedArticleStillShown(a: ArticleRow, title: string, text: Text, at: int)
    requires Dated(a)
    ensures var p := Publish(title, text, Anyone, at);
      && Fitting(a, [p, Erase])
      && Shown(Replay(a, [p, Erase]), false) == Some(Payload(title, DELETED, text.rendered))
  {
    var p := Publish(title, text, Anyone, at);
    assert [p, Erase][1..] == [Erase] && [Erase][1..] == [];
    assert Fitting(Apply(a, p), [Erase]);
    assert Replay(a, [p, Erase]) == Replay(Apply(a, p), [Erase]) == Apply(Apply(a, p), Erase);
  }

  /** Deleted source text can come back: deleting and then publishing is enough. */
  lemma DeletedTextCanReturn(a: ArticleRow, title: string, text: Text, at: int)
    requires Dated(a)
    ensures var b := Replay(Apply(a, Erase), [Publish(title, text, Anyone, at)]);
      b.body == text.source && b.isDeleted
  {
    var d := Apply(a, Erase);
    var p := Publish(title, text, Anyone, at);
    assert [p][1..] == [];
    assert Fitting(d, [p]);
    assert Replay(d, [p]) == Apply(d, p);
  }

  /** The `is_deleted` flag, and with it the zero karma, does stay. */
  lemma {:induction false} DeletedFlagStays(a: ArticleRow, es: seq<Edit>)
    requires Fitting(a, es) && (a.isDeleted || Erase in es)
    ensures Replay(a, es).isDeleted
    decreases es
  {
    if es != [] {
      assert Apply(a, es[0]).isDeleted || Erase in es[1..];
      DeletedFlagStays(Apply(a, es[0]), es[1..]);
    }
  }
}
