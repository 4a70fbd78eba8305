/** The update of a comment: the fields a request turns into, and the loop that sets those of them
    that are attributes of the row. */
module CommentUpdate {
  import opened Basics
  import opened Model

  /** A named value of the update dictionary. The names are the request's own (`content`,
      `mentioned`, `shared_to_timeline`), the one the service adds (`updated_at`), and the other
      columns of a comment that can be assigned. */
  datatype Field =
    | Content(text: Text)
    | Mentioned(handles: seq<string>)
    | SharedToTimeline(shared: bool)
    | UpdatedAt(at: int)
    | Body(source: string)
    | BodyText(rendered: string)
    | Editor(editor: string)
    | IsDeleted(deleted: bool)

  /** Whether the row has an attribute of that name: there is none for content or mentions. */
  predicate IsAttribute(f: Field) {
    f.SharedToTimeline? || f.UpdatedAt? || f.Body? || f.BodyText? || f.Editor? || f.IsDeleted?
  }

  function SetAttribute(m: CommentRow, f: Field): CommentRow
    requires IsAttribute(f)
  {
    match f
    case SharedToTimeline(shared) => m.(shared := shared)
    case UpdatedAt(at) => m.(updatedAt := at)
    case Body(source) => m.(body := source)
    case BodyText(rendered) => m.(rendered := rendered)
    case Editor(editor) => m.(editor := editor)
    case IsDeleted(deleted) => m.(isDeleted := deleted)
  }

  /** The row after the loop has gone through `fields`. */
  function Assign(m: CommentRow, fields: seq<Field>): CommentRow {
    if fields == [] then m else
      var n := |fields| - 1;
      var before := Assign(m, fields[..n]);
      if IsAttribute(fields[n]) then SetAttribute(before, fields[n]) else before
  }

  /** What the service hands to the loop: the fields given, in the schema's order, and the time. */
  function Fields(content: Option<Text>, shared: bool, mentioned: Option<seq<string>>, now: int): seq<Field> {
    (if content.Some? then [Field.Content(content.value)] else [])
    + (if shared then [SharedToTimeline(true)] else [])
    + (if mentioned.Some? then [Mentioned(mentioned.value)] else [])
    + [UpdatedAt(now)]
  }

  lemma {:induction false} AssignConcat(m: CommentRow, fs: seq<Field>, gs: seq<Field>)
    ensures Assign(m, fs + gs) == Assign(Assign(m, fs), gs)
  {
    if gs == [] {
      assert fs + gs == fs;
    } else {
      var n := |gs| - 1;
      AssignConcat(m, fs, gs[..n]);
      assert (fs + gs)[..|fs + gs| - 1] == fs + gs[..n];
    }
  }

  lemma AssignOne(m: CommentRow, f: Field)
    ensures Assign(m, [f]) == if IsAttribute(f) then SetAttribute(m, f) else m
  {
    assert [f][..0] == [];
    assert Assign(m, []) == m;
  }

  /** Whatever a request carries, the loop ends up setting the sharing flag and the time, and nothing
      else: new content is not stored. */
  lemma RequestStoresNoText(m: CommentRow, content: Option<Text>, shared: bool, mentioned: Option<seq<string>>,
                            now: int)
    ensures Assign(m, Fields(content, shared, mentioned, now)) == m.(shared := m.shared || shared, updatedAt := now)
  {
    var cs := if content.Some? then [Field.Content(content.value)] else [];
    var ss := if shared then [SharedToTimeline(true)] else [];
    var ms := if mentioned.Some? then [Mentioned(mentioned.value)] else [];
    AssignConcat(m, cs + ss + ms, [UpdatedAt(now)]);
    AssignConcat(m, cs + ss, ms);
    AssignConcat(m, cs, ss);
    if content.Some? {
      AssignOne(m, cs[0]);
    }
    if shared {
      AssignOne(m, ss[0]);
    }
    if mentioned.Some? {
      AssignOne(m.(shared := m.shared || shared), ms[0]);
    }
    AssignOne(m.(shared := m.shared || shared), UpdatedAt(now));
  }

  /** The loop itself stores text where it is told to: exactly a field named after the column changes
      the body, the last one winning. */
  lemma {:induction false} BodyIsSetByItsColumn(m: CommentRow, fields: seq<Field>)
    ensures (forall f :: f in fields ==> !f.Body?) ==> Assign(m, fields).body == m.body
    ensures forall k :: 0 <= k < |fields| ==>
      fields[k].Body? && (forall j :: k < j < |fields| ==> !fields[j].Body?)
      ==> Assign(m, fields).body == fields[k].source
  {
    if fields != [] {
      BodyIsSetByItsColumn(m, fields[..|fields| - 1]);
    }
  }

  /** A request that asks for new text is accepted by the loop and the row keeps the old text; the
      same text under the column's name would have been stored. */
  lemma NewTextIsDropped(m: CommentRow, text: Text, now: int)
    requires m.body != text.source
    ensures Assign(m, Fields(Some(text), false, None, now)).body == m.body != text.source
    ensures Assign(m, Fields(Some(text), false, None, now) + [Body(text.source)]).body == text.source
  {
    RequestStoresNoText(m, Some(text), false, None, now);
    var fields := Fields(Some(text), false, None, now);
    AssignConcat(m, fields, [Body(text.source)]);
    AssignOne(Assign(m, fields), Body(text.source));
  }

  lemma FieldsCannotDelete(content: Option<Text>, shared: bool, mentioned: Option<seq<string>>, now: int)
    ensures forall f :: f in Fields(content, shared, mentioned, now) ==> !f.IsDeleted?
  {
  }

  /** No request reaches the deletion flag, which is why the untracked update leaves karma alone. */
  lemma {:induction false} DeletionFlagKept(m: CommentRow, fields: seq<Field>)
    requires forall f :: f in fields ==> !f.IsDeleted?
    ensures Assign(m, fields).isDeleted == m.isDeleted
  {
    if fields != [] {
      DeletionFlagKept(m, fields[..|fields| - 1]);
    }
  }
}
