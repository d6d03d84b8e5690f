/** The schema editing of the template editor,
    src/pages/admin/TemplateEditor.tsx: adding, deleting and moving sections
    and fields, editing one field, and the select-options text box. */
module TemplateEditor {
  import opened Wrappers
  import opened Text
  import opened Seqs
  import opened Schema

  /** The editor state the handlers touch: the template's sections and the
      ids of the section and the field open for editing. */
  datatype EditorState = EditorState(sections: seq<Section>, editingSectionId: Option<string>, editingFieldId: Option<string>)

  predicate HasSection(sections: seq<Section>, sectionId: string) {
    exists k :: 0 <= k < |sections| && sections[k].id == sectionId
  }

  predicate HasField(fields: seq<SectionField>, fieldId: string) {
    exists k :: 0 <= k < |fields| && fields[k].id == fieldId
  }

  // ---------------------------------------------------------------------------
  // Adding and deleting (lines 160-224)

  /** `section_${Date.now()}`; the clock reading is a parameter. */
  function NewSectionId(now: nat): string {
    "section_" + NatToString(now)
  }

  /** `field_${Date.now()}`. */
  function NewFieldId(now: nat): string {
    "field_" + NatToString(now)
  }

  function NewField(now: nat): SectionField {
    SectionField(NewFieldId(now), "New Field", "text", false, "", None, false)
  }

  /** `handleAddSection`: one empty section appended and opened for editing. */
  function AddSection(st: EditorState, now: nat): (r: EditorState)
    ensures |r.sections| == |st.sections| + 1 && r.sections[..|st.sections|] == st.sections
    ensures r.sections[|st.sections|].fields == [] && r.sections[|st.sections|].title == "New Section"
    ensures r.editingSectionId == Some(r.sections[|st.sections|].id)
    ensures r.editingFieldId == st.editingFieldId
  {
    var section := Section(NewSectionId(now), "New Section", []);
    EditorState(st.sections + [section], Some(section.id), st.editingFieldId)
  }

  /** `handleDeleteSection`, with the answer to `window.confirm` as
      `confirmed`: every section with the id goes, the others stay in order,
      and the editing mark is dropped when it was on that id. */
  function DeleteSection(st: EditorState, sectionId: string, confirmed: bool): (r: EditorState)
    ensures !confirmed ==> r == st
    ensures confirmed ==> !HasSection(r.sections, sectionId)
    ensures confirmed ==> IsSubsequence(r.sections, st.sections)
    ensures confirmed ==> forall k :: 0 <= k < |st.sections| && st.sections[k].id != sectionId ==> st.sections[k] in r.sections
    ensures confirmed ==> r.editingSectionId == (if st.editingSectionId == Some(sectionId) then None else st.editingSectionId)
    ensures r.editingFieldId == st.editingFieldId
  {
    if !confirmed then st
    else
      var kept := Filter(st.sections, (s: Section) => s.id != sectionId);
      EditorState(kept, if st.editingSectionId == Some(sectionId) then None else st.editingSectionId, st.editingFieldId)
  }

  /** Deleting the section just added, when its id was new, gives back the
      sections as they were. */
  lemma AddThenDeleteSection(st: EditorState, now: nat)
    requires !HasSection(st.sections, NewSectionId(now))
    ensures DeleteSection(AddSection(st, now), NewSectionId(now), true).sections == st.sections
  {
    var p := (s: Section) => s.id != NewSectionId(now);
    var added := AddSection(st, now).sections;
    assert added == st.sections + [Section(NewSectionId(now), "New Section", [])];
    FilterAppend(st.sections, [Section(NewSectionId(now), "New Section", [])], p);
    FilterKeepsAll(st.sections, p);
  }

  /** `handleAddField`: a blank text field appended to every section with the
      id (the ids are unique in practice), and the new field opened for
      editing. */
  function AddField(st: EditorState, sectionId: string, now: nat): (r: EditorState)
    ensures |r.sections| == |st.sections|
    ensures forall k :: 0 <= k < |st.sections| && st.sections[k].id != sectionId ==> r.sections[k] == st.sections[k]
    ensures forall k :: 0 <= k < |st.sections| && st.sections[k].id == sectionId ==>
      r.sections[k].id == sectionId && r.sections[k].title == st.sections[k].title &&
      r.sections[k].fields == st.sections[k].fields + [NewField(now)]
    ensures r.editingFieldId == Some(NewFieldId(now)) && r.editingSectionId == Some(sectionId)
  {
    var sections := seq(|st.sections|, k requires 0 <= k < |st.sections| =>
      if st.sections[k].id == sectionId then st.sections[k].(fields := st.sections[k].fields + [NewField(now)])
      else st.sections[k]);
    EditorState(sections, Some(sectionId), Some(NewFieldId(now)))
  }

  /** The field list of a section after `handleDeleteField`. */
  function WithoutField(fields: seq<SectionField>, fieldId: string): (r: seq<SectionField>)
    ensures !HasField(r, fieldId)
    ensures IsSubsequence(r, fields)
    ensures forall k :: 0 <= k < |fields| && fields[k].id != fieldId ==> fields[k] in r
  {
    Filter(fields, (f: SectionField) => f.id != fieldId)
  }

  /** `handleDeleteField`: the fields with the id leave the sections with the
      section id; the field editing mark is dropped when it was on that id. */
  function DeleteField(st: EditorState, sectionId: string, fieldId: string, confirmed: bool): (r: EditorState)
    ensures !confirmed ==> r == st
    ensures |r.sections| == |st.sections|
    ensures confirmed ==> forall k :: 0 <= k < |st.sections| ==>
      r.sections[k].id == st.sections[k].id && r.sections[k].title == st.sections[k].title
    ensures confirmed ==> forall k :: 0 <= k < |st.sections| && st.sections[k].id != sectionId ==> r.sections[k] == st.sections[k]
    ensures confirmed ==> forall k :: 0 <= k < |st.sections| && st.sections[k].id == sectionId ==>
      r.sections[k].fields == WithoutField(st.sections[k].fields, fieldId)
    ensures confirmed ==> r.editingFieldId == (if st.editingFieldId == Some(fieldId) then None else st.editingFieldId)
    ensures r.editingSectionId == st.editingSectionId
  {
    if !confirmed then st
    else
      var sections := seq(|st.sections|, k requires 0 <= k < |st.sections| =>
        if st.sections[k].id == sectionId then st.sections[k].(fields := WithoutField(st.sections[k].fields, fieldId))
        else st.sections[k]);
      EditorState(sections, st.editingSectionId, if st.editingFieldId == Some(fieldId) then None else st.editingFieldId)
  }

  /** Deleting the field just added, when its id was new in that section,
      gives back the sections as they were. */
  lemma AddThenDeleteField(st: EditorState, sectionId: string, now: nat)
    requires forall k :: 0 <= k < |st.sections| && st.sections[k].id == sectionId ==> !HasField(st.sections[k].fields, NewFieldId(now))
    ensures DeleteField(AddField(st, sectionId, now), sectionId, NewFieldId(now), true).sections == st.sections
  {
    var added := AddField(st, sectionId, now);
    var r := DeleteField(added, sectionId, NewFieldId(now), true);
    var p := (f: SectionField) => f.id != NewFieldId(now);
    forall k | 0 <= k < |st.sections| ensures r.sections[k] == st.sections[k] {
      if st.sections[k].id == sectionId {
        var fields := st.sections[k].fields;
        FilterAppend(fields, [NewField(now)], p);
        FilterKeepsAll(fields, p);
        assert WithoutField(fields + [NewField(now)], NewFieldId(now)) == fields;
      }
    }
  }

  // ---------------------------------------------------------------------------
  // Moving (lines 226-272)

  /** The position an item moves from and to: one step towards the front
      (`up`) or the back, unless it is already at that end. */
  function Moved<T>(xs: seq<T>, idx: nat, up: bool): (r: seq<T>)
    requires idx < |xs|
    ensures |r| == |xs| && multiset(r) == multiset(xs)
    ensures (up && idx == 0) || (!up && idx == |xs| - 1) ==> r == xs
    ensures up && idx > 0 ==>
      (r[idx - 1] == xs[idx] && r[idx] == xs[idx - 1] &&
       forall k :: 0 <= k < |xs| && k != idx && k != idx - 1 ==> r[k] == xs[k])
    ensures !up && idx < |xs| - 1 ==>
      (r[idx + 1] == xs[idx] && r[idx] == xs[idx + 1] &&
       forall k :: 0 <= k < |xs| && k != idx && k != idx + 1 ==> r[k] == xs[k])
  {
    if (up && idx == 0) || (!up && idx == |xs| - 1) then xs
    else Swap(xs, idx, if up then idx - 1 else idx + 1)
  }

  /** Moving an item up and then moving it down again restores the order. */
  lemma MovedUpThenDown<T>(xs: seq<T>, idx: nat)
    requires 0 < idx < |xs|
    ensures Moved(Moved(xs, idx, true), idx - 1, false) == xs
  {
    var once := Moved(xs, idx, true);
    assert forall k :: 0 <= k < |xs| ==> Moved(once, idx - 1, false)[k] == xs[k];
  }

  /** `template.sections.findIndex(s => s.id === sectionId)` for an id that is there. */
  function SectionIndex(sections: seq<Section>, sectionId: string): (i: nat)
    requires HasSection(sections, sectionId)
    ensures i < |sections| && sections[i].id == sectionId
    ensures forall k :: 0 <= k < i ==> sections[k].id != sectionId
  {
    var found := FindIndex(sections, (s: Section) => s.id == sectionId);
    found.value
  }

  function FieldIndex(fields: seq<SectionField>, fieldId: string): (i: nat)
    requires HasField(fields, fieldId)
    ensures i < |fields| && fields[i].id == fieldId
    ensures forall k :: 0 <= k < i ==> fields[k].id != fieldId
  {
    var found := FindIndex(fields, (f: SectionField) => f.id == fieldId);
    found.value
  }

  /** `handleMoveSection` on an array copy: the first section with the id
      swaps places with its neighbour, unless it is at that end already. */
  method MoveSection(sections: seq<Section>, sectionId: string, up: bool) returns (r: seq<Section>)
    requires HasSection(sections, sectionId)
    ensures r == Moved(sections, SectionIndex(sections, sectionId), up)
  {
    var sectionIndex := SectionIndex(sections, sectionId);
    if (up && sectionIndex == 0) || (!up && sectionIndex == |sections| - 1) {
      r := sections;
      return;
    }
    r := SwappedCopy(sections, sectionIndex, if up then sectionIndex - 1 else sectionIndex + 1);
  }

  /** `const copy = [...xs]` followed by the destructuring swap of positions
      `i` and `j` in the copy. */
  method SwappedCopy<T>(xs: seq<T>, i: nat, j: nat) returns (r: seq<T>)
    requires i < |xs| && j < |xs|
    ensures r == Swap(xs, i, j)
  {
    var copy := new T[|xs|](k requires 0 <= k < |xs| => xs[k]);
    copy[i], copy[j] := copy[j], copy[i];
    r := copy[..];
  }

  /** After a section moves up, it is found one place earlier. */
  lemma SectionIndexAfterMoveUp(sections: seq<Section>, sectionId: string)
    requires HasSection(sections, sectionId) && SectionIndex(sections, sectionId) > 0
    ensures HasSection(Moved(sections, SectionIndex(sections, sectionId), true), sectionId)
    ensures SectionIndex(Moved(sections, SectionIndex(sections, sectionId), true), sectionId) == SectionIndex(sections, sectionId) - 1
  {
    var i := SectionIndex(sections, sectionId);
    var moved := Moved(sections, i, true);
    assert moved[i - 1].id == sectionId;
    assert forall k :: 0 <= k < i - 1 ==> moved[k] == sections[k];
  }

  /** Moving a section up and then down puts every section back. */
  lemma MoveSectionUpThenDown(sections: seq<Section>, sectionId: string)
    requires HasSection(sections, sectionId) && SectionIndex(sections, sectionId) > 0
    ensures var once := Moved(sections, SectionIndex(sections, sectionId), true);
      HasSection(once, sectionId) && Moved(once, SectionIndex(once, sectionId), false) == sections
  {
    SectionIndexAfterMoveUp(sections, sectionId);
    MovedUpThenDown(sections, SectionIndex(sections, sectionId));
  }

  /** The sections after `handleMoveField`: only the named section's field
      list moves. */
  function MovedField(sections: seq<Section>, sectionId: string, fieldId: string, up: bool): (r: seq<Section>)
    requires HasSection(sections, sectionId) && HasField(sections[SectionIndex(sections, sectionId)].fields, fieldId)
    ensures |r| == |sections|
    ensures forall k :: 0 <= k < |sections| && k != SectionIndex(sections, sectionId) ==> r[k] == sections[k]
    ensures var si := SectionIndex(sections, sectionId);
      r[si].id == sections[si].id && r[si].title == sections[si].title &&
      multiset(r[si].fields) == multiset(sections[si].fields)
  {
    var si := SectionIndex(sections, sectionId);
    var fields := sections[si].fields;
    sections[si := sections[si].(fields := Moved(fields, FieldIndex(fields, fieldId), up))]
  }

  /** `handleMoveField` on array copies of the sections and of the field list. */
  method MoveField(sections: seq<Section>, sectionId: string, fieldId: string, up: bool) returns (r: seq<Section>)
    requires HasSection(sections, sectionId) && HasField(sections[SectionIndex(sections, sectionId)].fields, fieldId)
    ensures r == MovedField(sections, sectionId, fieldId, up)
  {
    var sectionIndex := SectionIndex(sections, sectionId);
    var fields := sections[sectionIndex].fields;
    var fieldIndex := FieldIndex(fields, fieldId);
    if (up && fieldIndex == 0) || (!up && fieldIndex == |fields| - 1) {
      r := sections;
      assert sections[sectionIndex := sections[sectionIndex].(fields := fields)] == sections;
      return;
    }
    var newFields := SwappedCopy(fields, fieldIndex, if up then fieldIndex - 1 else fieldIndex + 1);
    assert newFields == Moved(fields, fieldIndex, up);
    r := ReplacedCopy(sections, sectionIndex, sections[sectionIndex].(fields := newFields));
  }

  /** `const copy = [...xs]` followed by `copy[i] = x`. */
  method ReplacedCopy<T>(xs: seq<T>, i: nat, x: T) returns (r: seq<T>)
    requires i < |xs|
    ensures r == xs[i := x]
  {
    var copy := new T[|xs|](k requires 0 <= k < |xs| => xs[k]);
    copy[i] := x;
    r := copy[..];
  }

  // ---------------------------------------------------------------------------
  // Editing a section or a field (lines 471-477 and 548-653)

  /** The section title box: every section with the id gets the title. */
  function RenameSection(sections: seq<Section>, sectionId: string, title: string): (r: seq<Section>)
    ensures |r| == |sections|
    ensures forall k :: 0 <= k < |sections| ==> r[k].id == sections[k].id && r[k].fields == sections[k].fields
    ensures forall k :: 0 <= k < |sections| ==> r[k].title == (if sections[k].id == sectionId then title else sections[k].title)
  {
    seq(|sections|, k requires 0 <= k < |sections| =>
      if sections[k].id == sectionId then sections[k].(title := title) else sections[k])
  }

  /** One input of the field editor: label, id, type, options text,
      placeholder or the required box. */
  datatype FieldEdit =
    | SetLabel(caption: string)
    | SetId(id: string)
    | SetKind(kind: string)
    | SetOptionsText(text: string)
    | SetPlaceholder(placeholder: string)
    | SetRequired(required: bool)

  /** The field after one edit; an options edit stores the parsed text. */
  function ApplyEdit(f: SectionField, edit: FieldEdit): (r: SectionField)
    ensures edit.SetLabel? ==> r.caption == edit.caption
    ensures edit.SetId? ==> r.id == edit.id
    ensures edit.SetKind? ==> r.kind == edit.kind
    ensures edit.SetOptionsText? ==> r.options == Some(ParseOptions(edit.text))
    ensures edit.SetPlaceholder? ==> r.placeholder == edit.placeholder
    ensures edit.SetRequired? ==> r.required == edit.required
    ensures r.defaultChecked == f.defaultChecked
    ensures !edit.SetLabel? ==> r.caption == f.caption
    ensures !edit.SetId? ==> r.id == f.id
    ensures !edit.SetKind? ==> r.kind == f.kind
    ensures !edit.SetOptionsText? ==> r.options == f.options
    ensures !edit.SetPlaceholder? ==> r.placeholder == f.placeholder
    ensures !edit.SetRequired? ==> r.required == f.required
  {
    match edit
    case SetLabel(caption) => f.(caption := caption)
    case SetId(id) => f.(id := id)
    case SetKind(kind) => f.(kind := kind)
    case SetOptionsText(text) => f.(options := Some(ParseOptions(text)))
    case SetPlaceholder(placeholder) => f.(placeholder := placeholder)
    case SetRequired(required) => f.(required := required)
  }

  /** `newSections[sectionIndex].fields[fieldIndex].<attr> = value`: the one
      field changes, every other field and section is as it was. */
  function EditField(sections: seq<Section>, sectionIndex: nat, fieldIndex: nat, edit: FieldEdit): (r: seq<Section>)
    requires sectionIndex < |sections| && fieldIndex < |sections[sectionIndex].fields|
    ensures |r| == |sections|
    ensures forall k :: 0 <= k < |sections| && k != sectionIndex ==> r[k] == sections[k]
    ensures r[sectionIndex].id == sections[sectionIndex].id && r[sectionIndex].title == sections[sectionIndex].title
    ensures |r[sectionIndex].fields| == |sections[sectionIndex].fields|
    ensures forall k :: 0 <= k < |sections[sectionIndex].fields| && k != fieldIndex ==>
      r[sectionIndex].fields[k] == sections[sectionIndex].fields[k]
    ensures r[sectionIndex].fields[fieldIndex] == ApplyEdit(sections[sectionIndex].fields[fieldIndex], edit)
  {
    var section := sections[sectionIndex];
    sections[sectionIndex := section.(fields := section.fields[fieldIndex := ApplyEdit(section.fields[fieldIndex], edit)])]
  }

  // ---------------------------------------------------------------------------
  // The options text box (lines 599-621)

  /** The text shown for a select's options: `value:label` pairs joined by
      `, `, or nothing when the field has no options. */
  function ShowOptions(options: Option<seq<SelectOption>>): string {
    match options
    case None => ""
    case Some(opts) => Join(OptionTexts(opts), ", ")
  }

  function OptionText(o: SelectOption): string {
    o.value + ":" + o.caption
  }

  function OptionTexts(opts: seq<SelectOption>): (r: seq<string>)
    ensures |r| == |opts| && forall k :: 0 <= k < |opts| ==> r[k] == OptionText(opts[k])
  {
    seq(|opts|, k requires 0 <= k < |opts| => OptionText(opts[k]))
  }

  /** One piece of the options text: split on `:`, both halves trimmed; the
      label falls back to the value when it is missing or empty. */
  function ParseOption(piece: string): (o: SelectOption)
    ensures o.caption == "" ==> o.value == ""
  {
    OptionOfParts(Split(piece, ':'))
  }

  /** `const [value, label] = parts.map(s => s.trim())` and the option built from them. */
  function OptionOfParts(parts: seq<string>): (o: SelectOption)
    requires |parts| > 0
    ensures o.caption == "" ==> o.value == ""
  {
    var value := Trim(parts[0]);
    var caption := if |parts| > 1 then Trim(parts[1]) else "";
    SelectOption(value, if caption != "" then caption else value)
  }

  /** `text.split(',').map(trim).filter(Boolean).map(parse)`. */
  function ParseOptions(text: string): (r: seq<SelectOption>)
    ensures |r| <= |Split(text, ',')|
  {
    ParsePieces(TrimAll(Split(text, ',')))
  }

  function TrimAll(pieces: seq<string>): (r: seq<string>)
    ensures |r| == |pieces| && forall k :: 0 <= k < |pieces| ==> r[k] == Trim(pieces[k])
  {
    seq(|pieces|, k requires 0 <= k < |pieces| => Trim(pieces[k]))
  }

  predicate NonEmpty(p: string) {
    p != ""
  }

  /** `.filter(Boolean).map(parse)` over the trimmed pieces. */
  function ParsePieces(trimmed: seq<string>): (r: seq<SelectOption>)
    ensures |r| <= |trimmed|
  {
    var kept := Filter(trimmed, NonEmpty);
    seq(|kept|, k requires 0 <= k < |kept| => ParseOption(kept[k]))
  }

  /** A string with no surrounding whitespace and at least one character. */
  predicate Trimmed(s: string) {
    s != [] && !IsSpace(s[0]) && !IsSpace(s[|s| - 1])
  }

  /** An option that survives the round trip: both halves non-empty,
      without surrounding whitespace, and free of `,` and `:`. */
  predicate Displayable(o: SelectOption) {
    Trimmed(o.value) && Trimmed(o.caption) &&
    ',' !in o.value && ',' !in o.caption && ':' !in o.value && ':' !in o.caption
  }

  /** Typing back the text the box shows gives the same options. */
  lemma ParseShowRoundTrip(opts: seq<SelectOption>)
    requires forall k :: 0 <= k < |opts| ==> Displayable(opts[k])
    ensures ParseOptions(ShowOptions(Some(opts))) == opts
  {
    if opts == [] {
      ParseEmptyText();
    } else {
      var texts := OptionTexts(opts);
      calc {
        ParseOptions(ShowOptions(Some(opts)));
        ParsePieces(TrimAll(Split(ShowOptions(Some(opts)), ',')));
        { ShowSplitsIntoPieces(opts); }
        ParsePieces(TrimAll(Spaced(texts)));
        { TrimSpacedTexts(opts); }
        ParsePieces(texts);
        { ParseOptionTexts(opts); }
        opts;
      }
    }
  }

  /** An empty box gives no options. */
  lemma ParseEmptyText()
    ensures ParseOptions("") == []
  {
    assert Split("", ',') == [""];
    assert TrimAll([""]) == [""];
    assert Filter([""], NonEmpty) == [];
  }

  /** The option texts parse back to the options. */
  lemma ParseOptionTexts(opts: seq<SelectOption>)
    requires forall k :: 0 <= k < |opts| ==> Displayable(opts[k])
    ensures ParsePieces(OptionTexts(opts)) == opts
  {
    var texts := OptionTexts(opts);
    forall k | 0 <= k < |texts| ensures NonEmpty(texts[k]) {
      assert |texts[k]| > 0;
    }
    FilterKeepsAll(texts, NonEmpty);
    forall k | 0 <= k < |opts| ensures ParseOption(texts[k]) == opts[k] {
      ParseOptionText(opts[k]);
    }
  }

  /** The shown text splits on `,` into the option texts, each after the
      first with its leading space. */
  lemma ShowSplitsIntoPieces(opts: seq<SelectOption>)
    requires |opts| > 0 && forall k :: 0 <= k < |opts| ==> Displayable(opts[k])
    ensures Split(ShowOptions(Some(opts)), ',') == Spaced(OptionTexts(opts))
  {
    var texts := OptionTexts(opts);
    var spaced := Spaced(texts);
    JoinCommaSpace(texts);
    forall k | 0 <= k < |spaced| ensures ',' !in spaced[k] {
      assert ',' !in texts[k];
      assert k > 0 ==> spaced[k] == " " + texts[k];
    }
    SplitJoin(spaced, ',');
  }

  /** Trimming the pieces gives the option texts back. */
  lemma TrimSpacedTexts(opts: seq<SelectOption>)
    requires |opts| > 0 && forall k :: 0 <= k < |opts| ==> Displayable(opts[k])
    ensures TrimAll(Spaced(OptionTexts(opts))) == OptionTexts(opts)
  {
    var texts := OptionTexts(opts);
    var pieces := Spaced(texts);
    forall k | 0 <= k < |pieces| ensures Trim(pieces[k]) == texts[k] {
      OptionTextTrimmed(opts[k]);
      if k > 0 {
        assert pieces[k] == " " + texts[k];
        TrimStartDropsLeadingSpace(" ", texts[k]);
      }
    }
  }

  /** `OptionText` of a displayable option is already trimmed. */
  lemma OptionTextTrimmed(o: SelectOption)
    requires Displayable(o)
    ensures Trim(OptionText(o)) == OptionText(o)
  {
    var t := OptionText(o);
    assert t[0] == o.value[0] && t[|t| - 1] == o.caption[|o.caption| - 1];
    TrimOfTrimmed(t);
  }

  /** A displayable option's text parses back to the option. */
  lemma ParseOptionText(o: SelectOption)
    requires Displayable(o)
    ensures ParseOption(OptionText(o)) == o
  {
    SplitPair(o.value, o.caption);
    OptionOfTrimmedParts(o);
  }

  /** Two trimmed halves, the label non-empty, make the option itself. */
  lemma OptionOfTrimmedParts(o: SelectOption)
    requires Trimmed(o.value) && Trimmed(o.caption)
    ensures OptionOfParts([o.value, o.caption]) == o
  {
    TrimOfTrimmed(o.value);
    TrimOfTrimmed(o.caption);
  }

  /** `value:label` splits on `:` into its two halves. */
  lemma SplitPair(value: string, caption: string)
    requires ':' !in value && ':' !in caption
    ensures Split(value + ":" + caption, ':') == [value, caption]
  {
    SplitAtFirst(value, ':', caption);
    SplitNoSeparator(caption, ':');
    assert value + ":" + caption == value + [':'] + caption;
  }

  /** The pieces after the first with a space in front. */
  function Spaced(parts: seq<string>): (r: seq<string>)
    requires |parts| > 0
    ensures |r| == |parts| && r[0] == parts[0]
    ensures forall k :: 1 <= k < |parts| ==> r[k] == " " + parts[k]
  {
    [parts[0]] + seq(|parts| - 1, k requires 0 <= k < |parts| - 1 => " " + parts[k + 1])
  }

  /** Joining with `, ` is joining with `,` the pieces that carry the space. */
  lemma {:induction false} JoinCommaSpace(parts: seq<string>)
    requires |parts| > 0
    ensures Join(parts, ", ") == Join(Spaced(parts), [','])
    decreases |parts|
  {
    if |parts| > 1 {
      var rest := parts[1..];
      JoinCommaSpace(rest);
      JoinPrefixFirst(Spaced(rest), " ", [',']);
      assert Spaced(parts)[1..] == [" " + rest[0]] + Spaced(rest)[1..];
      assert Join(Spaced(parts), [',']) == parts[0] + [','] + Join(Spaced(parts)[1..], [',']);
      assert Join(parts, ", ") == parts[0] + ", " + Join(rest, ", ");
    }
  }
}
