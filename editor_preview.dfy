/** The template editor's own preview, src/pages/admin/TemplateEditor.tsx:
    the sample data built from the sections (lines 116-149) and
    `renderPreview` (lines 275-297), a dialect of its own:

    1. the dotted pass: for every section id and every field id of the
       sample data, in key order, `{{section.field}}` is replaced everywhere
       by the value's string form, with `split(placeholder).join(value)`;
    2. the conditional pass: every match of
       `/{{#if ([^}]+)}}([\s\S]*?){{\/if}}/g` becomes its body when the
       sample value the condition names is truthy, and `''` otherwise. The
       condition is split on `.` into a section id and a field id; without a
       dot the field id is `undefined`, which names no field. */
module EditorPreview {
  import opened Wrappers
  import opened JsObject
  import opened Values
  import opened Text
  import opened Schema
  import opened Placeholders

  /** The editor's sample data: a record of field values per section id. */
  type SampleTree = Obj<Record>

  // ---------------------------------------------------------------------------
  // Sample data (lines 116-149)

  /** Kinds whose sample is the placeholder or a fixed non-empty text. */
  predicate IsTextLike(kind: string) {
    kind == "text" || kind == "textarea" || kind == "email" || kind == "number"
  }

  /** The `switch` on the field type. `today` is the date part of
      `new Date().toISOString()`, read from the clock. */
  function EditorSampleValue(f: SectionField, today: string): (v: Value)
    ensures v.Bool? <==> f.kind == "checkbox"
    ensures f.kind == "checkbox" ==> v == Bool(f.defaultChecked)
    ensures IsTextLike(f.kind) ==> v.Str? && v.s != ""
    ensures IsTextLike(f.kind) && f.placeholder != "" ==> v == Str(f.placeholder)
    ensures f.kind == "select" ==> v == Str(if f.options.Some? && |f.options.value| > 0 then f.options.value[0].value else "")
    ensures f.kind == "date" ==> v == Str(today)
    ensures !IsTextLike(f.kind) && f.kind !in {"date", "select", "checkbox"} ==> v == Str("")
  {
    match f.kind
    case "text" => Str(if f.placeholder != "" then f.placeholder else "Sample " + f.caption)
    case "textarea" => Str(if f.placeholder != "" then f.placeholder else "Sample " + f.caption)
    case "email" => Str(if f.placeholder != "" then f.placeholder else "sample@example.com")
    case "number" => Str(if f.placeholder != "" then f.placeholder else "100")
    case "date" => Str(today)
    case "select" => Str(if f.options.Some? && |f.options.value| > 0 then f.options.value[0].value else "")
    case "checkbox" => Bool(f.defaultChecked)
    case _ => Str("")
  }

  function FieldSamplePairs(fields: seq<SectionField>, today: string): (ps: seq<(string, Value)>)
    ensures |ps| == |fields| && forall k :: 0 <= k < |fields| ==> ps[k] == (fields[k].id, EditorSampleValue(fields[k], today))
  {
    seq(|fields|, k requires 0 <= k < |fields| => (fields[k].id, EditorSampleValue(fields[k], today)))
  }

  /** `data[section.id]`: one value per field id, the later field winning. */
  function SectionSample(section: Section, today: string): Record {
    FromPairs(FieldSamplePairs(section.fields, today))
  }

  function SectionSamplePairs(sections: seq<Section>, today: string): (ps: seq<(string, Record)>)
    ensures |ps| == |sections| && forall k :: 0 <= k < |sections| ==> ps[k] == (sections[k].id, SectionSample(sections[k], today))
  {
    seq(|sections|, k requires 0 <= k < |sections| => (sections[k].id, SectionSample(sections[k], today)))
  }

  /** The sample data: `data[section.id] = {}` and then one write per field,
      for every section in order. */
  function EditorSampleData(sections: seq<Section>, today: string): SampleTree {
    FromPairs(SectionSamplePairs(sections, today))
  }

  /** The nested `forEach` of lines 118-147: a fresh record is stored under
      the section id, then each field's value is written into it. */
  method BuildEditorSampleData(sections: seq<Section>, today: string) returns (data: SampleTree)
    ensures data == EditorSampleData(sections, today)
  {
    ghost var pairs := SectionSamplePairs(sections, today);
    data := [];
    var i := 0;
    while i < |sections|
      invariant 0 <= i <= |sections|
      invariant data == FromPairs(pairs[..i])
    {
      var section := sections[i];
      var before := data;
      ghost var fieldPairs := FieldSamplePairs(section.fields, today);
      var inner: Record := [];
      data := Put(data, section.id, inner);
      var j := 0;
      while j < |section.fields|
        invariant 0 <= j <= |section.fields|
        invariant inner == FromPairs(fieldPairs[..j])
        invariant data == Put(before, section.id, inner)
      {
        var field := section.fields[j];
        var v := EditorSampleValue(field, today);
        FromPairsSnoc(fieldPairs, j);
        inner := Put(inner, field.id, v);
        data := Put(before, section.id, inner);
        j := j + 1;
      }
      assert fieldPairs[..j] == fieldPairs;
      FromPairsSnoc(pairs, i);
      i := i + 1;
    }
    assert pairs[..i] == pairs;
  }

  /** The sample data holds an entry for exactly the section ids, and each
      entry for exactly the field ids of the last section with that id. */
  lemma EditorSampleKeys(sections: seq<Section>, today: string, k: nat, key: string)
    requires k < |sections| && forall j :: k < j < |sections| ==> sections[j].id != sections[k].id
    ensures HasKey(EditorSampleData(sections, today), key) <==> exists j :: 0 <= j < |sections| && sections[j].id == key
    ensures Get(EditorSampleData(sections, today), sections[k].id) == Some(SectionSample(sections[k], today))
    ensures HasKey(SectionSample(sections[k], today), key) <==>
      exists j :: 0 <= j < |sections[k].fields| && sections[k].fields[j].id == key
  {
    SectionEntry(sections, today, k);
    var pairs := SectionSamplePairs(sections, today);
    FromPairsHasKey(pairs, key);
    if j :| 0 <= j < |pairs| && pairs[j].0 == key {
      assert sections[j].id == key;
    }
    if j :| 0 <= j < |sections| && sections[j].id == key {
      assert pairs[j].0 == key;
    }
    var fields := sections[k].fields;
    var fieldPairs := FieldSamplePairs(fields, today);
    FromPairsHasKey(fieldPairs, key);
    if j :| 0 <= j < |fieldPairs| && fieldPairs[j].0 == key {
      assert fields[j].id == key;
    }
    if j :| 0 <= j < |fields| && fields[j].id == key {
      assert fieldPairs[j].0 == key;
    }
  }

  /** The entry stored under the last section with an id is that section's sample. */
  lemma SectionEntry(sections: seq<Section>, today: string, k: nat)
    requires k < |sections| && forall j :: k < j < |sections| ==> sections[j].id != sections[k].id
    ensures Get(EditorSampleData(sections, today), sections[k].id) == Some(SectionSample(sections[k], today))
  {
    var pairs := SectionSamplePairs(sections, today);
    forall j | k < j < |pairs| ensures pairs[j].0 != pairs[k].0 {
      assert pairs[j].0 == sections[j].id;
    }
    FromPairsGet(pairs, k);
  }

  /** A field's sample value is found under its section and field ids (for
      the last section and the last field with those ids). */
  lemma EditorSampleLookup(sections: seq<Section>, today: string, k: nat, m: nat)
    requires k < |sections| && forall j :: k < j < |sections| ==> sections[j].id != sections[k].id
    requires m < |sections[k].fields|
    requires forall j :: m < j < |sections[k].fields| ==> sections[k].fields[j].id != sections[k].fields[m].id
    ensures Get(EditorSampleData(sections, today), sections[k].id) == Some(SectionSample(sections[k], today))
    ensures Get(SectionSample(sections[k], today), sections[k].fields[m].id) == Some(EditorSampleValue(sections[k].fields[m], today))
  {
    SectionEntry(sections, today, k);
    var fields := sections[k].fields;
    var fieldPairs := FieldSamplePairs(fields, today);
    forall j | m < j < |fieldPairs| ensures fieldPairs[j].0 != fieldPairs[m].0 {
      assert fieldPairs[j].0 == fields[j].id;
    }
    FromPairsGet(fieldPairs, m);
  }

  // ---------------------------------------------------------------------------
  // The dotted pass (lines 280-286)

  function DottedPlaceholder(sectionId: string, fieldId: string): (p: string)
    ensures |p| > 0
  {
    "{{" + sectionId + "." + fieldId + "}}"
  }

  /** The inner `forEach` over one section's fields. */
  function SectionPass(content: string, sectionId: string, fields: Record, nf: NumberFormat): string
    decreases |fields|
  {
    if fields == [] then content
    else SectionPass(ReplaceAll(content, DottedPlaceholder(sectionId, fields[0].0), ToText(fields[0].1, nf)), sectionId, fields[1..], nf)
  }

  /** The outer `forEach` over the section ids. */
  function DottedPass(content: string, data: SampleTree, nf: NumberFormat): string
    decreases |data|
  {
    if data == [] then content
    else DottedPass(SectionPass(content, data[0].0, data[0].1, nf), data[1..], nf)
  }

  /** When no placeholder of a section's fields occurs, the section changes nothing. */
  lemma {:induction false} SectionPassKeepsUnknown(content: string, sectionId: string, fields: Record, nf: NumberFormat)
    requires forall j :: 0 <= j < |fields| ==> !Contains(content, DottedPlaceholder(sectionId, fields[j].0))
    ensures SectionPass(content, sectionId, fields, nf) == content
    decreases |fields|
  {
    if fields != [] {
      assert forall j :: 0 <= j < |fields[1..]| ==> fields[1..][j] == fields[j + 1];
      SectionPassKeepsUnknown(content, sectionId, fields[1..], nf);
    }
  }

  /** Placeholders of unknown sections and fields stay literal: when no
      placeholder of a known pair occurs, the dotted pass changes nothing. */
  lemma {:induction false} DottedPassKeepsUnknown(content: string, data: SampleTree, nf: NumberFormat)
    requires forall i, j :: 0 <= i < |data| && 0 <= j < |data[i].1| ==> !Contains(content, DottedPlaceholder(data[i].0, data[i].1[j].0))
    ensures DottedPass(content, data, nf) == content
    decreases |data|
  {
    if data != [] {
      SectionPassKeepsUnknown(content, data[0].0, data[0].1, nf);
      assert forall i :: 0 <= i < |data[1..]| ==> data[1..][i] == data[i + 1];
      DottedPassKeepsUnknown(content, data[1..], nf);
    }
  }

  /** Content without `{{` has no dotted placeholder. */
  lemma DottedPassNoBraces(content: string, data: SampleTree, nf: NumberFormat)
    requires !Contains(content, "{{")
    ensures DottedPass(content, data, nf) == content
  {
    forall i, j | 0 <= i < |data| && 0 <= j < |data[i].1|
      ensures !Contains(content, DottedPlaceholder(data[i].0, data[i].1[j].0))
    {
      var p := DottedPlaceholder(data[i].0, data[i].1[j].0);
      NoBracesNoTag(content, p);
    }
    DottedPassKeepsUnknown(content, data, nf);
  }

  // ---------------------------------------------------------------------------
  // The conditional pass (lines 289-294)

  const IfOpen: string := "{{#if "
  const IfClose: string := "{{/if}}"

  predicate NotBrace(c: char) {
    c != '}'
  }

  /** A match of the conditional pattern at `i`: `{{#if `, a non-empty
      condition without `}` up to `condEnd`, `}}`, then the lazy body up to
      the first `{{/if}}`, at `bodyEnd`. */
  ghost predicate IfBlockAt(s: string, i: nat, condEnd: nat, bodyEnd: nat) {
    && StartsWithAt(s, i, IfOpen)
    && i + |IfOpen| < condEnd <= |s|
    && (forall q :: i + |IfOpen| <= q < condEnd ==> NotBrace(s[q]))
    && StartsWithAt(s, condEnd, "}}")
    && condEnd + 2 <= bodyEnd <= |s|
    && StartsWithAt(s, bodyEnd, IfClose)
    && (forall q :: condEnd + 2 <= q < bodyEnd ==> !StartsWithAt(s, q, IfClose))
  }

  /** The conditional pattern tried at `i`: the condition is the greedy run
      of non-`}` characters, which must be followed by `}}`. */
  function MatchIfAt(s: string, i: nat): (m: Option<BlockMatch>)
    requires i <= |s|
    ensures m.Some? ==> m.value.argStart == i + |IfOpen| && IfBlockAt(s, i, m.value.argEnd, m.value.bodyEnd)
    ensures m.Some? ==> m.value.argStart < m.value.argEnd && m.value.argEnd + 2 <= m.value.bodyEnd
    ensures m.Some? ==> i < m.value.end == m.value.bodyEnd + |IfClose| <= |s|
  {
    if !StartsWithAt(s, i, IfOpen) then None
    else
      var b := RunEnd(s, i + |IfOpen|, NotBrace);
      if b == i + |IfOpen| || !StartsWithAt(s, b, "}}") then None
      else match FindFrom(s, IfClose, b + 2)
        case None => None
        case Some(c) => Some(BlockMatch(i + |IfOpen|, b, c, c + |IfClose|))
  }

  /** Any occurrence of the pattern's shape at `i` is the match `MatchIfAt`
      returns. */
  lemma MatchIfAtComplete(s: string, i: nat, b: nat, c: nat)
    requires IfBlockAt(s, i, b, c)
    ensures MatchIfAt(s, i) == Some(BlockMatch(i + |IfOpen|, b, c, c + |IfClose|))
  {
    assert !NotBrace(s[b]);
    RunEndUnique(s, i + |IfOpen|, NotBrace, b);
    FindFromUnique(s, IfClose, b + 2, c);
  }

  /** JavaScript truthiness of the looked-up value (`undefined` is `None`). */
  predicate Truthy(v: Option<Value>) {
    match v
    case None => false
    case Some(Str(s)) => s != ""
    case Some(Num(n)) => n != 0.0
    case Some(Bool(b)) => b
    case Some(Null) => false
    case Some(List(_)) => true
  }

  /** `const [sectionId, fieldId] = condition.split('.')` and
      `sampleData[sectionId]?.[fieldId]`; a missing field id reads the key
      `undefined`. */
  function CondValue(data: SampleTree, condition: string): Option<Value> {
    var parts := Split(condition, '.');
    var fieldId := if |parts| > 1 then parts[1] else "undefined";
    match Get(data, parts[0])
    case None => None
    case Some(fields) => Get(fields, fieldId)
  }

  /** A `section.field` condition reads that field of that section. */
  lemma CondValueDotted(data: SampleTree, sectionId: string, fieldId: string)
    requires '.' !in sectionId && '.' !in fieldId
    ensures CondValue(data, sectionId + "." + fieldId) ==
      (match Get(data, sectionId) case None => None case Some(fields) => Get(fields, fieldId))
  {
    SplitAtFirst(sectionId, '.', fieldId);
    SplitNoSeparator(fieldId, '.');
    assert sectionId + "." + fieldId == sectionId + ['.'] + fieldId;
  }

  /** The conditional replacement at index `i`: the body or nothing for a
      block starting there and the index after it, or the character there and
      the next index. */
  function IfStepAt(s: string, i: nat, data: SampleTree): (r: (string, nat))
    requires i < |s|
    ensures i < r.1 <= |s|
  {
    match MatchIfAt(s, i)
    case Some(m) =>
      ((if Truthy(CondValue(data, s[m.argStart..m.argEnd])) then s[m.argEnd + 2..m.bodyEnd] else ""), m.end)
    case None => ([s[i]], i + 1)
  }

  /** The global conditional replacement from index `i` on. */
  function ScanIf(s: string, i: nat, data: SampleTree): string
    requires i <= |s|
    decreases |s| - i
  {
    if i == |s| then ""
    else
      var step := IfStepAt(s, i, data);
      step.0 + ScanIf(s, step.1, data)
  }

  function IfPass(content: string, data: SampleTree): string {
    ScanIf(content, 0, data)
  }

  /** `previewContent.replace(conditionalRegex, callback)` as a left-to-right scan. */
  method ApplyIfPass(content: string, data: SampleTree) returns (r: string)
    ensures r == IfPass(content, data)
  {
    r := "";
    var i := 0;
    while i < |content|
      invariant 0 <= i <= |content|
      invariant r + ScanIf(content, i, data) == IfPass(content, data)
      decreases |content| - i
    {
      var step := IfStepAt(content, i, data);
      assert ScanIf(content, i, data) == step.0 + ScanIf(content, step.1, data);
      assert r + (step.0 + ScanIf(content, step.1, data)) == r + step.0 + ScanIf(content, step.1, data);
      r := r + step.0;
      i := step.1;
    }
  }

  /** Where no conditional starts, the scan copies the text. */
  lemma {:induction false} ScanIfNoBlock(s: string, i: nat, data: SampleTree)
    requires i <= |s|
    requires forall q :: i <= q <= |s| ==> !StartsWithAt(s, q, IfOpen)
    ensures ScanIf(s, i, data) == s[i..]
    decreases |s| - i
  {
    if i < |s| {
      assert MatchIfAt(s, i).None?;
      ScanIfNoBlock(s, i + 1, data);
      assert [s[i]] + s[i + 1..] == s[i..];
    }
  }

  /** `{{/if}}` does not overlap itself. */
  lemma IfCloseNoOverlap(s: string, q: nat, e: nat)
    requires q < e && StartsWithAt(s, q, IfClose) && StartsWithAt(s, e, IfClose)
    ensures q + |IfClose| <= e
  {
    assert s[e] == s[e..e + |IfClose|][0] == '{';
    assert e + 1 < |s| && s[e + 1] == s[e..e + |IfClose|][1] == '{';
    assert forall j :: q <= j < q + |IfClose| && j < |s| ==> s[j] == s[q..q + |IfClose|][j - q] == IfClose[j - q];
    assert forall k :: 1 <= k < |IfClose| - 1 ==> IfClose[k] != '{' || IfClose[k + 1] != '{';
    assert IfClose[|IfClose| - 1] != '{';
  }

  /** A conditional block on its own becomes its body exactly when the
      value its condition names is truthy, and nothing otherwise. */
  lemma IfPassSingleBlock(condition: string, body: string, data: SampleTree)
    requires condition != "" && '}' !in condition && !Contains(body, IfClose)
    ensures IfPass(IfOpen + condition + "}}" + body + IfClose, data) ==
      (if Truthy(CondValue(data, condition)) then body else "")
  {
    var s := IfOpen + condition + "}}" + body + IfClose;
    var b := |IfOpen| + |condition|;
    var c := b + 2 + |body|;
    assert s[|IfOpen|..b] == condition;
    assert s[b..b + 2] == "}}";
    assert s[b + 2..c] == body;
    assert s[c..] == IfClose;
    forall q | |IfOpen| <= q < b ensures NotBrace(s[q]) {
      assert s[q] == condition[q - |IfOpen|];
    }
    forall q | b + 2 <= q < c ensures !StartsWithAt(s, q, IfClose) {
      if StartsWithAt(s, q, IfClose) {
        IfCloseNoOverlap(s, q, c);
        assert s[q..q + |IfClose|] == body[q - b - 2..q - b - 2 + |IfClose|];
        assert StartsWithAt(body, q - b - 2, IfClose);
      }
    }
    assert IfBlockAt(s, 0, b, c);
    MatchIfAtComplete(s, 0, b, c);
    assert ScanIf(s, c + |IfClose|, data) == "";
  }

  /** A condition naming a section the sample data lacks hides the block. */
  lemma IfMissingSectionHides(sectionId: string, fieldId: string, body: string, data: SampleTree)
    requires '.' !in sectionId && '.' !in fieldId && '}' !in sectionId && '}' !in fieldId
    requires !HasKey(data, sectionId) && !Contains(body, IfClose)
    ensures IfPass(IfOpen + sectionId + "." + fieldId + "}}" + body + IfClose, data) == ""
  {
    var condition := sectionId + "." + fieldId;
    assert IfOpen + condition + "}}" + body + IfClose == IfOpen + sectionId + "." + fieldId + "}}" + body + IfClose;
    IfPassSingleBlock(condition, body, data);
    CondValueDotted(data, sectionId, fieldId);
  }

  /** In the editor's preview a conditional on a text-like field always
      shows its body (its sample is never empty), and one on a checkbox shows
      it exactly when the box is checked by default. */
  lemma IfOnSampleField(sections: seq<Section>, today: string, k: nat, m: nat, body: string)
    requires k < |sections| && forall j :: k < j < |sections| ==> sections[j].id != sections[k].id
    requires m < |sections[k].fields|
    requires forall j :: m < j < |sections[k].fields| ==> sections[k].fields[j].id != sections[k].fields[m].id
    requires '.' !in sections[k].id && '.' !in sections[k].fields[m].id
    requires '}' !in sections[k].id && '}' !in sections[k].fields[m].id
    requires !Contains(body, IfClose)
    ensures var shown := IfPass(IfOpen + sections[k].id + "." + sections[k].fields[m].id + "}}" + body + IfClose,
                                EditorSampleData(sections, today));
      (IsTextLike(sections[k].fields[m].kind) ==> shown == body) &&
      (sections[k].fields[m].kind == "checkbox" ==> shown == (if sections[k].fields[m].defaultChecked then body else ""))
  {
    var data := EditorSampleData(sections, today);
    EditorSampleLookup(sections, today, k, m);
    IfOnFieldValue(sections[k].id, sections[k].fields[m].id, body, data, EditorSampleValue(sections[k].fields[m], today));
  }

  /** A block conditioned on `section.field` shows its body exactly when
      that field's value is truthy. */
  lemma IfOnFieldValue(sid: string, fid: string, body: string, data: SampleTree, v: Value)
    requires '.' !in sid && '.' !in fid && '}' !in sid && '}' !in fid
    requires !Contains(body, IfClose)
    requires Get(data, sid).Some? && Get(Get(data, sid).value, fid) == Some(v)
    ensures IfPass(IfOpen + sid + "." + fid + "}}" + body + IfClose, data) == (if Truthy(Some(v)) then body else "")
  {
    var condition := sid + "." + fid;
    assert IfOpen + condition + "}}" + body + IfClose == IfOpen + sid + "." + fid + "}}" + body + IfClose;
    IfPassSingleBlock(condition, body, data);
    CondValueDotted(data, sid, fid);
  }

  // ---------------------------------------------------------------------------
  // The preview

  function EditorPreviewOf(content: string, data: SampleTree, nf: NumberFormat): string {
    IfPass(DottedPass(content, data, nf), data)
  }

  /** `renderPreview`: the dotted pass as nested loops of `split`/`join`,
      then the conditional pass. */
  method RenderPreview(content: string, data: SampleTree, nf: NumberFormat) returns (previewContent: string)
    ensures previewContent == EditorPreviewOf(content, data, nf)
  {
    previewContent := content;
    var i := 0;
    while i < |data|
      invariant 0 <= i <= |data|
      invariant DottedPass(previewContent, data[i..], nf) == DottedPass(content, data, nf)
    {
      var sectionId := data[i].0;
      var fields := data[i].1;
      ghost var start := previewContent;
      var j := 0;
      while j < |fields|
        invariant 0 <= j <= |fields|
        invariant SectionPass(previewContent, sectionId, fields[j..], nf) == SectionPass(start, sectionId, fields, nf)
      {
        var value := ToText(fields[j].1, nf);
        var placeholder := "{{" + sectionId + "." + fields[j].0 + "}}";
        SplitOnJoin(previewContent, placeholder, value);
        assert fields[j..][1..] == fields[j + 1..];
        previewContent := Join(SplitOn(previewContent, placeholder), value);
        j := j + 1;
      }
      assert data[i..][1..] == data[i + 1..];
      i := i + 1;
    }
    previewContent := ApplyIfPass(previewContent, data);
  }

  /** Content without `{{` is shown as it is. */
  lemma EditorPreviewNoBraces(content: string, data: SampleTree, nf: NumberFormat)
    requires !Contains(content, "{{")
    ensures EditorPreviewOf(content, data, nf) == content
  {
    DottedPassNoBraces(content, data, nf);
    NoBracesNoTag(content, IfOpen);
    ScanIfNoBlock(content, 0, data);
  }
}
