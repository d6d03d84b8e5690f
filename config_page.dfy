/** The template configuration page, src/pages/admin/ConfigPage.tsx: the
    sample data its preview renders, the checks of `handleSave`, and the
    edits of the field list and of a repeater's sub-field list. Its
    `processTemplate` is `Placeholders.ProcessPreview`. */
module ConfigPage {
  import opened Wrappers
  import opened JsObject
  import opened Values
  import opened Text
  import opened Seqs
  import opened Schema
  import opened Placeholders

  // ---------------------------------------------------------------------------
  // Sample data (lines 33-45)

  /** The sample record of one repeater item: every sub-field id maps to
      `Sample <label>`. */
  function SampleItem(subs: seq<SubField>): Record {
    FromPairs(seq(|subs|, i requires 0 <= i < |subs| => (subs[i].id, Str("Sample " + subs[i].caption))))
  }

  /** The inner `reduce` over a repeater's sub-fields. */
  method BuildSampleItem(subs: seq<SubField>) returns (item: Record)
    ensures item == SampleItem(subs)
  {
    ghost var pairs := seq(|subs|, i requires 0 <= i < |subs| => (subs[i].id, Str("Sample " + subs[i].caption)));
    item := [];
    var i := 0;
    while i < |subs|
      invariant 0 <= i <= |subs|
      invariant item == FromPairs(pairs[..i])
    {
      FromPairsSnoc(pairs, i);
      item := Put(item, subs[i].id, Str("Sample " + subs[i].caption));
      i := i + 1;
    }
    assert pairs[..i] == pairs;
  }

  /** The sample value of one field: a one-item list for a repeater, and
      `Sample <label>` for anything else. The source reads the repeater's
      sub-field list without a check, so it needs one. */
  function SampleValue(f: Field): Value
    requires IsRepeater(f) ==> f.subfields.Some?
  {
    if IsRepeater(f) then List([SampleItem(f.subfields.value)]) else Str("Sample " + f.caption)
  }

  predicate RepeatersHaveSubfields(fields: seq<Field>) {
    forall i :: 0 <= i < |fields| && IsRepeater(fields[i]) ==> fields[i].subfields.Some?
  }

  function SamplePairs(fields: seq<Field>): (ps: seq<(string, Value)>)
    requires RepeatersHaveSubfields(fields)
    ensures |ps| == |fields|
    ensures forall i :: 0 <= i < |fields| ==> ps[i] == (fields[i].id, SampleValue(fields[i]))
  {
    seq(|fields|, i requires 0 <= i < |fields| && RepeatersHaveSubfields(fields) => (fields[i].id, SampleValue(fields[i])))
  }

  function SampleData(fields: seq<Field>): Record
    requires RepeatersHaveSubfields(fields)
  {
    FromPairs(SamplePairs(fields))
  }

  /** The outer `reduce` of lines 33-45, writing one key per field into the
      accumulator. */
  method BuildSampleData(fields: seq<Field>) returns (acc: Record)
    requires RepeatersHaveSubfields(fields)
    ensures acc == SampleData(fields)
  {
    ghost var pairs := SamplePairs(fields);
    acc := [];
    var i := 0;
    while i < |fields|
      invariant 0 <= i <= |fields|
      invariant acc == FromPairs(pairs[..i])
    {
      var field := fields[i];
      var v: Value;
      if field.kind == "repeater" {
        var item := BuildSampleItem(field.subfields.value);
        v := List([item]);
      } else {
        v := Str("Sample " + field.caption);
      }
      FromPairsSnoc(pairs, i);
      acc := Put(acc, field.id, v);
      i := i + 1;
    }
    assert pairs[..i] == pairs;
  }

  /** Each field id holds the sample value of the last field with that id:
      `Sample <label>`, or for a repeater a list of exactly one item. */
  lemma SampleDataValue(fields: seq<Field>, k: nat)
    requires RepeatersHaveSubfields(fields) && k < |fields|
    requires forall j :: k < j < |fields| ==> fields[j].id != fields[k].id
    ensures Get(SampleData(fields), fields[k].id) == Some(SampleValue(fields[k]))
    ensures !IsRepeater(fields[k]) ==> Get(SampleData(fields), fields[k].id) == Some(Str("Sample " + fields[k].caption))
  {
    var pairs := SamplePairs(fields);
    forall j | k < j < |pairs| ensures pairs[j].0 != pairs[k].0 {
      assert pairs[j].0 == fields[j].id;
    }
    FromPairsGet(pairs, k);
  }

  /** So in the preview an each block over a repeater expands exactly once,
      with the sub-fields' sample values. */
  lemma SampleRepeaterExpandsOnce(fields: seq<Field>, k: nat, body: string, nf: NumberFormat)
    requires RepeatersHaveSubfields(fields) && k < |fields| && IsRepeater(fields[k])
    requires forall j :: k < j < |fields| ==> fields[j].id != fields[k].id
    ensures ExpandBlock(fields[k].id, body, SampleData(fields), nf)
      == SubstituteItem(body, SampleItem(fields[k].subfields.value), nf)
  {
    SampleDataValue(fields, k);
    ExpandSingleItem(fields[k].id, body, SampleData(fields), nf, SampleItem(fields[k].subfields.value));
  }

  // ---------------------------------------------------------------------------
  // Saving (lines 61-90)

  datatype SaveOutcome = Rejected(message: string) | Saved(id: string)

  /** `handleSave`: the name, then the category, then at least one field are
      checked, and the first failure is reported; otherwise the template is
      saved under the slug of its name when the route id is `new`, and under
      the route id otherwise. */
  function HandleSave(routeId: string, name: string, categoryId: string, fields: seq<Field>): (r: SaveOutcome)
    ensures r.Saved? <==> name != "" && categoryId != "" && |fields| > 0
    ensures name == "" ==> r == Rejected("Template name is required")
    ensures name != "" && categoryId == "" ==> r == Rejected("Category is required")
    ensures name != "" && categoryId != "" && fields == [] ==> r == Rejected("At least one field is required")
    ensures r.Saved? && routeId == "new" ==> r.id == Slug(name)
    ensures r.Saved? && routeId != "new" ==> r.id == routeId
  {
    if name == "" then Rejected("Template name is required")
    else if categoryId == "" then Rejected("Category is required")
    else if |fields| == 0 then Rejected("At least one field is required")
    else Saved(if routeId == "new" then Slug(name) else routeId)
  }

  // ---------------------------------------------------------------------------
  // The field list (lines 92-112)

  /** The field `addField` appends to a list of `n` fields. */
  function NewField(n: nat): Field {
    Field("field_" + NatToString(n + 1), "", "text", false, None)
  }

  /** `addField`: one blank text field appended, numbered after the list's length. */
  function AddField(fields: seq<Field>): (r: seq<Field>)
    ensures |r| == |fields| + 1 && r[..|fields|] == fields
    ensures r[|fields|] == NewField(|fields|)
  {
    fields + [NewField(|fields|)]
  }

  /** `updateField`: position `index` replaced, nothing else. */
  function UpdateField(fields: seq<Field>, index: nat, field: Field): (r: seq<Field>)
    requires index < |fields|
    ensures |r| == |fields| && r[index] == field
    ensures forall j :: 0 <= j < |fields| && j != index ==> r[j] == fields[j]
  {
    fields[index := field]
  }

  /** `removeField`: position `index` dropped, the rest kept in order. */
  function RemoveField(fields: seq<Field>, index: nat): (r: seq<Field>)
    ensures index < |fields| ==> |r| == |fields| - 1
    ensures index >= |fields| ==> r == fields
    ensures forall j :: 0 <= j < index && j < |r| ==> r[j] == fields[j]
    ensures forall j :: index <= j < |r| ==> r[j] == fields[j + 1]
    ensures index < |fields| ==> multiset(r) + multiset{fields[index]} == multiset(fields)
    ensures IsSubsequence(r, fields)
  {
    var r := RemoveAt(fields, index);
    RemoveAtIsSubsequence(fields, index);
    RemoveAtMultiset(fields, index);
    r
  }

  /** Ids come from the length, so after a removal a new field can get an id
      already in use: adding two fields, removing the first and adding again
      gives two fields with the id `field_2`. */
  lemma AddAfterRemoveRepeatsId()
    ensures var fs := AddField(RemoveField(AddField(AddField([])), 0));
      |fs| == 2 && fs[0].id == fs[1].id == "field_2"
  {
    assert NatToString(2) == "2";
  }

  // ---------------------------------------------------------------------------
  // A repeater's sub-fields (lines 114-159)

  /** The sub-field `addRepeaterField` appends to a list of `n` sub-fields
      (`n` is 0 when the repeater has no list: `undefined + 1 || 1` is 1). */
  function NewSubField(n: nat): SubField {
    SubField("subfield_" + NatToString(n + 1), "", "text")
  }

  /** `addRepeaterField`: a blank sub-field appended to the repeater at
      `repeaterIndex`; a field that is not a repeater is left alone. */
  function AddRepeaterField(fields: seq<Field>, repeaterIndex: nat): (r: seq<Field>)
    requires repeaterIndex < |fields|
    ensures !IsRepeater(fields[repeaterIndex]) ==> r == fields
    ensures |r| == |fields| && forall j :: 0 <= j < |fields| && j != repeaterIndex ==> r[j] == fields[j]
    ensures IsRepeater(fields[repeaterIndex]) ==>
      var old_ := fields[repeaterIndex].subfields.GetOr([]);
      r[repeaterIndex] == fields[repeaterIndex].(subfields := Some(old_ + [NewSubField(|old_|)]))
  {
    var current := fields[repeaterIndex];
    if IsRepeater(current) then
      var subs := current.subfields.GetOr([]);
      fields[repeaterIndex := current.(subfields := Some(subs + [NewSubField(|subs|)]))]
    else fields
  }

  /** `updateRepeaterField`: sub-field `fieldIndex` of the repeater replaced. */
  function UpdateRepeaterField(fields: seq<Field>, repeaterIndex: nat, fieldIndex: nat, sub: SubField): (r: seq<Field>)
    requires repeaterIndex < |fields|
    requires IsRepeater(fields[repeaterIndex]) ==>
      fields[repeaterIndex].subfields.Some? && fieldIndex < |fields[repeaterIndex].subfields.value|
    ensures !IsRepeater(fields[repeaterIndex]) ==> r == fields
    ensures |r| == |fields| && forall j :: 0 <= j < |fields| && j != repeaterIndex ==> r[j] == fields[j]
    ensures IsRepeater(fields[repeaterIndex]) ==>
      var subs := fields[repeaterIndex].subfields.value;
      r[repeaterIndex] == fields[repeaterIndex].(subfields := Some(subs[fieldIndex := sub]))
  {
    var current := fields[repeaterIndex];
    if IsRepeater(current) then
      fields[repeaterIndex := current.(subfields := Some(current.subfields.value[fieldIndex := sub]))]
    else fields
  }

  /** `removeRepeaterField`: sub-field `fieldIndex` of the repeater dropped. */
  function RemoveRepeaterField(fields: seq<Field>, repeaterIndex: nat, fieldIndex: nat): (r: seq<Field>)
    requires repeaterIndex < |fields|
    requires IsRepeater(fields[repeaterIndex]) ==> fields[repeaterIndex].subfields.Some?
    ensures !IsRepeater(fields[repeaterIndex]) ==> r == fields
    ensures |r| == |fields| && forall j :: 0 <= j < |fields| && j != repeaterIndex ==> r[j] == fields[j]
    ensures IsRepeater(fields[repeaterIndex]) && fieldIndex < |fields[repeaterIndex].subfields.value| ==>
      var subs := fields[repeaterIndex].subfields.value;
      r[repeaterIndex] == fields[repeaterIndex].(subfields := Some(subs[..fieldIndex] + subs[fieldIndex + 1..]))
    ensures IsRepeater(fields[repeaterIndex]) && fieldIndex >= |fields[repeaterIndex].subfields.value| ==> r == fields
    ensures IsRepeater(fields[repeaterIndex]) ==>
      r[repeaterIndex].subfields.Some? &&
      IsSubsequence(r[repeaterIndex].subfields.value, fields[repeaterIndex].subfields.value)
  {
    var current := fields[repeaterIndex];
    if IsRepeater(current) then
      RemoveAtIsSubsequence(current.subfields.value, fieldIndex);
      fields[repeaterIndex := current.(subfields := Some(RemoveAt(current.subfields.value, fieldIndex)))]
    else fields
  }

  /** A repeater without a sub-field list gets `subfield_1`, the same id as
      one whose list is empty. */
  lemma FirstSubFieldId(fields: seq<Field>, repeaterIndex: nat)
    requires repeaterIndex < |fields| && IsRepeater(fields[repeaterIndex])
    requires fields[repeaterIndex].subfields == None || fields[repeaterIndex].subfields == Some([])
    ensures AddRepeaterField(fields, repeaterIndex)[repeaterIndex].subfields == Some([SubField("subfield_1", "", "text")])
  {
    var subs := fields[repeaterIndex].subfields.GetOr([]);
    assert subs == [];
    assert NatToString(1) == "1";
    assert NewSubField(0) == SubField("subfield_1", "", "text");
    var r := AddRepeaterField(fields, repeaterIndex);
    assert r[repeaterIndex] == fields[repeaterIndex].(subfields := Some(subs + [NewSubField(|subs|)]));
    assert subs + [NewSubField(|subs|)] == [NewSubField(0)];
  }
}
