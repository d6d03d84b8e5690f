/** The field schemas that templates carry: the flat field list of the
    templates in src/data/templateData.ts (a repeater holds its own list of
    sub-fields), and the sectioned schema of the editor and the document
    creator, whose fields carry a placeholder, select options and a checkbox
    default. */
module Schema {
  import opened Wrappers
  import opened Seqs

  /** A sub-field of a repeater: `{ id, label, type }` (the label is `caption`, the type `kind`). */
  datatype SubField = SubField(id: string, caption: string, kind: string)

  /** A top-level field; `subfields` is the `fields` list, absent on
      everything but repeaters. */
  datatype Field = Field(id: string, caption: string, kind: string, required: bool, subfields: Option<seq<SubField>>)

  predicate IsRepeater(f: Field) {
    f.kind == "repeater"
  }

  /** One `{ value, label }` choice of a select field. */
  datatype SelectOption = SelectOption(value: string, caption: string)

  /** A field of a section; a missing `required`, `placeholder` or
      `defaultChecked` is `false`, `''` and `false`. */
  datatype SectionField = SectionField(
    id: string,
    caption: string,
    kind: string,
    required: bool,
    placeholder: string,
    options: Option<seq<SelectOption>>,
    defaultChecked: bool)

  datatype Section = Section(id: string, title: string, fields: seq<SectionField>)

  function FieldId(f: Field): string {
    f.id
  }

  function SectionId(s: Section): string {
    s.id
  }

  function FieldIds(fields: seq<Field>): seq<string> {
    Map(fields, FieldId)
  }

  function SectionIds(sections: seq<Section>): seq<string> {
    Map(sections, SectionId)
  }
}
