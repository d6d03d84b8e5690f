/** The static catalogue of src/data/templateData.ts: the templates the
    document page is built from and the categories they belong to. */
module Catalog {
  import opened Schema

  /** A template: its flat field list and the HTML its placeholders live in. */
  datatype Template = Template(id: string, name: string, description: string, categoryId: string, fields: seq<Field>, html: string)

  /** A category of the catalogue, also the entity the category page edits. */
  datatype Category = Category(id: string, name: string)
}
