/** The admin template list of src/pages/admin/TemplatePage.tsx: a search on
    the name, a category drop-down and the field count column. */
module TemplatePage {
  import opened Wrappers
  import opened Text
  import opened Seqs
  import opened Schema
  import opened Catalog

  /** The drop-down's `onChange`: `e.target.value || null`, so the
      `All Categories` option (value `""`) clears the category. */
  function SelectCategory(value: string): (selected: Option<string>)
    ensures selected.None? <==> value == ""
    ensures selected.Some? ==> selected.value == value
  {
    if value == "" then None else Some(value)
  }

  /** The drop-down shows `selectedCategory || ''`: choosing what it shows
      selects the category again. */
  lemma SelectCategoryRoundTrip(selected: Option<string>)
    requires selected.None? || selected.value != ""
    ensures SelectCategory(if selected.Some? then selected.value else "") == selected
  {
  }

  /** The filter's predicate: the search term in the name only, ignoring
      case, and the selected category when one is set (a falsy one is none). */
  predicate Matches(t: Template, searchTerm: string, selectedCategory: Option<string>) {
    && IncludesIgnoringCase(t.name, searchTerm)
    && (selectedCategory.None? || selectedCategory.value == "" || t.categoryId == selectedCategory.value)
  }

  /** `filteredTemplates`: the matching templates in catalogue order. */
  function FilteredTemplates(templates: seq<Template>, searchTerm: string, selectedCategory: Option<string>): (r: seq<Template>)
    ensures IsSubsequence(r, templates)
    ensures forall i :: 0 <= i < |r| ==> Matches(r[i], searchTerm, selectedCategory)
    ensures forall i :: 0 <= i < |templates| && Matches(templates[i], searchTerm, selectedCategory) ==> templates[i] in r
  {
    Filter(templates, t => Matches(t, searchTerm, selectedCategory))
  }

  /** The `All Categories` option with an empty search lists every template. */
  lemma AllCategoriesShowsAll(templates: seq<Template>)
    ensures FilteredTemplates(templates, "", SelectCategory("")) == templates
  {
    forall i | 0 <= i < |templates| ensures Matches(templates[i], "", None) {
      IncludesEmptyTerm(templates[i].name);
    }
    FilterKeepsAll(templates, t => Matches(t, "", None));
  }

  /** The description is never searched: two templates that differ only in
      their description are both kept or both dropped. */
  lemma DescriptionNotSearched(t: Template, description: string, searchTerm: string, selectedCategory: Option<string>)
    ensures Matches(t.(description := description), searchTerm, selectedCategory) == Matches(t, searchTerm, selectedCategory)
  {
  }

  /** A term found only in the description does not keep the template. */
  lemma DescriptionOnlyMatchDropped()
    ensures !Matches(Template("1", "Invoice", "billing", "", [], ""), "billing", None)
  {
    var name := Lower("Invoice");
    var term := Lower("billing");
    assert |term| == 7 && |name| == 7;
    assert term[0] == 'b' && name[0] == 'i';
    assert !StartsWithAt(name, 0, term);
  }

  /** The fields column: the number of top-level fields. */
  function FieldCount(t: Template): (n: nat)
    ensures n == |FieldIds(t.fields)|
  {
    |t.fields|
  }

  /** A repeater counts once, however many sub-fields it has. */
  lemma RepeaterCountsOnce(t: Template, k: nat, subfields: seq<SubField>)
    requires k < |t.fields|
    ensures FieldCount(t.(fields := t.fields[k := t.fields[k].(subfields := Some(subfields))])) == FieldCount(t)
  {
  }
}
