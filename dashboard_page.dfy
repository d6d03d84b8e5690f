/** The template gallery of src/pages/DashboardPage.tsx: the search and
    category filter over the catalogue, and the link each card offers. */
module DashboardPage {
  import opened Wrappers
  import opened Text
  import opened Seqs
  import opened Catalog

  /** `!selectedCategory`: no category, or the empty string. */
  predicate NoCategory(selectedCategory: Option<string>) {
    selectedCategory.None? || selectedCategory.value == ""
  }

  /** The filter's predicate: the search term in the name or the description
      ignoring case, and the selected category when one is set. */
  predicate Matches(t: Template, searchTerm: string, selectedCategory: Option<string>) {
    && (IncludesIgnoringCase(t.name, searchTerm) || IncludesIgnoringCase(t.description, searchTerm))
    && (NoCategory(selectedCategory) || t.categoryId == selectedCategory.value)
  }

  /** `filteredTemplates`: the matching templates in catalogue order. */
  function FilteredTemplates(templates: seq<Template>, searchTerm: string, selectedCategory: Option<string>): (r: seq<Template>)
    ensures IsSubsequence(r, templates)
    ensures forall i :: 0 <= i < |r| ==> Matches(r[i], searchTerm, selectedCategory)
    ensures forall i :: 0 <= i < |templates| && Matches(templates[i], searchTerm, selectedCategory) ==> templates[i] in r
  {
    Filter(templates, t => Matches(t, searchTerm, selectedCategory))
  }

  /** An empty search with no category shows the whole catalogue. */
  lemma NoFilterShowsAll(templates: seq<Template>, selectedCategory: Option<string>)
    requires NoCategory(selectedCategory)
    ensures FilteredTemplates(templates, "", selectedCategory) == templates
  {
    forall i | 0 <= i < |templates| ensures Matches(templates[i], "", selectedCategory) {
      IncludesEmptyTerm(templates[i].name);
    }
    FilterKeepsAll(templates, t => Matches(t, "", selectedCategory));
  }

  /** The empty category is no category: it filters nothing out. */
  lemma EmptyCategoryIsNoCategory(templates: seq<Template>, searchTerm: string)
    ensures FilteredTemplates(templates, searchTerm, Some("")) == FilteredTemplates(templates, searchTerm, None)
  {
    FilterCongruent(templates, t => Matches(t, searchTerm, Some("")), t => Matches(t, searchTerm, None));
  }

  /** The search ignores case: a lower-cased term selects the same
      templates. */
  lemma SearchIgnoresCase(templates: seq<Template>, searchTerm: string, selectedCategory: Option<string>)
    ensures FilteredTemplates(templates, Lower(searchTerm), selectedCategory) == FilteredTemplates(templates, searchTerm, selectedCategory)
  {
    LowerIdempotent(searchTerm);
    FilterCongruent(templates, t => Matches(t, Lower(searchTerm), selectedCategory), t => Matches(t, searchTerm, selectedCategory));
  }

  /** A card's link: its target and its text. */
  datatype CardLink = CardLink(target: string, text: string)

  /** The card's link: the creator for this template when signed in, the
      sign-in page otherwise, with the text saying which. */
  function CardLinkFor(isAuthenticated: bool, t: Template): (link: CardLink)
    ensures isAuthenticated ==> link == CardLink("/creator/" + t.id, "Use Template")
    ensures !isAuthenticated ==> link == CardLink("/auth/login", "Sign In to Use")
    ensures link.text == "Use Template" <==> link.target != "/auth/login"
  {
    if isAuthenticated then
      assert ("/creator/" + t.id)[1] == 'c';
      CardLink("/creator/" + t.id, "Use Template")
    else CardLink("/auth/login", "Sign In to Use")
  }
}
