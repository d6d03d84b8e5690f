/** The template table of src/pages/admin/TemplateManager.tsx: the search,
    category and status filter, duplicate and delete. */
module TemplateManager {
  import opened Wrappers
  import opened Text
  import opened Seqs

  datatype ManagedTemplate = ManagedTemplate(
    id: int,
    name: string,
    category: string,
    categoryId: int,
    description: string,
    lastUpdated: string,
    createdBy: string,
    status: string)

  /** The status filter: `all`, `published` or `draft`. */
  datatype StatusFilter = AllStatuses | OnlyStatus(status: string)

  /** The filter's predicate: the search term in the name or the
      description ignoring case, the selected category (or none), and the
      selected status (or all). */
  predicate Matches(t: ManagedTemplate, searchTerm: string, selectedCategory: Option<int>, statusFilter: StatusFilter) {
    && (IncludesIgnoringCase(t.name, searchTerm) || IncludesIgnoringCase(t.description, searchTerm))
    && (selectedCategory.None? || t.categoryId == selectedCategory.value)
    && (statusFilter.AllStatuses? || t.status == statusFilter.status)
  }

  /** `filteredTemplates`: the matching templates, in table order. */
  function FilteredTemplates(templates: seq<ManagedTemplate>, searchTerm: string, selectedCategory: Option<int>, statusFilter: StatusFilter): (r: seq<ManagedTemplate>)
    ensures IsSubsequence(r, templates)
    ensures forall i :: 0 <= i < |r| ==> Matches(r[i], searchTerm, selectedCategory, statusFilter)
    ensures forall i :: 0 <= i < |templates| && Matches(templates[i], searchTerm, selectedCategory, statusFilter) ==> templates[i] in r
  {
    Filter(templates, t => Matches(t, searchTerm, selectedCategory, statusFilter))
  }

  /** An empty search, no category and all statuses show the whole table. */
  lemma NoFilterShowsAll(templates: seq<ManagedTemplate>)
    ensures FilteredTemplates(templates, "", None, AllStatuses) == templates
  {
    forall i | 0 <= i < |templates| ensures Matches(templates[i], "", None, AllStatuses) {
      IncludesEmptyTerm(templates[i].name);
    }
    FilterKeepsAll(templates, t => Matches(t, "", None, AllStatuses));
  }

  function TemplateId(t: ManagedTemplate): int {
    t.id
  }

  function Ids(templates: seq<ManagedTemplate>): seq<int> {
    Map(templates, TemplateId)
  }

  predicate HasId(t: ManagedTemplate, id: int) {
    t.id == id
  }

  /** `handleDuplicateTemplate(id)` with today's date as `today`: an unknown
      id changes nothing; otherwise a copy of the first template with that
      id is appended under a new id (one past the largest), with ` (Copy)`
      after its name, status `draft` and today's date. */
  function DuplicateTemplate(templates: seq<ManagedTemplate>, id: int, today: string): (r: seq<ManagedTemplate>)
    ensures (forall i :: 0 <= i < |templates| ==> templates[i].id != id) ==> r == templates
    ensures (exists i :: 0 <= i < |templates| && templates[i].id == id) ==>
      && |r| == |templates| + 1 && r[..|templates|] == templates
      && var copy := r[|templates|];
      && (forall i :: 0 <= i < |templates| ==> templates[i].id < copy.id)
      && exists i :: 0 <= i < |templates| && templates[i].id == id
           && (forall j :: 0 <= j < i ==> templates[j].id != id)
           && copy == templates[i].(
             id := copy.id, name := templates[i].name + " (Copy)", status := "draft", lastUpdated := today)
  {
    match FindIndex(templates, t => HasId(t, id))
    case None => templates
    case Some(i) =>
      var original := templates[i];
      var copy := original.(id := Max(Ids(templates)) + 1, name := original.name + " (Copy)", status := "draft", lastUpdated := today);
      templates + [copy]
  }

  predicate UniqueIds(templates: seq<ManagedTemplate>) {
    forall i, j :: 0 <= i < j < |templates| ==> templates[i].id != templates[j].id
  }

  /** Duplicating keeps ids distinct. */
  lemma DuplicateKeepsIdsUnique(templates: seq<ManagedTemplate>, id: int, today: string)
    requires UniqueIds(templates)
    ensures UniqueIds(DuplicateTemplate(templates, id, today))
  {
    var r := DuplicateTemplate(templates, id, today);
    if r != templates {
      forall i, j | 0 <= i < j < |r| ensures r[i].id != r[j].id {
        if j == |templates| {
          assert r[i] == templates[i];
        }
      }
    }
  }

  /** `handleDeleteTemplate(id)`, once the dialog is confirmed: the
      templates with that id go and the rest keep their order. */
  function DeleteTemplate(templates: seq<ManagedTemplate>, id: int, confirmed: bool): (r: seq<ManagedTemplate>)
    ensures !confirmed ==> r == templates
    ensures IsSubsequence(r, templates)
    ensures confirmed ==> forall i :: 0 <= i < |r| ==> r[i].id != id
    ensures forall i :: 0 <= i < |templates| && templates[i].id != id ==> templates[i] in r
  {
    if confirmed then Filter(templates, (t: ManagedTemplate) => t.id != id)
    else SubsequenceReflexive(templates); templates
  }

  /** Deleting the copy a duplicate just made takes the table back. */
  lemma DuplicateThenDelete(templates: seq<ManagedTemplate>, id: int, today: string)
    requires exists i :: 0 <= i < |templates| && templates[i].id == id
    ensures var r := DuplicateTemplate(templates, id, today);
      DeleteTemplate(r, r[|templates|].id, true) == templates
  {
    var r := DuplicateTemplate(templates, id, today);
    var copyId := r[|templates|].id;
    var p := (t: ManagedTemplate) => t.id != copyId;
    assert r == templates + [r[|templates|]];
    FilterAppend(templates, [r[|templates|]], p);
    FilterKeepsAll(templates, p);
  }
}
