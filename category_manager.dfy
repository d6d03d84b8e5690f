/** The category panel of src/pages/admin/CategoryManager.tsx: numeric ids,
    a shared name/description form for editing and creating, and delete. */
module CategoryManager {
  import opened Wrappers
  import opened Text
  import opened Seqs

  datatype ManagedCategory = ManagedCategory(id: int, name: string, count: nat, description: string)

  /** The form both the edit row and the create panel fill in. */
  datatype CategoryForm = CategoryForm(name: string, description: string)

  const EmptyForm := CategoryForm("", "")

  /** The panel state; `toast` is the last message shown, if any. */
  datatype PanelState = PanelState(
    categories: seq<ManagedCategory>,
    editingCategoryId: Option<int>,
    isCreating: bool,
    form: CategoryForm,
    toast: Option<string>)

  const EmptyNameToast := "Category name cannot be empty"

  function CategoryId(c: ManagedCategory): int {
    c.id
  }

  function Ids(categories: seq<ManagedCategory>): seq<int> {
    Map(categories, CategoryId)
  }

  predicate UniqueIds(categories: seq<ManagedCategory>) {
    forall i, j :: 0 <= i < j < |categories| ==> categories[i].id != categories[j].id
  }

  /** A JavaScript number as `Math.max` sees it here: an integer, or the
      `-Infinity` it returns for no arguments. */
  datatype JsNumber = NegInfinity | Finite(n: int)

  /** `Math.max(...ids)`, with `-Infinity` for an empty list. */
  function JsMax(ids: seq<JsNumber>): (m: JsNumber)
    ensures m == NegInfinity <==> forall i :: 0 <= i < |ids| ==> ids[i] == NegInfinity
    ensures m.Finite? ==> m in ids && forall i :: 0 <= i < |ids| && ids[i].Finite? ==> ids[i].n <= m.n
    decreases |ids|
  {
    if ids == [] then NegInfinity
    else
      var rest := JsMax(ids[1..]);
      match (ids[0], rest)
      case (NegInfinity, _) => rest
      case (_, NegInfinity) => ids[0]
      case (Finite(a), Finite(b)) => if a >= b then ids[0] else rest
  }

  /** The id `handleCreateCategory` computes, as written:
      `Math.max(...categories.map(c => c.id)) + 1`; `-Infinity + 1` is
      still `-Infinity`. */
  function NextIdAsWritten(ids: seq<JsNumber>): JsNumber {
    match JsMax(ids)
    case NegInfinity => NegInfinity
    case Finite(m) => Finite(m + 1)
  }

  /** Creating into an empty list gives the id `-Infinity`, and creating
      again gives the same id, so two categories share one id. The page's
      own seed list never becomes empty: its categories all have a non-zero
      count, for which the delete button is disabled. */
  lemma NextIdAsWrittenRepeats()
    ensures NextIdAsWritten([]) == NegInfinity
    ensures NextIdAsWritten([NextIdAsWritten([])]) == NextIdAsWritten([])
  {
    assert [NegInfinity][1..] == [];
  }

  /** The id the create handler evidently means: one more than the largest
      id, and 1 for an empty list. It is never an id already in use. */
  function NextId(ids: seq<int>): (r: int)
    ensures forall i :: 0 <= i < |ids| ==> ids[i] < r
    ensures ids == [] ==> r == 1
    ensures ids != [] ==> r - 1 in ids
  {
    if ids == [] then 1 else Max(ids) + 1
  }

  /** On a non-empty list the two agree. */
  lemma NextIdAgrees(ids: seq<int>)
    requires ids != []
    ensures NextIdAsWritten(Finites(ids)) == Finite(NextId(ids))
  {
    MaxOfFinites(ids);
  }

  function Finites(ids: seq<int>): (r: seq<JsNumber>)
    ensures |r| == |ids| && forall i :: 0 <= i < |ids| ==> r[i] == Finite(ids[i])
  {
    seq(|ids|, i requires 0 <= i < |ids| => Finite(ids[i]))
  }

  lemma {:induction false} MaxOfFinites(ids: seq<int>)
    requires ids != []
    ensures JsMax(Finites(ids)) == Finite(Max(ids))
    decreases |ids|
  {
    if |ids| > 1 {
      MaxOfFinites(ids[1..]);
      assert Finites(ids)[1..] == Finites(ids[1..]);
    } else {
      assert Finites(ids)[1..] == [];
    }
  }

  /** `handleSaveCategory(id)`: a blank name only shows the error; otherwise
      the category with that id takes the form's name and description, keeps
      its id and count, and editing ends (the form is left filled). */
  function SaveCategory(st: PanelState, id: int): (r: PanelState)
    ensures AllSpace(st.form.name) ==> r == st.(toast := Some(EmptyNameToast))
    ensures !AllSpace(st.form.name) ==>
      && |r.categories| == |st.categories|
      && (forall i :: 0 <= i < |st.categories| && st.categories[i].id != id ==> r.categories[i] == st.categories[i])
      && (forall i :: 0 <= i < |st.categories| && st.categories[i].id == id ==>
            r.categories[i] == ManagedCategory(id, st.form.name, st.categories[i].count, st.form.description))
      && r.editingCategoryId == None && r.form == st.form && r.isCreating == st.isCreating
      && r.toast == Some("Category updated successfully")
  {
    TrimEmptyIffBlank(st.form.name);
    if Trim(st.form.name) == "" then st.(toast := Some(EmptyNameToast))
    else
      var updated := seq(|st.categories|, i requires 0 <= i < |st.categories| =>
        var c := st.categories[i];
        if c.id == id then c.(name := st.form.name, description := st.form.description) else c);
      st.(categories := updated, editingCategoryId := None, toast := Some("Category updated successfully"))
  }

  /** Saving never changes the ids, so it keeps them distinct. */
  lemma SaveKeepsIds(st: PanelState, id: int)
    ensures Ids(SaveCategory(st, id).categories) == Ids(st.categories)
  {
  }

  /** `handleCreateCategory`: a blank name only shows the error; otherwise a
      category with a fresh id, the form's name and description and a count
      of 0 is appended, the form is cleared and the panel closed. The id is
      `NextId`, which differs from the code's `NextIdAsWritten` only on an
      empty list. */
  function CreateCategory(st: PanelState): (r: PanelState)
    ensures AllSpace(st.form.name) ==> r == st.(toast := Some(EmptyNameToast))
    ensures !AllSpace(st.form.name) ==>
      && |r.categories| == |st.categories| + 1
      && r.categories[..|st.categories|] == st.categories
      && r.categories[|st.categories|] == ManagedCategory(NextId(Ids(st.categories)), st.form.name, 0, st.form.description)
      && r.form == EmptyForm && !r.isCreating && r.editingCategoryId == st.editingCategoryId
      && r.toast == Some("Category created successfully")
  {
    TrimEmptyIffBlank(st.form.name);
    if Trim(st.form.name) == "" then st.(toast := Some(EmptyNameToast))
    else
      var created := ManagedCategory(NextId(Ids(st.categories)), st.form.name, 0, st.form.description);
      st.(categories := st.categories + [created], form := EmptyForm, isCreating := false, toast := Some("Category created successfully"))
  }

  /** Creating keeps the ids distinct: the new id is above every other. */
  lemma CreateKeepsIdsUnique(st: PanelState)
    requires UniqueIds(st.categories)
    ensures UniqueIds(CreateCategory(st).categories)
  {
    var cats := st.categories;
    var r := CreateCategory(st).categories;
    if !AllSpace(st.form.name) {
      var ids := Ids(cats);
      forall i, j | 0 <= i < j < |r| ensures r[i].id != r[j].id {
        assert r[i] == cats[i];
        if j == |cats| {
          assert ids[i] == cats[i].id && ids[i] < r[j].id;
        } else {
          assert r[j] == cats[j];
        }
      }
    }
  }

  /** `handleDeleteCategory`, once the dialog is confirmed: the categories
      with that id go, whatever their count (only the button is disabled
      for a non-zero count). */
  function DeleteCategory(st: PanelState, id: int, confirmed: bool): (r: PanelState)
    ensures !confirmed ==> r == st
    ensures IsSubsequence(r.categories, st.categories)
    ensures confirmed ==> forall i :: 0 <= i < |r.categories| ==> r.categories[i].id != id
    ensures forall i :: 0 <= i < |st.categories| && st.categories[i].id != id ==> st.categories[i] in r.categories
  {
    if confirmed then
      st.(categories := Filter(st.categories, (c: ManagedCategory) => c.id != id), toast := Some("Category deleted successfully"))
    else SubsequenceReflexive(st.categories); st
  }

  /** Deleting the category just created takes the list back. */
  lemma CreateThenDelete(st: PanelState)
    requires !AllSpace(st.form.name)
    ensures DeleteCategory(CreateCategory(st), NextId(Ids(st.categories)), true).categories == st.categories
  {
    var cats := st.categories;
    var ids := Ids(cats);
    var id := NextId(ids);
    var p := (c: ManagedCategory) => c.id != id;
    assert forall i :: 0 <= i < |cats| ==> p(cats[i]) by {
      forall i | 0 <= i < |cats| ensures p(cats[i]) {
        assert ids[i] == cats[i].id && ids[i] < id;
      }
    }
    FilterKeepsAll(cats, p);
    var r := CreateCategory(st).categories;
    var created := r[|cats|];
    assert r == cats + [created];
    FilterAppend(cats, [created], p);
    assert [created][1..] == [];
    assert Filter([created], p) == [];
    assert Filter(r, p) == cats + [];
  }

  /** `handleEditClick`: the row's name and description go into the form. */
  function EditClick(st: PanelState, c: ManagedCategory): (r: PanelState)
    ensures r.editingCategoryId == Some(c.id) && r.form == CategoryForm(c.name, c.description)
    ensures r.categories == st.categories && r.isCreating == st.isCreating
  {
    st.(editingCategoryId := Some(c.id), form := CategoryForm(c.name, c.description))
  }

  /** `handleCancelEdit`. */
  function CancelEdit(st: PanelState): (r: PanelState)
    ensures r.editingCategoryId == None && r.form == EmptyForm
    ensures r.categories == st.categories && r.isCreating == st.isCreating
  {
    st.(editingCategoryId := None, form := EmptyForm)
  }

  /** `handleCancelCreate`. */
  function CancelCreate(st: PanelState): (r: PanelState)
    ensures !r.isCreating && r.form == EmptyForm
    ensures r.categories == st.categories && r.editingCategoryId == st.editingCategoryId
  {
    st.(isCreating := false, form := EmptyForm)
  }

  /** Opening a row and saving it untouched changes nothing in the list. */
  lemma EditClickThenSave(st: PanelState, k: nat)
    requires k < |st.categories| && UniqueIds(st.categories)
    requires !AllSpace(st.categories[k].name)
    ensures SaveCategory(EditClick(st, st.categories[k]), st.categories[k].id).categories == st.categories
  {
    var r := SaveCategory(EditClick(st, st.categories[k]), st.categories[k].id).categories;
    forall i | 0 <= i < |st.categories| ensures r[i] == st.categories[i] {
      if st.categories[i].id == st.categories[k].id {
        assert i == k;
      }
    }
  }
}
