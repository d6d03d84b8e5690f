/** The category list of src/pages/admin/CategoryPage.tsx: add with a
    blank-name and a duplicate-name check, rename in place, and delete. */
module CategoryPage {
  import opened Wrappers
  import opened Text
  import opened Seqs
  import opened Catalog

  /** The page state: the list, the add input, the row being edited with its
      input, and the error line. */
  datatype PageState = PageState(categoryList: seq<Category>, newCategory: string, editingId: Option<string>, editValue: string, error: string)

  const EmptyNameError := "Category name cannot be empty"
  const DuplicateNameError := "Category with this name already exists"

  /** `categoryList.some(cat => cat.name.toLowerCase() === name.toLowerCase())`,
      skipping the category with id `except` when one is given. */
  predicate NameTaken(list: seq<Category>, name: string, except: Option<string>) {
    exists i :: 0 <= i < |list| && Some(list[i].id) != except && Lower(list[i].name) == Lower(name)
  }

  /** No two categories have names equal ignoring case. */
  predicate DistinctNames(list: seq<Category>) {
    forall i, j :: 0 <= i < j < |list| ==> Lower(list[i].name) != Lower(list[j].name)
  }

  predicate UniqueIds(list: seq<Category>) {
    forall i, j :: 0 <= i < j < |list| ==> list[i].id != list[j].id
  }

  /** `handleAddCategory`. A name that is blank after trimming, or that equals
      an existing name ignoring case, only sets the error; otherwise the
      category is appended with the slug of the name as typed (not trimmed)
      as its id, and the input and the error are cleared. */
  function AddCategory(st: PageState): (r: PageState)
    ensures AllSpace(st.newCategory) ==> r == st.(error := EmptyNameError)
    ensures !AllSpace(st.newCategory) && NameTaken(st.categoryList, st.newCategory, None) ==> r == st.(error := DuplicateNameError)
    ensures r.categoryList != st.categoryList <==> !AllSpace(st.newCategory) && !NameTaken(st.categoryList, st.newCategory, None)
    ensures r.categoryList != st.categoryList ==>
      && r.categoryList == st.categoryList + [Category(Slug(st.newCategory), st.newCategory)]
      && r.newCategory == "" && r.error == ""
    ensures r.editingId == st.editingId && r.editValue == st.editValue
  {
    TrimEmptyIffBlank(st.newCategory);
    if Trim(st.newCategory) == "" then st.(error := EmptyNameError)
    else if NameTaken(st.categoryList, st.newCategory, None) then
      st.(error := DuplicateNameError)
    else
      var id := Slug(st.newCategory);
      st.(categoryList := st.categoryList + [Category(id, st.newCategory)], newCategory := "", error := "")
  }

  /** Adding never creates two names equal ignoring case. */
  lemma AddKeepsNamesDistinct(st: PageState)
    requires DistinctNames(st.categoryList)
    ensures DistinctNames(AddCategory(st).categoryList)
  {
    var r := AddCategory(st).categoryList;
    if r != st.categoryList {
      forall i, j | 0 <= i < j < |r| ensures Lower(r[i].name) != Lower(r[j].name) {
        if j == |st.categoryList| {
          assert r[i] == st.categoryList[i];
          assert !(Some(st.categoryList[i].id) != None && Lower(st.categoryList[i].name) == Lower(st.newCategory));
        }
      }
    }
  }

  /** A name is accepted when it is not blank and not taken. */
  lemma Accepted(st: PageState)
    requires !AllSpace(st.newCategory) && !NameTaken(st.categoryList, st.newCategory, None)
    ensures AddCategory(st).categoryList == st.categoryList + [Category(Slug(st.newCategory), st.newCategory)]
  {
  }

  lemma NotBlank(s: string, k: nat)
    requires k < |s| && !IsSpace(s[k])
    ensures !AllSpace(s)
  {
  }

  /** The duplicate check compares the untrimmed input, so a name that
      differs from an existing one only by a leading space is accepted. */
  lemma PaddedNameAccepted()
    ensures AddCategory(PageState([Category("legal", "Legal")], " Legal", None, "", "")).categoryList
      == [Category("legal", "Legal"), Category(Slug(" Legal"), " Legal")]
  {
    var list := [Category("legal", "Legal")];
    var name := " Legal";
    NotBlank(name, 1);
    assert !NameTaken(list, name, None) by {
      assert |Lower(list[0].name)| != |Lower(name)|;
    }
    Accepted(PageState(list, name, None, "", ""));
  }

  /** `A B` becomes `a-b`. */
  lemma SlugOfSpacedName()
    ensures Slug("A B") == "a-b"
  {
    LowerSpacedName();
    SpacedRun();
  }

  lemma LowerSpacedName()
    ensures Lower("A B") == "a b"
  {
    assert LowerChar('A') == 'a' && LowerChar(' ') == ' ' && LowerChar('B') == 'b';
  }

  lemma SpacedRun()
    ensures DashSpaceRuns("a b") == "a-b"
  {
    TrimOneSpace();
    assert DashSpaceRuns(" b") == "-" + DashSpaceRuns("b");
    assert NoSpace("b");
    assert "a b"[1..] == " b";
    assert DashSpaceRuns("a b") == "a" + DashSpaceRuns(" b");
  }

  lemma TrimOneSpace()
    ensures TrimStart(" b") == "b"
  {
    assert " b"[1..] == "b";
    assert !IsSpace('b');
  }

  lemma SlugOfDashedName()
    ensures Slug("a-b") == "a-b"
  {
    assert Lower("a-b") == "a-b";
    assert NoSpace("a-b");
  }

  lemma AddSpacedName()
    ensures AddCategory(PageState([], "A B", None, "", "")).categoryList == [Category("a-b", "A B")]
  {
    SlugOfSpacedName();
    NotBlank("A B", 0);
    Accepted(PageState([], "A B", None, "", ""));
  }

  lemma AddDashedName(st: PageState)
    requires st.categoryList == [Category("a-b", "A B")] && st.newCategory == "a-b"
    ensures AddCategory(st).categoryList == [Category("a-b", "A B"), Category("a-b", "a-b")]
  {
    SlugOfDashedName();
    NotBlank("a-b", 0);
    assert !NameTaken(st.categoryList, "a-b", None) by {
      LowerSpacedName();
      assert Lower("a-b") == "a-b";
      assert "a b" != "a-b";
    }
    Accepted(st);
  }

  /** Ids are never checked: `A B` and then `a-b` are both accepted and
      both get the id `a-b`. */
  lemma SlugsCollide()
    ensures var st := AddCategory(AddCategory(PageState([], "A B", None, "", "")).(newCategory := "a-b"));
      st.categoryList == [Category("a-b", "A B"), Category("a-b", "a-b")]
  {
    AddSpacedName();
    AddDashedName(AddCategory(PageState([], "A B", None, "", "")).(newCategory := "a-b"));
  }

  /** `handleDeleteCategory`, once the dialog is confirmed: the categories
      with that id are removed and the others kept in order. */
  function DeleteCategory(st: PageState, id: string, confirmed: bool): (r: PageState)
    ensures !confirmed ==> r == st
    ensures IsSubsequence(r.categoryList, st.categoryList)
    ensures confirmed ==> forall i :: 0 <= i < |r.categoryList| ==> r.categoryList[i].id != id
    ensures forall i :: 0 <= i < |st.categoryList| && st.categoryList[i].id != id ==> st.categoryList[i] in r.categoryList
    ensures r.(categoryList := st.categoryList) == st
  {
    if confirmed then st.(categoryList := Filter(st.categoryList, (c: Category) => c.id != id))
    else SubsequenceReflexive(st.categoryList); st
  }

  /** Deleting the id a successful add just gave takes the list back to
      where it was, when that id was new. */
  lemma AddThenDelete(st: PageState)
    requires AddCategory(st).categoryList != st.categoryList
    requires forall i :: 0 <= i < |st.categoryList| ==> st.categoryList[i].id != Slug(st.newCategory)
    ensures DeleteCategory(AddCategory(st), Slug(st.newCategory), true).categoryList == st.categoryList
  {
    var id := Slug(st.newCategory);
    var p := (c: Category) => c.id != id;
    FilterAppend(st.categoryList, [Category(id, st.newCategory)], p);
    FilterKeepsAll(st.categoryList, p);
  }

  /** `handleEditStart`. */
  function EditStart(st: PageState, c: Category): (r: PageState)
    ensures r.editingId == Some(c.id) && r.editValue == c.name
    ensures r.categoryList == st.categoryList && r.error == st.error
  {
    st.(editingId := Some(c.id), editValue := c.name)
  }

  /** `handleEditCancel`. */
  function EditCancel(st: PageState): (r: PageState)
    ensures r.editingId == None && r.editValue == ""
    ensures r.categoryList == st.categoryList && r.error == st.error
  {
    st.(editingId := None, editValue := "")
  }

  /** Every category with id `id` renamed to `name`. */
  function Rename(list: seq<Category>, id: string, name: string): (r: seq<Category>)
    ensures |r| == |list|
    ensures forall i :: 0 <= i < |list| ==> r[i].id == list[i].id
    ensures forall i :: 0 <= i < |list| ==> r[i].name == (if list[i].id == id then name else list[i].name)
  {
    seq(|list|, i requires 0 <= i < |list| => if list[i].id == id then list[i].(name := name) else list[i])
  }

  /** `handleEditSave`. A blank name, or one equal ignoring case to the name
      of a category with another id, only sets the error; otherwise every
      category with that id is renamed, editing ends and the error clears. */
  function EditSave(st: PageState, id: string): (r: PageState)
    ensures AllSpace(st.editValue) ==> r == st.(error := EmptyNameError)
    ensures !AllSpace(st.editValue) && NameTaken(st.categoryList, st.editValue, Some(id)) ==> r == st.(error := DuplicateNameError)
    ensures !AllSpace(st.editValue) && !NameTaken(st.categoryList, st.editValue, Some(id)) ==>
      && r.categoryList == Rename(st.categoryList, id, st.editValue)
      && r.editingId == None && r.error == "" && r.newCategory == st.newCategory
  {
    TrimEmptyIffBlank(st.editValue);
    if Trim(st.editValue) == "" then st.(error := EmptyNameError)
    else if NameTaken(st.categoryList, st.editValue, Some(id)) then
      st.(error := DuplicateNameError)
    else
      st.(categoryList := Rename(st.categoryList, id, st.editValue), editingId := None, error := "")
  }

  /** With distinct ids, saving keeps the names distinct ignoring case. */
  lemma EditSaveKeepsNamesDistinct(st: PageState, id: string)
    requires DistinctNames(st.categoryList) && UniqueIds(st.categoryList)
    ensures DistinctNames(EditSave(st, id).categoryList)
  {
    var l := st.categoryList;
    var r := EditSave(st, id).categoryList;
    if !AllSpace(st.editValue) && !NameTaken(l, st.editValue, Some(id)) {
      forall i, j | 0 <= i < j < |r| ensures Lower(r[i].name) != Lower(r[j].name) {
        if l[i].id == id {
          assert l[j].id != id;
          assert !(Some(l[j].id) != Some(id) && Lower(l[j].name) == Lower(st.editValue));
        } else if l[j].id == id {
          assert !(Some(l[i].id) != Some(id) && Lower(l[i].name) == Lower(st.editValue));
        }
      }
    }
  }

  /** Two categories sharing an id (which adding allows) both take the new
      name, so the names are no longer distinct. */
  lemma EditSaveWithSharedIdRepeatsName()
    ensures var st := PageState([Category("a-b", "A B"), Category("a-b", "a-b")], "", Some("a-b"), "x", "");
      EditSave(st, "a-b").categoryList == [Category("a-b", "x"), Category("a-b", "x")]
  {
    var st := PageState([Category("a-b", "A B"), Category("a-b", "a-b")], "", Some("a-b"), "x", "");
    assert !AllSpace("x") by { assert !IsSpace("x"[0]); }
    assert !NameTaken(st.categoryList, "x", Some("a-b"));
  }

  /** Saving a row straight after starting to edit it changes nothing in the
      list, when its name is not blank and ids are distinct. */
  lemma EditStartThenSave(st: PageState, k: nat)
    requires k < |st.categoryList| && UniqueIds(st.categoryList) && DistinctNames(st.categoryList)
    requires !AllSpace(st.categoryList[k].name)
    ensures EditSave(EditStart(st, st.categoryList[k]), st.categoryList[k].id).categoryList == st.categoryList
  {
    var c := st.categoryList[k];
    var l := st.categoryList;
    assert !NameTaken(l, c.name, Some(c.id)) by {
      forall i | 0 <= i < |l| && Some(l[i].id) != Some(c.id)
        ensures Lower(l[i].name) != Lower(c.name)
      {
        assert i != k;
      }
    }
    var r := Rename(l, c.id, c.name);
    forall i | 0 <= i < |l| ensures r[i] == l[i] {
      if l[i].id == c.id {
        assert i == k;
      }
    }
  }
}
