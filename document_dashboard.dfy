/** The template browser of src/pages/DocumentDashboard.tsx: the effect that
    rebuilds the shown list from the full template list by successive
    filters and, for `recent`, an in-place sort by date and a cut to five;
    the category link; and the create-document routing. */
module DocumentDashboard {
  import opened Wrappers
  import opened Text
  import opened Seqs

  datatype DashTemplate = DashTemplate(
    id: int,
    name: string,
    category: string,
    categoryId: int,
    description: string,
    lastUpdated: string,
    popular: bool,
    featured: bool)

  datatype FilterType = AllTemplates | Popular | Recent

  /** The value of an ASCII digit, 0 for anything else. */
  function DigitValue(c: char): (d: nat)
    ensures d < 10
  {
    if '0' <= c <= '9' then (c as int - '0' as int) else 0
  }

  /** The decimal number the digits of `s` spell. */
  function DigitsValue(s: string): nat
    decreases |s|
  {
    if s == [] then 0 else DigitsValue(s[..|s| - 1]) * 10 + DigitValue(s[|s| - 1])
  }

  /** The day number `YYYYMMDD` of an ISO date `YYYY-MM-DD`: for well-formed
      dates it orders them as `new Date(s).getTime()` does. */
  function DayNumber(s: string): (n: nat)
    ensures |s| < 10 ==> n == 0
  {
    if |s| < 10 then 0 else DigitsValue(s[0..4] + s[5..7] + s[8..10])
  }

  predicate IsDigit(c: char) {
    '0' <= c <= '9'
  }

  predicate AllDigits(s: string) {
    forall i :: 0 <= i < |s| ==> IsDigit(s[i])
  }

  /** A well-formed ISO date `YYYY-MM-DD`. */
  predicate IsIsoDate(s: string) {
    |s| == 10 && s[4] == '-' && s[7] == '-' &&
    forall i :: 0 <= i < 10 && i != 4 && i != 7 ==> IsDigit(s[i])
  }

  /** Of two digit strings of one length, the one first in string order
      spells the smaller number. */
  lemma {:induction false} DigitsValueOrdered(a: string, b: string, k: nat)
    requires |a| == |b| && AllDigits(a) && AllDigits(b)
    requires k < |a| && a[..k] == b[..k] && a[k] < b[k]
    ensures DigitsValue(a) < DigitsValue(b)
    decreases |a|
  {
    var n := |a|;
    var pa, pb := a[..n - 1], b[..n - 1];
    assert DigitsValue(a) == DigitsValue(pa) * 10 + DigitValue(a[n - 1]);
    assert DigitsValue(b) == DigitsValue(pb) * 10 + DigitValue(b[n - 1]);
    if k == n - 1 {
      assert pa == a[..k] && pb == b[..k];
      assert IsDigit(a[k]) && IsDigit(b[k]);
      assert DigitValue(a[k]) < DigitValue(b[k]);
    } else {
      assert pa[..k] == a[..k] && pb[..k] == b[..k];
      assert pa[k] == a[k] && pb[k] == b[k];
      DigitsValueOrdered(pa, pb, k);
      var va, vb := DigitsValue(pa), DigitsValue(pb);
      assert (va + 1) * 10 <= vb * 10;
    }
  }

  /** The digits of an ISO date with the two dashes left out. */
  lemma IsoDigits(s: string)
    requires IsIsoDate(s)
    ensures var a := s[0..4] + s[5..7] + s[8..10];
      |a| == 8 && AllDigits(a) &&
      forall i :: 0 <= i < 8 ==> a[i] == s[if i < 4 then i else if i < 6 then i + 1 else i + 2]
  {
  }

  /** Of two well-formed ISO dates, the one first in string order has the
      smaller day number, as it has the earlier time. */
  lemma EarlierDateSmaller(s: string, t: string, k: nat)
    requires IsIsoDate(s) && IsIsoDate(t)
    requires k < 10 && s[..k] == t[..k] && s[k] < t[k]
    ensures DayNumber(s) < DayNumber(t)
  {
    var a := s[0..4] + s[5..7] + s[8..10];
    var b := t[0..4] + t[5..7] + t[8..10];
    IsoDigits(s);
    IsoDigits(t);
    var j := if k < 4 then k else if k < 7 then k - 1 else k - 2;
    forall i | 0 <= i < j ensures a[i] == b[i] {
      var m := if i < 4 then i else if i < 6 then i + 1 else i + 2;
      assert s[m] == s[..k][m] == t[..k][m] == t[m];
    }
    assert a[..j] == b[..j];
    DigitsValueOrdered(a, b, j);
  }

  /** A later day of the same month has a larger day number. */
  lemma LaterDayLater(ym: string, d1: string, d2: string)
    requires |ym| == 8 && |d1| == 2 && |d2| == 2
    requires DigitsValue(d1) < DigitsValue(d2)
    ensures DayNumber(ym + d1) < DayNumber(ym + d2)
  {
    DayNumberOfDay(ym, d1);
    DayNumberOfDay(ym, d2);
  }

  /** The day number of a date is its year and month's digits followed by
      the two day digits. */
  lemma DayNumberOfDay(ym: string, d: string)
    requires |ym| == 8 && |d| == 2
    ensures DayNumber(ym + d) == DigitsValue(ym[0..4] + ym[5..7]) * 100 + DigitsValue(d)
  {
    var s := ym + d;
    var prefix := ym[0..4] + ym[5..7];
    assert s[0..4] + s[5..7] + s[8..10] == prefix + d;
    DigitsAppend(prefix, d);
  }

  lemma DigitsAppend(prefix: string, d: string)
    requires |d| == 2
    ensures DigitsValue(prefix + d) == DigitsValue(prefix) * 100 + DigitsValue(d)
  {
    var one := prefix + d[..1];
    assert (prefix + d)[..|prefix + d| - 1] == one;
    assert one[..|one| - 1] == prefix;
    assert DigitsValue(one) == DigitsValue(prefix) * 10 + DigitValue(d[0]);
    assert DigitsValue(prefix + d) == DigitsValue(one) * 10 + DigitValue(d[1]);
    assert d[..1][..0] == [];
    assert DigitsValue(d[..1]) == DigitValue(d[0]);
    assert DigitsValue(d) == DigitsValue(d[..1]) * 10 + DigitValue(d[1]);
  }

  function Key(t: DashTemplate): nat {
    DayNumber(t.lastUpdated)
  }

  /** Newest first. */
  predicate SortedNewestFirst(s: seq<DashTemplate>) {
    forall k, l :: 0 <= k < l < |s| ==> Key(s[l]) <= Key(s[k])
  }

  /** Larger keys first. */
  predicate SortedByKeyDown<T>(s: seq<T>, key: T -> int) {
    forall k, l :: 0 <= k < l < |s| ==> key(s[l]) <= key(s[k])
  }

  /** `filtered.sort((a, b) => time(b) - time(a))`, in place. */
  method SortNewestFirst(a: array<DashTemplate>)
    modifies a
    ensures SortedNewestFirst(a[..])
    ensures multiset(a[..]) == multiset(old(a[..]))
  {
    var key: DashTemplate -> int := t => Key(t);
    SortByKeyDown(a, key);
    forall k, l | 0 <= k < l < a.Length ensures Key(a[l]) <= Key(a[k]) {
      assert key(a[..][l]) <= key(a[..][k]);
    }
  }

  /** An insertion sort that moves each element left past the elements with
      strictly smaller keys, so equal keys keep their order. */
  method SortByKeyDown<T>(a: array<T>, key: T -> int)
    modifies a
    ensures SortedByKeyDown(a[..], key)
    ensures multiset(a[..]) == multiset(old(a[..]))
  {
    var i := 0;
    while i < a.Length
      invariant 0 <= i <= a.Length
      invariant SortedByKeyDown(a[..i], key)
      invariant multiset(a[..]) == multiset(old(a[..]))
    {
      InsertByKeyDown(a, i, key);
      i := i + 1;
    }
  }

  /** Moves `a[i]` left into the sorted prefix `a[..i]`. */
  method InsertByKeyDown<T>(a: array<T>, i: nat, key: T -> int)
    requires i < a.Length && SortedByKeyDown(a[..i], key)
    modifies a
    ensures SortedByKeyDown(a[..i + 1], key)
    ensures multiset(a[..]) == multiset(old(a[..]))
  {
    InsertionStart(a[..], i, key);
    var j := i;
    while j > 0 && key(a[j - 1]) < key(a[j])
      invariant 0 <= j <= i < a.Length
      invariant Inserting(a[..], i, j, key)
      invariant multiset(a[..]) == multiset(old(a[..]))
    {
      InsertionStep(a[..], i, j, key);
      SwapAdjacent(a, j);
      j := j - 1;
    }
    InsertionDone(a[..], i, j, key);
  }

  /** Exchanges `a[j - 1]` and `a[j]`. */
  method SwapAdjacent<T>(a: array<T>, j: nat)
    requires 0 < j < a.Length
    modifies a
    ensures a[..] == Swap(old(a[..]), j - 1, j)
  {
    a[j - 1], a[j] := a[j], a[j - 1];
  }

  /** While `s[j]` moves left: `s[..i + 1]` is in order apart from `s[j]`,
      and everything after `s[j]` is no larger than everything before it. */
  ghost predicate Inserting<T>(s: seq<T>, i: nat, j: nat, key: T -> int) {
    && j <= i < |s|
    && (forall k, l :: 0 <= k < l <= i && l != j ==> key(s[l]) <= key(s[k]))
    && (forall k, l :: 0 <= k < j < l <= i ==> key(s[l]) <= key(s[k]))
  }

  lemma InsertionStart<T>(s: seq<T>, i: nat, key: T -> int)
    requires i < |s| && SortedByKeyDown(s[..i], key)
    ensures Inserting(s, i, i, key)
  {
    forall k, l | 0 <= k < l <= i && l != i ensures key(s[l]) <= key(s[k]) {
      assert s[l] == s[..i][l] && s[k] == s[..i][k];
    }
  }

  lemma InsertionStep<T>(s: seq<T>, i: nat, j: nat, key: T -> int)
    requires 0 < j && Inserting(s, i, j, key) && key(s[j - 1]) < key(s[j])
    ensures Inserting(Swap(s, j - 1, j), i, j - 1, key)
  {
    var t := Swap(s, j - 1, j);
    forall k, l | 0 <= k < l <= i && l != j - 1 ensures key(t[l]) <= key(t[k]) {
      if l == j {
        assert t[l] == s[j - 1];
        if k < j - 1 { assert t[k] == s[k]; }
      } else if k == j {
        assert t[k] == s[j - 1] && t[l] == s[l];
      } else if k == j - 1 {
        assert t[k] == s[j] && t[l] == s[l];
      } else {
        assert t[k] == s[k] && t[l] == s[l];
      }
    }
    forall k, l | 0 <= k < j - 1 < l <= i ensures key(t[l]) <= key(t[k]) {
      assert t[k] == s[k];
      if l == j { assert t[l] == s[j - 1]; } else { assert t[l] == s[l]; }
    }
  }

  lemma InsertionDone<T>(s: seq<T>, i: nat, j: nat, key: T -> int)
    requires Inserting(s, i, j, key) && (j == 0 || key(s[j]) <= key(s[j - 1]))
    ensures SortedByKeyDown(s[..i + 1], key)
  {
    var p := s[..i + 1];
    forall k, l | 0 <= k < l < |p| ensures key(p[l]) <= key(p[k]) {
      if l == j && k < j - 1 {
        assert key(s[j - 1]) <= key(s[k]);
      }
    }
  }

  predicate MatchesSearch(t: DashTemplate, searchTerm: string) {
    IncludesIgnoringCase(t.name, searchTerm) || IncludesIgnoringCase(t.description, searchTerm)
  }

  /** `selectedCategory` is truthy: set and not 0. */
  predicate CategoryOn(selectedCategory: Option<int>) {
    selectedCategory.Some? && selectedCategory.value != 0
  }

  predicate InCategory(t: DashTemplate, categoryId: int) {
    t.categoryId == categoryId
  }

  predicate IsPopular(t: DashTemplate) {
    t.popular
  }

  /** The list after the search and category filters, each applied only when
      its input is set. */
  function Prefiltered(templates: seq<DashTemplate>, searchTerm: string, selectedCategory: Option<int>): (r: seq<DashTemplate>)
    ensures IsSubsequence(r, templates)
    ensures searchTerm == "" && !CategoryOn(selectedCategory) ==> r == templates
    ensures forall i :: 0 <= i < |r| ==> MatchesSearch(r[i], searchTerm)
    ensures CategoryOn(selectedCategory) ==> forall i :: 0 <= i < |r| ==> r[i].categoryId == selectedCategory.value
    ensures forall i :: 0 <= i < |templates| ==>
      (MatchesSearch(templates[i], searchTerm) && (CategoryOn(selectedCategory) ==> templates[i].categoryId == selectedCategory.value))
      ==> templates[i] in r
  {
    var searched := if searchTerm != "" then Filter(templates, t => MatchesSearch(t, searchTerm)) else templates;
    assert IsSubsequence(searched, templates) by {
      if searchTerm == "" { SubsequenceReflexive(templates); }
    }
    assert forall i :: 0 <= i < |searched| ==> MatchesSearch(searched[i], searchTerm) by {
      if searchTerm == "" {
        forall i | 0 <= i < |searched| ensures MatchesSearch(searched[i], searchTerm) {
          IncludesEmptyTerm(searched[i].name);
        }
      }
    }
    if CategoryOn(selectedCategory) then
      var r := Filter(searched, t => InCategory(t, selectedCategory.value));
      SubsequenceTransitive(r, searched, templates);
      r
    else searched
  }

  /** The effect of lines 123-149. `filtered` starts from the full template
      list every time, so nothing from an earlier run carries over; `recent`
      sorts a copy in place and keeps the first five. */
  method FilterTemplates(templates: seq<DashTemplate>, searchTerm: string, selectedCategory: Option<int>, filterType: FilterType)
    returns (filtered: seq<DashTemplate>)
    ensures multiset(filtered) <= multiset(templates)
    ensures filterType == AllTemplates ==> filtered == Prefiltered(templates, searchTerm, selectedCategory)
    ensures filterType == Popular ==> filtered == Filter(Prefiltered(templates, searchTerm, selectedCategory), IsPopular)
    ensures filterType == Recent ==> IsNewestFive(filtered, Prefiltered(templates, searchTerm, selectedCategory))
  {
    filtered := templates;
    if searchTerm != "" {
      filtered := Filter(filtered, t => MatchesSearch(t, searchTerm));
    }
    if CategoryOn(selectedCategory) {
      filtered := Filter(filtered, t => InCategory(t, selectedCategory.value));
    }
    ghost var pre := filtered;
    assert pre == Prefiltered(templates, searchTerm, selectedCategory);
    SubsequenceMultiset(pre, templates);
    if filterType == Popular {
      filtered := Filter(filtered, IsPopular);
      SubsequenceMultiset(filtered, pre);
    } else if filterType == Recent {
      filtered := NewestFive(filtered);
    }
  }

  /** `s` is the newest five of `pre` (all of it when shorter), newest first:
      nothing left out is newer than anything kept. */
  predicate IsNewestFive(s: seq<DashTemplate>, pre: seq<DashTemplate>) {
    && |s| == (if |pre| < 5 then |pre| else 5)
    && SortedNewestFirst(s)
    && multiset(s) <= multiset(pre)
    && forall x, y :: x in s && y in multiset(pre) - multiset(s) ==> Key(y) <= Key(x)
  }

  /** The `recent` branch: the copy sorted in place, then `slice(0, 5)`. */
  method NewestFive(pre: seq<DashTemplate>) returns (top: seq<DashTemplate>)
    ensures IsNewestFive(top, pre)
  {
    var arr := new DashTemplate[|pre|](k requires 0 <= k < |pre| => pre[k]);
    assert arr[..] == pre;
    SortNewestFirst(arr);
    var sorted := arr[..];
    var n := if |sorted| < 5 then |sorted| else 5;
    top := sorted[..n];
    TopOfSorted(sorted, n);
  }

  /** A prefix of a newest-first list is newest-first, holds no element more
      often than the list, and is no older than anything left out. */
  lemma TopOfSorted(sorted: seq<DashTemplate>, n: nat)
    requires n <= |sorted| && SortedNewestFirst(sorted)
    ensures SortedNewestFirst(sorted[..n])
    ensures multiset(sorted[..n]) <= multiset(sorted)
    ensures multiset(sorted) - multiset(sorted[..n]) == multiset(sorted[n..])
    ensures forall x, y :: x in sorted[..n] && y in multiset(sorted[n..]) ==> Key(y) <= Key(x)
  {
    var key: DashTemplate -> int := t => Key(t);
    forall k, l | 0 <= k < l < |sorted| ensures key(sorted[l]) <= key(sorted[k]) {
    }
    TopOfSortedBy(sorted, n, key);
    var top := sorted[..n];
    forall k, l | 0 <= k < l < |top| ensures Key(top[l]) <= Key(top[k]) {
      assert key(top[l]) <= key(top[k]);
    }
    forall x, y | x in top && y in multiset(sorted[n..]) ensures Key(y) <= Key(x) {
      assert key(y) <= key(x);
    }
  }

  /** `TopOfSorted` for any key. */
  lemma TopOfSortedBy<T>(sorted: seq<T>, n: nat, key: T -> int)
    requires n <= |sorted| && SortedByKeyDown(sorted, key)
    ensures SortedByKeyDown(sorted[..n], key)
    ensures multiset(sorted[..n]) <= multiset(sorted)
    ensures multiset(sorted) - multiset(sorted[..n]) == multiset(sorted[n..])
    ensures forall x, y :: x in sorted[..n] && y in multiset(sorted[n..]) ==> key(y) <= key(x)
  {
    assert sorted == sorted[..n] + sorted[n..];
    forall x, y | x in sorted[..n] && y in multiset(sorted[n..]) ensures key(y) <= key(x) {
      var k :| 0 <= k < n && sorted[k] == x;
      var l :| 0 <= l < |sorted[n..]| && sorted[n..][l] == y;
      assert sorted[n + l] == y;
    }
  }

  /** `handleCategoryChange`: the address the page moves to. */
  function CategoryUrl(categoryId: Option<int>): (url: string)
    ensures CategoryOn(categoryId) ==> url == "/documents?category=" + IntToString(categoryId.value)
    ensures !CategoryOn(categoryId) ==> url == "/documents"
  {
    if categoryId.Some? && categoryId.value != 0 then "/documents?category=" + IntToString(categoryId.value) else "/documents"
  }

  /** Where `handleCreateDocument` goes: the create route, or the login page
      carrying that route as `from`. */
  datatype CreateRoute = Navigate(path: string) | SignInFirst(path: string, from: string)

  function CreateDocumentRoute(signedIn: bool, templateId: int): (r: CreateRoute)
    ensures signedIn <==> r.Navigate?
    ensures r.Navigate? ==> r.path == "/documents/create/" + IntToString(templateId)
    ensures r.SignInFirst? ==> r.path == "/login" && r.from == "/documents/create/" + IntToString(templateId)
  {
    var route := "/documents/create/" + IntToString(templateId);
    if signedIn then Navigate(route) else SignInFirst("/login", route)
  }
}
