/** The two passes that every copy of `processTemplate` runs first, in this
    order, written identically in src/utils/documentUtils.ts,
    src/components/DocumentPreview.tsx and src/pages/admin/ConfigPage.tsx:

    1. the scalar pass: for each top-level key, in `Object.keys` order, whose
       value is a string or a number, every `{{key}}` is replaced by the value;
    2. the each pass: every match of `/{{#each\s+(\w+)}}([\s\S]*?){{\/each}}/g`
       is replaced by one copy of the body per item of the named array, each
       copy with every `{{itemKey}}` replaced by that item's value, the copies
       joined with no separator; a missing or non-array value gives `''`.

    A regular expression with the `g` flag is matched left to right: where a
    match starts, it is replaced and the search resumes after it; elsewhere
    the character is kept. `ScanEach` states this; `ApplyEachPass` is the
    same scan as a loop. */
module Placeholders {
  import opened Wrappers
  import opened JsObject
  import opened Values
  import opened Text

  /** `{{key}}`, the text `new RegExp('{{' + key + '}}', 'g')` matches when
      `key` is a word. */
  function Placeholder(key: string): (p: string)
    ensures |p| == |key| + 4 && p[..2] == "{{"
  {
    "{{" + key + "}}"
  }

  // ---------------------------------------------------------------------------
  // Runs and first occurrences: the building blocks of the regular expressions

  /** The end of the run of characters satisfying `p` that starts at `i`
      (`p*` matched greedily from `i`). */
  function RunEnd(s: string, i: nat, p: char -> bool): (j: nat)
    requires i <= |s|
    ensures i <= j <= |s|
    ensures forall q :: i <= q < j ==> p(s[q])
    ensures j == |s| || !p(s[j])
    decreases |s| - i
  {
    if i < |s| && p(s[i]) then RunEnd(s, i + 1, p) else i
  }

  /** A run is determined by where it starts: any `a` with the run's two
      properties is `RunEnd`. */
  lemma RunEndUnique(s: string, i: nat, p: char -> bool, a: nat)
    requires i <= a <= |s|
    requires forall q :: i <= q < a ==> p(s[q])
    requires a == |s| || !p(s[a])
    ensures RunEnd(s, i, p) == a
  {
  }

  /** The first index at or after `i` where `pat` occurs. */
  function FindFrom(s: string, pat: string, i: nat): (r: Option<nat>)
    requires i <= |s|
    ensures r.Some? ==> i <= r.value <= |s| && StartsWithAt(s, r.value, pat)
    ensures r.Some? ==> forall q :: i <= q < r.value ==> !StartsWithAt(s, q, pat)
    ensures r.None? ==> forall q :: i <= q <= |s| ==> !StartsWithAt(s, q, pat)
    decreases |s| - i
  {
    if StartsWithAt(s, i, pat) then Some(i)
    else if i == |s| then None
    else FindFrom(s, pat, i + 1)
  }

  /** `FindFrom` returns the first occurrence, whichever one that is. */
  lemma FindFromUnique(s: string, pat: string, i: nat, c: nat)
    requires i <= c <= |s| && StartsWithAt(s, c, pat)
    requires forall q :: i <= q < c ==> !StartsWithAt(s, q, pat)
    ensures FindFrom(s, pat, i) == Some(c)
  {
  }

  // ---------------------------------------------------------------------------
  // The scalar pass

  /** One `forEach` step of the scalar pass: only a string or number value
      replaces its placeholder. */
  function SubstituteScalar(html: string, key: string, v: Value, nf: NumberFormat): string {
    if IsScalar(v) then ReplaceAll(html, Placeholder(key), ToText(v, nf)) else html
  }

  /** The scalar pass over the keys of `data`, in order. */
  function ScalarPass(html: string, data: Record, nf: NumberFormat): string
    decreases |data|
  {
    if data == [] then html
    else ScalarPass(SubstituteScalar(html, data[0].0, data[0].1, nf), data[1..], nf)
  }

  /** The scalar pass of documentUtils.ts lines 71-76: `processedHtml` is
      reassigned once per key. */
  method ApplyScalarPass(template: string, data: Record, nf: NumberFormat) returns (processedHtml: string)
    ensures processedHtml == ScalarPass(template, data, nf)
  {
    processedHtml := template;
    var i := 0;
    while i < |data|
      invariant 0 <= i <= |data|
      invariant ScalarPass(processedHtml, data[i..], nf) == ScalarPass(template, data, nf)
    {
      assert data[i..][1..] == data[i + 1..];
      processedHtml := SubstituteScalar(processedHtml, data[i].0, data[i].1, nf);
      i := i + 1;
    }
  }

  /** A placeholder occurs only where its opening braces occur. */
  lemma ContainsPrefixOf(s: string, p: string, q: string)
    requires Contains(s, p + q)
    ensures Contains(s, p)
  {
    var i :| 0 <= i <= |s| && StartsWithAt(s, i, p + q);
    assert s[i..i + |p|] == (p + q)[..|p|];
    assert StartsWithAt(s, i, p);
  }

  /** Placeholders that name no string/number key are left literally: when no
      such key's placeholder occurs, the scalar pass changes nothing. */
  lemma {:induction false} ScalarPassKeepsUnknown(html: string, data: Record, nf: NumberFormat)
    requires forall j :: 0 <= j < |data| && IsScalar(data[j].1) ==> !Contains(html, Placeholder(data[j].0))
    ensures ScalarPass(html, data, nf) == html
    decreases |data|
  {
    if data != [] {
      assert SubstituteScalar(html, data[0].0, data[0].1, nf) == html;
      forall j | 0 <= j < |data[1..]| && IsScalar(data[1..][j].1)
        ensures !Contains(html, Placeholder(data[1..][j].0))
      {
        assert data[1..][j] == data[j + 1];
      }
      ScalarPassKeepsUnknown(html, data[1..], nf);
    }
  }

  /** Markup without `{{` has no placeholder at all. */
  lemma NoBracesNoPlaceholder(html: string, key: string)
    requires !Contains(html, "{{")
    ensures !Contains(html, Placeholder(key))
  {
    if Contains(html, Placeholder(key)) {
      assert Placeholder(key) == "{{" + (key + "}}");
      ContainsPrefixOf(html, "{{", key + "}}");
    }
  }

  lemma ScalarPassNoBraces(html: string, data: Record, nf: NumberFormat)
    requires !Contains(html, "{{")
    ensures ScalarPass(html, data, nf) == html
  {
    forall j | 0 <= j < |data| ensures !Contains(html, Placeholder(data[j].0)) {
      NoBracesNoPlaceholder(html, data[j].0);
    }
    ScalarPassKeepsUnknown(html, data, nf);
  }

  // ---------------------------------------------------------------------------
  // Item substitution inside an each body

  /** One copy of an each body: every key of `item`, in order, replaced by
      its value whatever the value's type (documentUtils.ts lines 84-89). */
  function SubstituteItem(content: string, item: Record, nf: NumberFormat): string
    decreases |item|
  {
    if item == [] then content
    else SubstituteItem(ReplaceAll(content, Placeholder(item[0].0), ToText(item[0].1, nf)), item[1..], nf)
  }

  /** The inner `forEach` over an item's keys. */
  method ExpandItem(content: string, item: Record, nf: NumberFormat) returns (itemContent: string)
    ensures itemContent == SubstituteItem(content, item, nf)
  {
    itemContent := content;
    var i := 0;
    while i < |item|
      invariant 0 <= i <= |item|
      invariant SubstituteItem(itemContent, item[i..], nf) == SubstituteItem(content, item, nf)
    {
      assert item[i..][1..] == item[i + 1..];
      itemContent := ReplaceAll(itemContent, Placeholder(item[i].0), ToText(item[i].1, nf));
      i := i + 1;
    }
  }

  /** `items.map(...).join('')`: one substituted copy per item, in order. */
  function ExpandItems(body: string, items: seq<Record>, nf: NumberFormat): string
    decreases |items|
  {
    if items == [] then "" else SubstituteItem(body, items[0], nf) + ExpandItems(body, items[1..], nf)
  }

  /** The replacement for one each block: the copies when the named value is
      an array, `''` otherwise (missing, string, number, boolean or null). */
  function ExpandBlock(name: string, body: string, data: Record, nf: NumberFormat): (r: string)
    ensures !(Get(data, name).Some? && Get(data, name).value.List?) ==> r == ""
    ensures Get(data, name) == Some(List([])) ==> r == ""
  {
    var v: Option<Value> := Get(data, name);
    match v
    case Some(List(items)) => ExpandItems(body, items, nf)
    case _ => ""
  }

  /** A block over a one-item array is one substituted copy of the body. */
  lemma ExpandSingleItem(name: string, body: string, data: Record, nf: NumberFormat, item: Record)
    requires Get(data, name) == Some(List([item]))
    ensures ExpandBlock(name, body, data, nf) == SubstituteItem(body, item, nf)
  {
    assert ExpandItems(body, [item], nf) == SubstituteItem(body, item, nf) + ExpandItems(body, [], nf);
  }

  /** Copies are concatenated in array order: the block for `a + b` is the
      block for `a` followed by the block for `b`. */
  lemma {:induction false} ExpandItemsAppend(body: string, a: seq<Record>, b: seq<Record>, nf: NumberFormat)
    ensures ExpandItems(body, a + b, nf) == ExpandItems(body, a, nf) + ExpandItems(body, b, nf)
    decreases |a|
  {
    if a == [] {
      assert a + b == b;
    } else {
      assert (a + b)[0] == a[0] && (a + b)[1..] == a[1..] + b;
      ExpandItemsAppend(body, a[1..], b, nf);
    }
  }

  /** The `map` callback and `join('')` of documentUtils.ts lines 80-94. */
  method RenderBlock(name: string, body: string, data: Record, nf: NumberFormat) returns (r: string)
    ensures r == ExpandBlock(name, body, data, nf)
  {
    var v: Option<Value> := Get(data, name);
    match v
    case Some(List(items)) =>
      r := "";
      var i := 0;
      while i < |items|
        invariant 0 <= i <= |items|
        invariant r == ExpandItems(body, items[..i], nf)
      {
        var copy := ExpandItem(body, items[i], nf);
        ExpandItemsAppend(body, items[..i], [items[i]], nf);
        assert items[..i + 1] == items[..i] + [items[i]];
        r := r + copy;
        i := i + 1;
      }
      assert items[..i] == items;
    case _ =>
      r := "";
  }

  // ---------------------------------------------------------------------------
  // Matching `/{{#each\s+(\w+)}}([\s\S]*?){{\/each}}/`

  const EachOpen: string := "{{#each"
  const EachClose: string := "{{/each}}"

  /** A match of the each pattern at `i`: `{{#each`, whitespace up to
      `nameStart`, the word `s[nameStart..nameEnd]`, `}}`, the body up to
      `bodyEnd`, and `{{/each}}` there, with no `{{/each}}` starting earlier in
      the body (the body is lazy, so it ends at the first closer). */
  ghost predicate EachBlockAt(s: string, i: nat, nameStart: nat, nameEnd: nat, bodyEnd: nat) {
    && StartsWithAt(s, i, EachOpen)
    && i + |EachOpen| < nameStart < nameEnd <= |s|
    && (forall q :: i + |EachOpen| <= q < nameStart ==> IsSpace(s[q]))
    && (forall q :: nameStart <= q < nameEnd ==> IsWordChar(s[q]))
    && StartsWithAt(s, nameEnd, "}}")
    && nameEnd + 2 <= bodyEnd <= |s|
    && StartsWithAt(s, bodyEnd, EachClose)
    && (forall q :: nameEnd + 2 <= q < bodyEnd ==> !StartsWithAt(s, q, EachClose))
  }

  /** Where a block match lies: its argument is `s[argStart..argEnd]`, its
      body runs from `argEnd + 2` to `bodyEnd`, and the match ends at `end`,
      just after the closing tag. */
  datatype BlockMatch = BlockMatch(argStart: nat, argEnd: nat, bodyEnd: nat, end: nat)

  /** The each pattern tried at index `i`; `None` when it does not match there. */
  function MatchEachAt(s: string, i: nat): (m: Option<BlockMatch>)
    requires i <= |s|
    ensures m.Some? ==> i < m.value.argStart <= m.value.argEnd && m.value.argEnd + 2 <= m.value.bodyEnd
    ensures m.Some? ==> i < m.value.end == m.value.bodyEnd + |EachClose| <= |s|
  {
    if !StartsWithAt(s, i, EachOpen) then None
    else
      var a := RunEnd(s, i + |EachOpen|, IsSpace);
      var b := RunEnd(s, a, IsWordChar);
      if a == i + |EachOpen| || b == a || !StartsWithAt(s, b, "}}") then None
      else match FindFrom(s, EachClose, b + 2)
        case None => None
        case Some(c) => Some(BlockMatch(a, b, c, c + |EachClose|))
  }

  /** What `MatchEachAt` returns is an occurrence of the each pattern's shape. */
  lemma MatchEachAtSound(s: string, i: nat)
    requires i <= |s| && MatchEachAt(s, i).Some?
    ensures var m := MatchEachAt(s, i).value; EachBlockAt(s, i, m.argStart, m.argEnd, m.bodyEnd)
  {
  }

  /** Any occurrence of the each pattern's shape at `i` is the match
      `MatchEachAt` returns, so `None` means the pattern does not match at `i`. */
  lemma MatchEachAtComplete(s: string, i: nat, a: nat, b: nat, c: nat)
    requires EachBlockAt(s, i, a, b, c)
    ensures MatchEachAt(s, i) == Some(BlockMatch(a, b, c, c + |EachClose|))
  {
    EachShapeUnique(s, i, a, b, c);
  }

  /** The pieces of an each match are found by the greedy runs and the first
      closer, so a match at `i` has only one shape. */
  lemma EachShapeUnique(s: string, i: nat, a: nat, b: nat, c: nat)
    requires EachBlockAt(s, i, a, b, c)
    ensures RunEnd(s, i + |EachOpen|, IsSpace) == a
    ensures RunEnd(s, a, IsWordChar) == b
    ensures FindFrom(s, EachClose, b + 2) == Some(c)
  {
    assert !IsSpace(s[a]);
    RunEndUnique(s, i + |EachOpen|, IsSpace, a);
    assert s[b] == '}';
    RunEndUnique(s, a, IsWordChar, b);
    FindFromUnique(s, EachClose, b + 2, c);
  }

  /** Blocks do not nest: a matched body never contains `{{/each}}`, and its
      argument is a word. */
  lemma EachBodyHasNoCloser(s: string, i: nat)
    requires i <= |s| && MatchEachAt(s, i).Some?
    ensures IsWord(s[MatchEachAt(s, i).value.argStart..MatchEachAt(s, i).value.argEnd])
    ensures !Contains(s[MatchEachAt(s, i).value.argEnd + 2..MatchEachAt(s, i).value.bodyEnd], EachClose)
  {
    var m := MatchEachAt(s, i).value;
    MatchEachAtSound(s, i);
    SliceLacks(s, m.argEnd + 2, m.bodyEnd, EachClose);
  }

  // ---------------------------------------------------------------------------
  // The each pass

  /** The each replacement at index `i`: the expansion of a block starting
      there and the index after it, or the character there and the next index. */
  function EachStepAt(s: string, i: nat, data: Record, nf: NumberFormat): (r: (string, nat))
    requires i < |s|
    ensures i < r.1 <= |s|
  {
    match MatchEachAt(s, i)
    case Some(m) => (ExpandBlock(s[m.argStart..m.argEnd], s[m.argEnd + 2..m.bodyEnd], data, nf), m.end)
    case None => ([s[i]], i + 1)
  }

  /** The global each replacement from index `i` on. */
  function ScanEach(s: string, i: nat, data: Record, nf: NumberFormat): string
    requires i <= |s|
    decreases |s| - i
  {
    if i == |s| then ""
    else
      var step := EachStepAt(s, i, data, nf);
      step.0 + ScanEach(s, step.1, data, nf)
  }

  function EachPass(html: string, data: Record, nf: NumberFormat): string {
    ScanEach(html, 0, data, nf)
  }

  /** One step of the each scan at index `i`: the callback's expansion of a
      block starting there, or the character there, and where the scan resumes. */
  method EachStep(html: string, i: nat, data: Record, nf: NumberFormat) returns (piece: string, next: nat)
    requires i < |html|
    ensures (piece, next) == EachStepAt(html, i, data, nf)
    ensures i < next <= |html|
    ensures ScanEach(html, i, data, nf) == piece + ScanEach(html, next, data, nf)
  {
    var found := MatchEachAt(html, i);
    if found.Some? {
      var m := found.value;
      EachStepAtMatch(html, i, m, data, nf);
      piece := RenderBlock(html[m.argStart..m.argEnd], html[m.argEnd + 2..m.bodyEnd], data, nf);
      next := m.end;
    } else {
      piece := [html[i]];
      next := i + 1;
    }
    ScanEachUnfold(html, i, data, nf);
  }

  /** At a match the step expands the block and resumes after the closer. */
  lemma EachStepAtMatch(s: string, i: nat, m: BlockMatch, data: Record, nf: NumberFormat)
    requires i < |s| && MatchEachAt(s, i) == Some(m)
    ensures m.argStart <= m.argEnd && m.argEnd + 2 <= m.bodyEnd <= |s|
    ensures EachStepAt(s, i, data, nf) == (ExpandBlock(s[m.argStart..m.argEnd], s[m.argEnd + 2..m.bodyEnd], data, nf), m.end)
  {
  }

  /** The scan from `i` is the step at `i` followed by the scan from where
      the step ends. */
  lemma ScanEachUnfold(s: string, i: nat, data: Record, nf: NumberFormat)
    requires i < |s|
    ensures ScanEach(s, i, data, nf) == EachStepAt(s, i, data, nf).0 + ScanEach(s, EachStepAt(s, i, data, nf).1, data, nf)
  {
  }

  /** `processedHtml.replace(eachRegex, callback)` of documentUtils.ts lines
      79-94, as the left-to-right scan the `g` flag performs. */
  method ApplyEachPass(html: string, data: Record, nf: NumberFormat) returns (r: string)
    ensures r == EachPass(html, data, nf)
  {
    r := "";
    var i := 0;
    while i < |html|
      invariant 0 <= i <= |html|
      invariant r + ScanEach(html, i, data, nf) == EachPass(html, data, nf)
      decreases |html| - i
    {
      var piece, next := EachStep(html, i, data, nf);
      assert r + (piece + ScanEach(html, next, data, nf)) == r + piece + ScanEach(html, next, data, nf);
      r := r + piece;
      i := next;
    }
  }

  /** Where no each block starts, the scan copies the text. */
  lemma {:induction false} ScanEachNoBlock(s: string, i: nat, data: Record, nf: NumberFormat)
    requires i <= |s|
    requires forall q :: i <= q <= |s| ==> !StartsWithAt(s, q, EachOpen)
    ensures ScanEach(s, i, data, nf) == s[i..]
    decreases |s| - i
  {
    if i < |s| {
      assert MatchEachAt(s, i).None?;
      ScanEachNoBlock(s, i + 1, data, nf);
      assert [s[i]] + s[i + 1..] == s[i..];
    }
  }

  /** Markup without `{{#each` is left unchanged by the each pass. */
  lemma EachPassNoBlock(html: string, data: Record, nf: NumberFormat)
    requires !Contains(html, EachOpen)
    ensures EachPass(html, data, nf) == html
  {
    ScanEachNoBlock(html, 0, data, nf);
  }

  /** `{{` is a prefix of every tag the passes look for. */
  lemma NoBracesNoTag(html: string, tag: string)
    requires !Contains(html, "{{") && |tag| >= 2 && tag[..2] == "{{"
    ensures !Contains(html, tag)
  {
    if Contains(html, tag) {
      assert tag == "{{" + tag[2..];
      ContainsPrefixOf(html, "{{", tag[2..]);
    }
  }

  /** A closing tag never starts inside an earlier closing tag: `{{/each}}`
      does not overlap itself. */
  lemma EachCloseNoOverlap(s: string, q: nat, e: nat)
    requires q < e && StartsWithAt(s, q, EachClose) && StartsWithAt(s, e, EachClose)
    ensures q + |EachClose| <= e
  {
    assert s[e] == s[e..e + |EachClose|][0] == '{';
    assert e + 1 < |s| && s[e + 1] == s[e..e + |EachClose|][1] == '{';
    assert forall j :: q <= j < q + |EachClose| && j < |s| ==> s[j] == s[q..q + |EachClose|][j - q] == EachClose[j - q];
    assert forall k :: 1 <= k < |EachClose| - 1 ==> EachClose[k] != '{' || EachClose[k + 1] != '{';
    assert EachClose[|EachClose| - 1] != '{';
  }

  /** A markup that is exactly one each block `{{#each name}}body{{/each}}`,
      with no closing tag in its body, is replaced by that block's expansion. */
  lemma EachPassSingleBlock(name: string, body: string, data: Record, nf: NumberFormat)
    requires IsWord(name) && !Contains(body, EachClose)
    ensures EachPass(EachOpen + " " + name + "}}" + body + EachClose, data, nf) == ExpandBlock(name, body, data, nf)
  {
    var s := EachOpen + " " + name + "}}" + body + EachClose;
    var a := |EachOpen| + 1;
    var b := a + |name|;
    var c := b + 2 + |body|;
    assert s[a..b] == name;
    assert s[b..b + 2] == "}}";
    assert s[b + 2..c] == body;
    assert s[c..] == EachClose;
    forall q | b + 2 <= q < c ensures !StartsWithAt(s, q, EachClose) {
      if StartsWithAt(s, q, EachClose) {
        EachCloseNoOverlap(s, q, c);
        assert s[q..q + |EachClose|] == body[q - b - 2..q - b - 2 + |EachClose|];
        assert StartsWithAt(body, q - b - 2, EachClose);
      }
    }
    assert EachBlockAt(s, 0, a, b, c);
    MatchEachAtComplete(s, 0, a, b, c);
    assert ScanEach(s, c + |EachClose|, data, nf) == "";
  }

  // ---------------------------------------------------------------------------
  // The preview renderer

  /** The preview renderer: the scalar pass, then the each pass. */
  function PreviewRender(html: string, data: Record, nf: NumberFormat): string {
    EachPass(ScalarPass(html, data, nf), data, nf)
  }

  /** The preview copies of `processTemplate` (DocumentPreview.tsx lines
      20-51 and ConfigPage.tsx lines 162-192, the same code twice). */
  method ProcessPreview(template: string, data: Record, nf: NumberFormat) returns (processedHtml: string)
    ensures processedHtml == PreviewRender(template, data, nf)
  {
    processedHtml := ApplyScalarPass(template, data, nf);
    processedHtml := ApplyEachPass(processedHtml, data, nf);
  }

  /** Placeholders are never blanked: markup without each blocks whose
      placeholders name no string/number key comes back literally, so
      `{{multiply a b}}`, `{{subtotal}}` and unknown keys stay as written. */
  lemma PreviewKeepsUnknownPlaceholders(html: string, data: Record, nf: NumberFormat)
    requires !Contains(html, EachOpen)
    requires forall j :: 0 <= j < |data| && IsScalar(data[j].1) ==> !Contains(html, Placeholder(data[j].0))
    ensures PreviewRender(html, data, nf) == html
  {
    ScalarPassKeepsUnknown(html, data, nf);
    EachPassNoBlock(html, data, nf);
  }

  /** `n` copies of `s` with nothing between them. */
  function Repeat(s: string, n: nat): string {
    if n == 0 then "" else s + Repeat(s, n - 1)
  }

  /** A body without `{{` has nothing for an item to fill. */
  lemma {:induction false} SubstituteItemNoBraces(content: string, item: Record, nf: NumberFormat)
    requires !Contains(content, "{{")
    ensures SubstituteItem(content, item, nf) == content
    decreases |item|
  {
    if item != [] {
      NoBracesNoPlaceholder(content, item[0].0);
      SubstituteItemNoBraces(content, item[1..], nf);
    }
  }

  /** ... so every item gives the same copy of it. */
  lemma {:induction false} ExpandItemsNoBraces(body: string, items: seq<Record>, nf: NumberFormat)
    requires !Contains(body, "{{")
    ensures ExpandItems(body, items, nf) == Repeat(body, |items|)
    decreases |items|
  {
    if items != [] {
      SubstituteItemNoBraces(body, items[0], nf);
      ExpandItemsNoBraces(body, items[1..], nf);
    }
  }

  /** A top-level string or number shadows a repeater item's value of the
      same key: the scalar pass has already replaced `{{budget}}` inside the
      each body before the items are looked at, so every row shows the
      top-level value whatever the items hold, as in the marketing plan's
      budget table. */
  lemma TopLevelKeyShadowsItemKey(x: Value, items: seq<Record>, nf: NumberFormat)
    requires IsScalar(x) && !Contains(ToText(x, nf), "{{")
    ensures PreviewRender(EachOpen + " rows}}" + Placeholder("budget") + EachClose,
      [("budget", x), ("rows", List(items))], nf) == Repeat(ToText(x, nf), |items|)
  {
    var data: Record := [("budget", x), ("rows", List(items))];
    ShadowScalarStep(data, x, items, nf);
    ShadowEachStep(data, ToText(x, nf), items, nf);
  }

  lemma ShadowScalarStep(data: Record, x: Value, items: seq<Record>, nf: NumberFormat)
    requires data == [("budget", x), ("rows", List(items))] && IsScalar(x)
    ensures ScalarPass(EachOpen + " rows}}" + Placeholder("budget") + EachClose, data, nf)
      == EachOpen + " rows}}" + ToText(x, nf) + EachClose
  {
    var a := EachOpen + " rows}}";
    var t := ToText(x, nf);
    var html := a + Placeholder("budget") + EachClose;
    forall q | 0 <= q < |a| ensures !StartsWithAt(html, q, Placeholder("budget")) {
      assert html[q + 2] != Placeholder("budget")[2];
    }
    ReplaceAllAt(a, Placeholder("budget"), t, EachClose);
    assert !Contains(EachClose, Placeholder("budget"));
    var after := a + t + EachClose;
    assert SubstituteScalar(html, "budget", x, nf) == after;
    assert SubstituteScalar(after, "rows", List(items), nf) == after;
    assert data[1..][1..] == [];
    assert ScalarPass(after, data[1..][1..], nf) == after;
  }

  lemma ShadowEachStep(data: Record, t: string, items: seq<Record>, nf: NumberFormat)
    requires |data| == 2 && data[0].0 == "budget" && data[1] == ("rows", List(items)) && !Contains(t, "{{")
    ensures EachPass(EachOpen + " rows}}" + t + EachClose, data, nf) == Repeat(t, |items|)
  {
    assert "rows"[0] == 'r' && "rows"[1] == 'o' && "rows"[2] == 'w' && "rows"[3] == 's';
    assert IsWord("rows");
    NoBracesNoTag(t, EachClose);
    assert EachOpen + " rows}}" + t + EachClose == EachOpen + " " + "rows" + "}}" + t + EachClose;
    EachPassSingleBlock("rows", t, data, nf);
    assert "budget" != "rows";
    assert Get(data[1..], "rows") == Some(List(items));
    assert ExpandBlock("rows", t, data, nf) == ExpandItems(t, items, nf);
    ExpandItemsNoBraces(t, items, nf);
  }

  /** The replacements are not confined to the placeholders that were in the
      markup: a value can complete braces around it into a new placeholder,
      which a later key, or nothing, then fills. */
  lemma ScalarValueCanFormPlaceholder(nf: NumberFormat)
    ensures ScalarPass("{{{{k}}", [("k", Str("k}}"))], nf) == Placeholder("k")
  {
    var p := Placeholder("k");
    assert "{{{{k}}" == "{{" + p + "";
    forall q | 0 <= q < 2 ensures !StartsWithAt("{{" + p + "", q, p) {
      assert ("{{" + p + "")[q + 2] != p[2];
    }
    ReplaceAllAt("{{", p, "k}}", "");
    assert "{{" + "k}}" == p;
  }

  /** No brace characters. */
  predicate BraceFree(s: string) {
    forall i :: 0 <= i < |s| ==> s[i] != '{' && s[i] != '}'
  }

  /** The placeholder of a brace-free key holds no placeholder but its own. */
  lemma PlaceholderOnlyInItself(key: string, other: string)
    requires BraceFree(key) && Contains(Placeholder(key), Placeholder(other))
    ensures other == key
  {
    var s := Placeholder(key);
    var p := Placeholder(other);
    var i :| 0 <= i <= |s| && StartsWithAt(s, i, p);
    assert s[i..i + |p|] == p;
    assert forall j :: 2 <= j < |key| + 2 ==> s[j] == key[j - 2];
    assert s[|key| + 2] == '}' && s[|key| + 3] == '}';
    assert s[i + 1] == p[1];
    assert i == 0;
    assert s[|other| + 2] == p[|other| + 2];
    assert |other| == |key|;
    assert other == p[2..|other| + 2] == s[2..|key| + 2] == key;
  }

  /** Markup that is just the placeholder of a string or number key becomes
      that key's value, whatever other keys the record holds and in whatever
      order, as long as the value opens no placeholder of its own. */
  lemma {:induction false} ScalarPassLoneTag(key: string, data: Record, x: Value, nf: NumberFormat)
    requires BraceFree(key) && Get(data, key) == Some(x)
    requires IsScalar(x) && !Contains(ToText(x, nf), "{{")
    ensures ScalarPass(Placeholder(key), data, nf) == ToText(x, nf)
    decreases |data|
  {
    var s := Placeholder(key);
    if data[0].0 == key {
      assert s == "" + s + "";
      ReplaceAllAt("", s, ToText(x, nf), "");
      assert SubstituteScalar(s, key, x, nf) == ToText(x, nf);
      ScalarPassNoBraces(ToText(x, nf), data[1..], nf);
    } else {
      if IsScalar(data[0].1) && Contains(s, Placeholder(data[0].0)) {
        PlaceholderOnlyInItself(key, data[0].0);
      }
      assert SubstituteScalar(s, data[0].0, data[0].1, nf) == s;
      ScalarPassLoneTag(key, data[1..], x, nf);
    }
  }

  /** Markup without `{{` is returned unchanged for any data. */
  lemma PreviewNoBracesUnchanged(html: string, data: Record, nf: NumberFormat)
    requires !Contains(html, "{{")
    ensures PreviewRender(html, data, nf) == html
  {
    ScalarPassNoBraces(html, data, nf);
    NoBracesNoTag(html, EachOpen);
    EachPassNoBlock(html, data, nf);
  }
}
