/** The `{{multiply a b}}` helper that only the export renderer of
    src/utils/documentUtils.ts knows (lines 97-102): every match of
    `/{{multiply\s+(\w+)\s+(\w+)}}/g` becomes the product of the two named
    top-level values, formatted with two decimals. */
module Helpers {
  import opened Wrappers
  import opened JsObject
  import opened Values
  import opened Text
  import opened Placeholders

  // ---------------------------------------------------------------------------
  // Matching `/{{multiply\s+(\w+)\s+(\w+)}}/`

  const MultiplyOpen: string := "{{multiply"

  /** A match of the multiply pattern at `i`: `{{multiply`, whitespace, the
      word `s[a0..a1]`, whitespace, the word `s[b0..b1]`, then `}}`. */
  ghost predicate MultiplyAt(s: string, i: nat, a0: nat, a1: nat, b0: nat, b1: nat) {
    && StartsWithAt(s, i, MultiplyOpen)
    && i + |MultiplyOpen| < a0 < a1 < b0 < b1 <= |s|
    && (forall q :: i + |MultiplyOpen| <= q < a0 ==> IsSpace(s[q]))
    && (forall q :: a0 <= q < a1 ==> IsWordChar(s[q]))
    && (forall q :: a1 <= q < b0 ==> IsSpace(s[q]))
    && (forall q :: b0 <= q < b1 ==> IsWordChar(s[q]))
    && StartsWithAt(s, b1, "}}")
  }

  /** Where a multiply match lies; it ends at `secondEnd + 2`. */
  datatype HelperMatch = HelperMatch(firstStart: nat, firstEnd: nat, secondStart: nat, secondEnd: nat)

  /** The multiply pattern tried at index `i`; `None` when it does not match there. */
  function MatchMultiplyAt(s: string, i: nat): (m: Option<HelperMatch>)
    requires i <= |s|
    ensures m.Some? ==> MultiplyAt(s, i, m.value.firstStart, m.value.firstEnd, m.value.secondStart, m.value.secondEnd)
    ensures m.Some? ==> i < m.value.firstStart <= m.value.firstEnd <= m.value.secondStart <= m.value.secondEnd
    ensures m.Some? ==> i < m.value.secondEnd + 2 <= |s|
  {
    if !StartsWithAt(s, i, MultiplyOpen) then None
    else
      var a0 := RunEnd(s, i + |MultiplyOpen|, IsSpace);
      var a1 := RunEnd(s, a0, IsWordChar);
      var b0 := RunEnd(s, a1, IsSpace);
      var b1 := RunEnd(s, b0, IsWordChar);
      if a0 == i + |MultiplyOpen| || a1 == a0 || b0 == a1 || b1 == b0 || !StartsWithAt(s, b1, "}}") then None
      else Some(HelperMatch(a0, a1, b0, b1))
  }

  /** Any occurrence of the multiply pattern's shape at `i` is the match
      `MatchMultiplyAt` returns. */
  lemma MatchMultiplyAtComplete(s: string, i: nat, a0: nat, a1: nat, b0: nat, b1: nat)
    requires MultiplyAt(s, i, a0, a1, b0, b1)
    ensures MatchMultiplyAt(s, i) == Some(HelperMatch(a0, a1, b0, b1))
  {
    assert !IsSpace(s[a0]);
    RunEndUnique(s, i + |MultiplyOpen|, IsSpace, a0);
    assert !IsWordChar(s[a1]);
    RunEndUnique(s, a0, IsWordChar, a1);
    assert !IsSpace(s[b0]);
    RunEndUnique(s, a1, IsSpace, b0);
    assert s[b1] == '}';
    RunEndUnique(s, b0, IsWordChar, b1);
  }

  // ---------------------------------------------------------------------------
  // The multiply pass

  /** `(parseFloat(data[a]) || 0) * (parseFloat(data[b]) || 0)`, looked up in
      the top-level record whether or not the tag sits inside an each body. */
  function Product(data: Record, a: string, b: string, nf: NumberFormat): (x: real)
    ensures !HasKey(data, a) || !HasKey(data, b) ==> x == 0.0
  {
    NumberOf(Get(data, a), nf) * NumberOf(Get(data, b), nf)
  }

  /** The replacement at index `i`: the formatted product of a tag starting
      there and the index after the tag, or the character there and the next
      index. */
  function MultiplyStepAt(s: string, i: nat, data: Record, nf: NumberFormat): (r: (string, nat))
    requires i < |s|
    ensures i < r.1 <= |s|
  {
    match MatchMultiplyAt(s, i)
    case Some(m) =>
      (nf.toFixed2(Product(data, s[m.firstStart..m.firstEnd], s[m.secondStart..m.secondEnd], nf)), m.secondEnd + 2)
    case None => ([s[i]], i + 1)
  }

  /** The global multiply replacement from index `i` on. */
  function ScanMultiply(s: string, i: nat, data: Record, nf: NumberFormat): string
    requires i <= |s|
    decreases |s| - i
  {
    if i == |s| then ""
    else
      var step := MultiplyStepAt(s, i, data, nf);
      step.0 + ScanMultiply(s, step.1, data, nf)
  }

  function MultiplyPass(html: string, data: Record, nf: NumberFormat): string {
    ScanMultiply(html, 0, data, nf)
  }

  /** Where no multiply tag starts, the scan copies the text. */
  lemma {:induction false} ScanMultiplyNoHelper(s: string, i: nat, data: Record, nf: NumberFormat)
    requires i <= |s|
    requires forall q :: i <= q <= |s| ==> !StartsWithAt(s, q, MultiplyOpen)
    ensures ScanMultiply(s, i, data, nf) == s[i..]
    decreases |s| - i
  {
    if i < |s| {
      assert MatchMultiplyAt(s, i).None?;
      ScanMultiplyNoHelper(s, i + 1, data, nf);
      assert [s[i]] + s[i + 1..] == s[i..];
    }
  }

  /** Markup without `{{multiply` is left unchanged by the multiply pass. */
  lemma MultiplyPassNoHelper(html: string, data: Record, nf: NumberFormat)
    requires !Contains(html, MultiplyOpen)
    ensures MultiplyPass(html, data, nf) == html
  {
    ScanMultiplyNoHelper(html, 0, data, nf);
  }

  /** A tag alone is replaced by the formatted product of the two top-level
      values. */
  lemma MultiplySingleTag(x: string, y: string, data: Record, nf: NumberFormat)
    requires IsWord(x) && IsWord(y)
    ensures MultiplyPass(MultiplyOpen + " " + x + " " + y + "}}", data, nf) == nf.toFixed2(Product(data, x, y, nf))
  {
    var s := MultiplyOpen + " " + x + " " + y + "}}";
    var a0 := |MultiplyOpen| + 1;
    var b0 := a0 + |x| + 1;
    SingleTagShape(x, y);
    MatchMultiplyAtComplete(s, 0, a0, a0 + |x|, b0, b0 + |y|);
    LoneTag(s, HelperMatch(a0, a0 + |x|, b0, b0 + |y|), data, nf);
  }

  /** A string that is one tag is replaced by that tag's product. */
  lemma LoneTag(s: string, m: HelperMatch, data: Record, nf: NumberFormat)
    requires |s| > 0 && MatchMultiplyAt(s, 0) == Some(m) && m.secondEnd + 2 == |s|
    ensures ScanMultiply(s, 0, data, nf) == nf.toFixed2(Product(data, s[m.firstStart..m.firstEnd], s[m.secondStart..m.secondEnd], nf))
  {
    assert ScanMultiply(s, |s|, data, nf) == "";
  }

  /** The lone tag has the helper's shape, with `x` and `y` as its words. */
  lemma SingleTagShape(x: string, y: string)
    requires IsWord(x) && IsWord(y)
    ensures var s := MultiplyOpen + " " + x + " " + y + "}}";
      var a0 := |MultiplyOpen| + 1;
      var b0 := a0 + |x| + 1;
      && MultiplyAt(s, 0, a0, a0 + |x|, b0, b0 + |y|)
      && s[a0..a0 + |x|] == x && s[b0..b0 + |y|] == y
  {
    var s := MultiplyOpen + " " + x + " " + y + "}}";
    var a0 := |MultiplyOpen| + 1;
    var a1 := a0 + |x|;
    var b0 := a1 + 1;
    var b1 := b0 + |y|;
    assert s[..|MultiplyOpen|] == MultiplyOpen;
    assert s[a0..a1] == x;
    assert s[b0..b1] == y;
    assert s[b1..] == "}}";
    forall q | a0 <= q < a1 ensures IsWordChar(s[q]) {
      assert s[q] == x[q - a0];
    }
    forall q | b0 <= q < b1 ensures IsWordChar(s[q]) {
      assert s[q] == y[q - b0];
    }
    assert s[|MultiplyOpen|] == ' ' && s[a1] == ' ';
  }
}
