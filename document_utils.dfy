/** The export renderer `processTemplate` of src/utils/documentUtils.ts: the
    preview renderer's two passes, then the `{{multiply a b}}` helper, then,
    for a record with a `line_items` array, the invoice totals. */
module DocumentUtils {
  import opened Wrappers
  import opened JsObject
  import opened Values
  import opened Text
  import opened Placeholders
  import opened Helpers

  /** `processedHtml.replace(helperRegex, callback)`, documentUtils.ts lines 97-102. */
  method ApplyMultiplyPass(html: string, data: Record, nf: NumberFormat) returns (r: string)
    ensures r == MultiplyPass(html, data, nf)
  {
    r := "";
    var i := 0;
    while i < |html|
      invariant 0 <= i <= |html|
      invariant r + ScanMultiply(html, i, data, nf) == MultiplyPass(html, data, nf)
      decreases |html| - i
    {
      var step := MultiplyStepAt(html, i, data, nf);
      assert ScanMultiply(html, i, data, nf) == step.0 + ScanMultiply(html, step.1, data, nf);
      assert r + (step.0 + ScanMultiply(html, step.1, data, nf)) == r + step.0 + ScanMultiply(html, step.1, data, nf);
      r := r + step.0;
      i := step.1;
    }
  }

  // ---------------------------------------------------------------------------
  // Invoice totals

  /** `(parseFloat(item.quantity) || 0) * (parseFloat(item.unit_price) || 0)`. */
  function LineAmount(item: Record, nf: NumberFormat): real {
    NumberOf(Get(item, "quantity"), nf) * NumberOf(Get(item, "unit_price"), nf)
  }

  /** The `reduce` of documentUtils.ts lines 106-108: the sum of the line amounts. */
  function Subtotal(items: seq<Record>, nf: NumberFormat): real
    decreases |items|
  {
    if items == [] then 0.0 else Subtotal(items[..|items| - 1], nf) + LineAmount(items[|items| - 1], nf)
  }

  /** The subtotal of concatenated lists is the sum of their subtotals. */
  lemma {:induction false} SubtotalAppend(a: seq<Record>, b: seq<Record>, nf: NumberFormat)
    ensures Subtotal(a + b, nf) == Subtotal(a, nf) + Subtotal(b, nf)
    decreases |b|
  {
    if b == [] {
      assert a + b == a;
    } else {
      assert (a + b)[..|a + b| - 1] == a + b[..|b| - 1];
      SubtotalAppend(a, b[..|b| - 1], nf);
    }
  }

  /** When every quantity and unit price parses to a non-negative number, the
      subtotal is non-negative. */
  lemma {:induction false} SubtotalNonNegative(items: seq<Record>, nf: NumberFormat)
    requires forall k :: 0 <= k < |items| ==>
      NumberOf(Get(items[k], "quantity"), nf) >= 0.0 && NumberOf(Get(items[k], "unit_price"), nf) >= 0.0
    ensures Subtotal(items, nf) >= 0.0
    decreases |items|
  {
    if items != [] {
      SubtotalNonNegative(items[..|items| - 1], nf);
    }
  }

  /** Lines without a quantity or unit price count for nothing. */
  lemma {:induction false} SubtotalIgnoresIncompleteLines(items: seq<Record>, nf: NumberFormat)
    requires forall k :: 0 <= k < |items| ==> !HasKey(items[k], "quantity") || !HasKey(items[k], "unit_price")
    ensures Subtotal(items, nf) == 0.0
    decreases |items|
  {
    if items != [] {
      SubtotalIgnoresIncompleteLines(items[..|items| - 1], nf);
    }
  }

  /** The `reduce` as the loop it performs. */
  method ComputeSubtotal(items: seq<Record>, nf: NumberFormat) returns (subtotal: real)
    ensures subtotal == Subtotal(items, nf)
  {
    subtotal := 0.0;
    var i := 0;
    while i < |items|
      invariant 0 <= i <= |items|
      invariant subtotal == Subtotal(items[..i], nf)
    {
      assert items[..i + 1][..i] == items[..i];
      subtotal := subtotal + LineAmount(items[i], nf);
      i := i + 1;
    }
    assert items[..i] == items;
  }

  datatype Totals = Totals(subtotal: real, taxAmount: real, total: real)

  /** Subtotal, tax at `parseFloat(data.tax_rate) || 0` percent, and total. */
  function InvoiceTotals(items: seq<Record>, data: Record, nf: NumberFormat): (t: Totals)
    ensures t.subtotal == Subtotal(items, nf)
    ensures !HasKey(data, "tax_rate") ==> t.taxAmount == 0.0 && t.total == t.subtotal
  {
    var subtotal := Subtotal(items, nf);
    var taxRate := NumberOf(Get(data, "tax_rate"), nf);
    var taxAmount := subtotal * (taxRate / 100.0);
    Totals(subtotal, taxAmount, subtotal + taxAmount)
  }

  /** Lines 106-112: the subtotal by the `reduce`, then tax and total. */
  method ComputeTotals(items: seq<Record>, data: Record, nf: NumberFormat) returns (t: Totals)
    ensures t == InvoiceTotals(items, data, nf)
  {
    var subtotal := ComputeSubtotal(items, nf);
    var taxRate := NumberOf(Get(data, "tax_rate"), nf);
    var taxAmount := subtotal * (taxRate / 100.0);
    var total := subtotal + taxAmount;
    t := Totals(subtotal, taxAmount, total);
  }

  /** The total is the subtotal grown by the tax rate. */
  lemma TotalIncludesTax(items: seq<Record>, data: Record, nf: NumberFormat)
    ensures InvoiceTotals(items, data, nf).total
      == Subtotal(items, nf) * (1.0 + NumberOf(Get(data, "tax_rate"), nf) / 100.0)
  {
    var subtotal := Subtotal(items, nf);
    var taxRate := NumberOf(Get(data, "tax_rate"), nf);
    calc {
      InvoiceTotals(items, data, nf).total;
      subtotal + subtotal * (taxRate / 100.0);
      subtotal * (1.0 + taxRate / 100.0);
    }
  }

  /** The totals step: only a record whose `line_items` is an array gets its
      `{{subtotal}}`, `{{tax_amount}}` and `{{total}}` replaced, in that order. */
  function TotalsPass(html: string, data: Record, nf: NumberFormat): string {
    var v: Option<Value> := Get(data, "line_items");
    match v
    case Some(List(items)) =>
      var t := InvoiceTotals(items, data, nf);
      ReplaceAll(ReplaceAll(ReplaceAll(html, "{{subtotal}}", nf.toFixed2(t.subtotal)),
        "{{tax_amount}}", nf.toFixed2(t.taxAmount)), "{{total}}", nf.toFixed2(t.total))
    case _ => html
  }

  /** A record without a `line_items` array leaves the markup as it is. */
  lemma TotalsPassNeedsLineItems(html: string, data: Record, nf: NumberFormat)
    requires !(Get(data, "line_items").Some? && Get(data, "line_items").value.List?)
    ensures TotalsPass(html, data, nf) == html
  {
  }

  /** The totals only fill `{{subtotal}}`, `{{tax_amount}}` and `{{total}}`
      tags still present: markup without them is left as it is. */
  lemma TotalsPassWithoutTags(html: string, data: Record, nf: NumberFormat)
    requires !Contains(html, "{{subtotal}}") && !Contains(html, "{{tax_amount}}") && !Contains(html, "{{total}}")
    ensures TotalsPass(html, data, nf) == html
  {
  }

  // ---------------------------------------------------------------------------
  // The export renderer

  /** What `processTemplate` returns. */
  function ExportRender(template: string, data: Record, nf: NumberFormat): string {
    TotalsPass(MultiplyPass(PreviewRender(template, data, nf), data, nf), data, nf)
  }

  /** `processTemplate`, documentUtils.ts lines 67-121, step by step. */
  method ProcessTemplate(template: string, data: Record, nf: NumberFormat) returns (processedHtml: string)
    ensures processedHtml == ExportRender(template, data, nf)
  {
    processedHtml := ApplyScalarPass(template, data, nf);
    processedHtml := ApplyEachPass(processedHtml, data, nf);
    processedHtml := ApplyMultiplyPass(processedHtml, data, nf);
    var lineItems: Option<Value> := Get(data, "line_items");
    if lineItems.Some? && lineItems.value.List? {
      var t := ComputeTotals(lineItems.value.items, data, nf);
      processedHtml := ReplaceAll(processedHtml, "{{subtotal}}", nf.toFixed2(t.subtotal));
      processedHtml := ReplaceAll(processedHtml, "{{tax_amount}}", nf.toFixed2(t.taxAmount));
      processedHtml := ReplaceAll(processedHtml, "{{total}}", nf.toFixed2(t.total));
    }
  }

  /** The exported document agrees with the preview whenever the preview left
      no multiply tag and the record has no `line_items` array: the two
      renderers differ only in those two extra steps. */
  lemma ExportAgreesWithPreview(template: string, data: Record, nf: NumberFormat)
    requires !Contains(PreviewRender(template, data, nf), MultiplyOpen)
    requires !(Get(data, "line_items").Some? && Get(data, "line_items").value.List?)
    ensures ExportRender(template, data, nf) == PreviewRender(template, data, nf)
  {
    MultiplyPassNoHelper(PreviewRender(template, data, nf), data, nf);
  }

  /** Markup without `{{` is exported unchanged, whatever the record. */
  lemma ExportNoBracesUnchanged(template: string, data: Record, nf: NumberFormat)
    requires !Contains(template, "{{")
    ensures ExportRender(template, data, nf) == template
  {
    PreviewNoBracesUnchanged(template, data, nf);
    NoBracesNoTag(template, MultiplyOpen);
    MultiplyPassNoHelper(template, data, nf);
    NoBracesNoTag(template, "{{subtotal}}");
    NoBracesNoTag(template, "{{tax_amount}}");
    NoBracesNoTag(template, "{{total}}");
  }

  /** A computed total loses to a value in the record: the scalar pass has
      already replaced `{{subtotal}}` with the record's own `subtotal` string
      (the invoice form has such a field, and it starts out as `''`) before
      the totals step runs, whatever else the record holds and whether or not
      `line_items` is an array. */
  lemma UserSubtotalWins(data: Record, x: Value, nf: NumberFormat)
    requires Get(data, "subtotal") == Some(x) && IsScalar(x) && !Contains(ToText(x, nf), "{{")
    ensures ExportRender("{{subtotal}}", data, nf) == ToText(x, nf)
  {
    SubtotalKeyBraceFree();
    RecordValueFillsLoneTag("subtotal", data, x, nf);
  }

  /** The same holds for the two other totals: a `tax_amount` or `total` in
      the record fills its tag before the totals step sees it. */
  lemma UserTaxAndTotalWin(key: string, data: Record, x: Value, nf: NumberFormat)
    requires key == "tax_amount" || key == "total"
    requires Get(data, key) == Some(x) && IsScalar(x) && !Contains(ToText(x, nf), "{{")
    ensures ExportRender("{{" + key + "}}", data, nf) == ToText(x, nf)
  {
    TotalsKeysBraceFree();
    RecordValueFillsLoneTag(key, data, x, nf);
  }

  /** The export of a lone placeholder of a brace-free key holding a string
      or number is that value's text, for any record. */
  lemma RecordValueFillsLoneTag(key: string, data: Record, x: Value, nf: NumberFormat)
    requires BraceFree(key) && Get(data, key) == Some(x) && IsScalar(x) && !Contains(ToText(x, nf), "{{")
    ensures ExportRender(Placeholder(key), data, nf) == ToText(x, nf)
  {
    ScalarPassLoneTag(key, data, x, nf);
    UserSubtotalLaterSteps(ToText(x, nf), data, nf);
  }

  lemma SubtotalKeyBraceFree()
    ensures BraceFree("subtotal") && Placeholder("subtotal") == "{{subtotal}}"
  {
    var k := "subtotal";
    forall i | 0 <= i < |k| ensures k[i] != '{' && k[i] != '}' {
      assert k[i] in {'s', 'u', 'b', 't', 'o', 'a', 'l'};
    }
  }

  lemma TotalsKeysBraceFree()
    ensures BraceFree("tax_amount") && BraceFree("total")
  {
    var k := "tax_amount";
    forall i | 0 <= i < |k| ensures k[i] != '{' && k[i] != '}' {
      assert k[i] in {'t', 'a', 'x', '_', 'm', 'o', 'u', 'n'};
    }
    var l := "total";
    forall i | 0 <= i < |l| ensures l[i] != '{' && l[i] != '}' {
      assert l[i] in {'t', 'o', 'a', 'l'};
    }
  }

  /** An empty `line_items` array fills all three totals with the text of 0. */
  lemma EmptyLineItemsTotalZero(html: string, data: Record, nf: NumberFormat)
    requires Get(data, "line_items") == Some(List([]))
    ensures var zero := nf.toFixed2(0.0);
      TotalsPass(html, data, nf)
        == ReplaceAll(ReplaceAll(ReplaceAll(html, "{{subtotal}}", zero), "{{tax_amount}}", zero), "{{total}}", zero)
  {
    assert InvoiceTotals([], data, nf) == Totals(0.0, 0.0, 0.0);
  }

  lemma UserSubtotalLaterSteps(v: string, data: Record, nf: NumberFormat)
    requires !Contains(v, "{{")
    ensures TotalsPass(MultiplyPass(EachPass(v, data, nf), data, nf), data, nf) == v
  {
    NoBracesNoTag(v, EachOpen);
    EachPassNoBlock(v, data, nf);
    NoBracesNoTag(v, MultiplyOpen);
    MultiplyPassNoHelper(v, data, nf);
    NoBracesNoTag(v, "{{subtotal}}");
    NoBracesNoTag(v, "{{tax_amount}}");
    NoBracesNoTag(v, "{{total}}");
    TotalsPassWithoutTags(v, data, nf);
  }
}
