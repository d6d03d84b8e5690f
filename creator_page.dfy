/** The three-step document page of src/pages/CreatorPage.tsx: the template
    lookup when the page opens, the empty form data it starts from, the step
    buttons, and the step indicator. */
module CreatorPage {
  import opened Wrappers
  import opened JsObject
  import opened Values
  import opened Schema
  import opened Seqs
  import opened Catalog

  /** The empty value a field starts with: `[]` for a repeater, `''` otherwise. */
  function InitialValue(f: Field): Value {
    if f.kind == "repeater" then List([]) else Str("")
  }

  function InitialPairs(fields: seq<Field>): (ps: seq<(string, Value)>)
    ensures |ps| == |fields|
    ensures forall i :: 0 <= i < |fields| ==> ps[i] == (fields[i].id, InitialValue(fields[i]))
  {
    seq(|fields|, i requires 0 <= i < |fields| => (fields[i].id, InitialValue(fields[i])))
  }

  /** The form data the page starts from. */
  function InitialData(fields: seq<Field>): Record {
    FromPairs(InitialPairs(fields))
  }

  /** The `reduce` of lines 45-52, writing one key per field into the
      accumulator. */
  method BuildInitialData(fields: seq<Field>) returns (acc: Record)
    ensures acc == InitialData(fields)
  {
    ghost var pairs := InitialPairs(fields);
    acc := [];
    var i := 0;
    while i < |fields|
      invariant 0 <= i <= |fields|
      invariant acc == FromPairs(pairs[..i])
    {
      var field := fields[i];
      FromPairsSnoc(pairs, i);
      if field.kind == "repeater" {
        acc := Put(acc, field.id, List([]));
      } else {
        acc := Put(acc, field.id, Str(""));
      }
      i := i + 1;
    }
    assert pairs[..i] == pairs;
  }

  /** The initial data has a key exactly for each field id, and nothing else. */
  lemma InitialDataKeys(fields: seq<Field>, k: string)
    ensures HasKey(InitialData(fields), k) <==> k in FieldIds(fields)
  {
    FromPairsHasKey(InitialPairs(fields), k);
    if k in FieldIds(fields) {
      var i :| 0 <= i < |fields| && FieldIds(fields)[i] == k;
      assert InitialPairs(fields)[i].0 == k;
    }
  }

  /** Each field id starts empty: `[]` for a repeater and `''` for anything
      else (the last field wins when two share an id). */
  lemma InitialDataValue(fields: seq<Field>, k: nat)
    requires k < |fields|
    requires forall j :: k < j < |fields| ==> fields[j].id != fields[k].id
    ensures IsRepeater(fields[k]) ==> Get(InitialData(fields), fields[k].id) == Some(List([]))
    ensures !IsRepeater(fields[k]) ==> Get(InitialData(fields), fields[k].id) == Some(Str(""))
  {
    FromPairsGet(InitialPairs(fields), k);
  }

  /** With distinct field ids the initial data is exactly one entry per
      field, in the fields' order. */
  lemma InitialDataOnePerField(fields: seq<Field>)
    requires forall i, j :: 0 <= i < j < |fields| ==> fields[i].id != fields[j].id
    ensures |InitialData(fields)| == |fields|
    ensures forall i :: 0 <= i < |fields| ==> InitialData(fields)[i] == (fields[i].id, InitialValue(fields[i]))
  {
    var ps := InitialPairs(fields);
    assert UniqueKeys(ps) by {
      forall i, j | 0 <= i < j < |ps| ensures ps[i].0 != ps[j].0 {
        assert ps[i].0 == fields[i].id && ps[j].0 == fields[j].id;
      }
    }
    FromPairsDistinct(ps);
  }

  predicate HasId(t: Template, templateId: string) {
    t.id == templateId
  }

  /** What the effect of lines 30-58 does when the page opens. */
  datatype LoadOutcome =
    | RedirectLogin
    | RedirectDashboard
    | Loaded(template: Template, category: Option<Category>, formData: Record)

  /** The effect: a signed-out user goes to the login page before anything is
      looked up; an unknown template id goes to the dashboard; otherwise the
      first template with that id is loaded with its category (possibly
      missing) and empty form data. */
  function Load(isAuthenticated: bool, templates: seq<Template>, categories: seq<Category>, templateId: string): (r: LoadOutcome)
    ensures r.RedirectLogin? <==> !isAuthenticated
    ensures r.RedirectDashboard? <==> isAuthenticated && forall i :: 0 <= i < |templates| ==> templates[i].id != templateId
    ensures r.Loaded? ==>
      && r.template in templates && r.template.id == templateId
      && r.formData == InitialData(r.template.fields)
      && (r.category.Some? <==> exists i :: 0 <= i < |categories| && categories[i].id == r.template.categoryId)
      && (r.category.Some? ==> r.category.value in categories && r.category.value.id == r.template.categoryId)
  {
    if !isAuthenticated then RedirectLogin
    else match Find(templates, (t: Template) => HasId(t, templateId))
      case None => RedirectDashboard
      case Some(t) => Loaded(t, Find(categories, (c: Category) => c.id == t.categoryId), InitialData(t.fields))
  }

  /** The page state: the step, the form data, the loaded template and
      category, and whether the preview has been opened. */
  datatype PageState = PageState(currentStep: nat, formData: Record, template: Option<Template>, category: Option<Category>, showPreview: bool)

  function InitialState(): PageState {
    PageState(0, [], None, None, false)
  }

  /** The state after the effect has run. */
  function AfterLoad(p: PageState, outcome: LoadOutcome): (r: PageState)
    ensures r.currentStep == p.currentStep && r.showPreview == p.showPreview
    ensures outcome.Loaded? ==> r.template == Some(outcome.template) && r.category == outcome.category && r.formData == outcome.formData
    ensures !outcome.Loaded? ==> r == p
  {
    match outcome
    case Loaded(t, c, data) => p.(template := Some(t), category := c, formData := data)
    case _ => p
  }

  /** "Loading template..." shows instead of the steps while the template
      or its category is missing. */
  predicate ShowsLoading(p: PageState) {
    p.template.None? || p.category.None?
  }

  /** The buttons and the form of the three steps. */
  datatype Event = Continue | Submit(data: Record) | Back | Edit

  /** Each control is rendered on one step only: Continue on step 0, the form
      and Back on step 1, Edit on step 2; and none while loading. */
  predicate Enabled(p: PageState, e: Event) {
    !ShowsLoading(p) &&
    match e
    case Continue => p.currentStep == 0
    case Submit(_) => p.currentStep == 1
    case Back => p.currentStep == 1
    case Edit => p.currentStep == 2
  }

  /** One event: Continue 0→1, Back 1→0, Edit 2→1 (the preview flag is left
      as it is), and `handleFormSubmit` stores the data, moves to step 2 and
      opens the preview. A control that is not on screen changes nothing. */
  function Step(p: PageState, e: Event): (r: PageState)
    ensures !Enabled(p, e) ==> r == p
    ensures r.template == p.template && r.category == p.category
    ensures Enabled(p, e) && e.Continue? ==> r == p.(currentStep := 1)
    ensures Enabled(p, e) && e.Back? ==> r == p.(currentStep := 0)
    ensures Enabled(p, e) && e.Edit? ==> r == p.(currentStep := 1)
    ensures Enabled(p, e) && e.Submit? ==> r.formData == e.data && r.currentStep == 2 && r.showPreview
    ensures p.showPreview ==> r.showPreview
  {
    if !Enabled(p, e) then p
    else match e
      case Continue => p.(currentStep := 1)
      case Submit(data) => p.(formData := data, currentStep := 2, showPreview := true)
      case Back => p.(currentStep := 0)
      case Edit => p.(currentStep := 1)
  }

  function Run(p: PageState, events: seq<Event>): PageState
    decreases |events|
  {
    if events == [] then p else Run(Step(p, events[0]), events[1..])
  }

  /** Whatever is clicked, the step stays one of 0, 1 and 2. */
  lemma {:induction false} RunKeepsStepInRange(p: PageState, events: seq<Event>)
    requires p.currentStep <= 2
    ensures Run(p, events).currentStep <= 2
    decreases |events|
  {
    if events != [] {
      RunKeepsStepInRange(Step(p, events[0]), events[1..]);
    }
  }

  /** The preview step is reached only through the form: a run that ends on
      step 2 from a state before it has opened the preview. */
  lemma {:induction false} RunReachesPreviewOnlyBySubmit(p: PageState, events: seq<Event>)
    requires p.currentStep <= 1 || p.showPreview
    ensures Run(p, events).currentStep == 2 ==> Run(p, events).showPreview
    ensures Run(p, events).currentStep <= 1 || Run(p, events).showPreview
    decreases |events|
  {
    if events != [] {
      RunReachesPreviewOnlyBySubmit(Step(p, events[0]), events[1..]);
    }
  }

  /** A template whose category is missing keeps the page on "Loading
      template..." whatever is clicked. */
  lemma {:induction false} MissingCategoryStaysLoading(p: PageState, events: seq<Event>)
    requires ShowsLoading(p)
    ensures Run(p, events) == p
    decreases |events|
  {
    if events != [] {
      MissingCategoryStaysLoading(Step(p, events[0]), events[1..]);
    }
  }

  const StepCount: nat := 3

  /** Step indicator `index` is highlighted. */
  predicate Reached(currentStep: nat, index: nat) {
    currentStep >= index
  }

  /** The connector drawn after indicator `index` (all but the last) is filled. */
  predicate ConnectorFilled(currentStep: nat, index: nat)
    requires index < StepCount - 1
  {
    currentStep > index
  }

  /** The indicator row, in order. */
  function Indicators(currentStep: nat): (r: seq<bool>)
    ensures |r| == StepCount && r[0]
    ensures forall i, j :: 0 <= i <= j < StepCount && r[j] ==> r[i]
    ensures forall i :: 0 <= i < StepCount ==> (r[i] <==> i <= currentStep)
  {
    seq(StepCount, i requires 0 <= i => Reached(currentStep, i))
  }

  /** A connector is filled exactly when the indicator after it is reached,
      so a filled connector always joins two highlighted indicators. */
  lemma ConnectorJoinsReached(currentStep: nat, index: nat)
    requires index < StepCount - 1
    ensures ConnectorFilled(currentStep, index) <==> Indicators(currentStep)[index + 1]
    ensures ConnectorFilled(currentStep, index) ==> Indicators(currentStep)[index]
  {
  }
}
