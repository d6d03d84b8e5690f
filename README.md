# Document templates and page state, in Dafny

This project models the document-template engine of a React document builder, together with the state logic of its pages.

**The template engine.** A template is HTML containing tags:
- `{{key}}` placeholders;
- `{{#each name}}…{{/each}}` repeater blocks;
- `{{multiply a b}}` helpers;
- the invoice totals `{{subtotal}}`, `{{tax_amount}}` and `{{total}}`.

The engine fills these tags from an untyped data record. The record is modelled as an ordered list of key/value pairs with JavaScript's assignment semantics (`JsObject`). Its values are strings, numbers, booleans, `null`, or arrays of item records (`Values`).

The engine has two renderers:
- the **preview renderer** (`Placeholders`), used by the document preview and the configuration page;
- the **export renderer** (`DocumentUtils`, `Helpers`), which adds the multiply helper and the invoice totals.

Each renderer is a `method` that reassigns the HTML pass by pass, as the source does. It is proved equal to a function. The regular-expression replacements become left-to-right scans. Lemmas state what a pass leaves alone, what a single block or tag becomes, and where the two renderers agree.

The template editor has its own preview dialect, in `EditorPreview`:
- `{{section.field}}` placeholders, replaced by split and join;
- `{{#if section.field}}…{{/if}}` conditionals.

**The pages.** Each page is modelled as the state its handlers compute. A handler becomes a function over a state value, or a method where the source loops. The admin pages (the configuration page, the template editor, both category pages, the template manager and the user manager) have lemmas relating one handler to another: add then delete, edit then save, toggle twice, duplicate then delete. The other pages have lemmas relating a handler to a predicate or to the unfiltered list. The pages are:
- the template configuration page (sample data, save checks, field list edits);
- the template editor (sections, fields, moves, the options text box);
- the step-by-step document form (section checks, Next, Previous);
- the creator page (loading, steps, step indicators);
- the category, template and user admin pages;
- the document dashboard (filters, an in-place sort by date, the top five);
- the gallery pages;
- the sign-in form.

The JavaScript number conversions `String(n)`, `toFixed(2)` and `parseFloat` are passed in as a `NumberFormat` record of functions, and numbers are `real`. Clock readings (`Date.now()`, today's date) and the answers to confirmation dialogs are parameters. Toasts are modelled where a handler's outcome is its message.

Engine behaviour worth noting:
- **Pass order.** Scalar placeholders are replaced first, then each blocks; the export renderer then runs the multiply pass and then the totals.
- **Unknown placeholders.** They are left literally in the output, not blanked (`Placeholders.PreviewKeepsUnknownPlaceholders`).
- **Number formatting.** There is no reserved list of numeric field names that get two-decimal formatting. A number is inserted as `String(n)`.
- **Invoice totals.** A string or number `subtotal`, `tax_amount` or `total` key in the record, whose text contains no `{{`, wins over the computed value, whatever else the record holds (`DocumentUtils.UserSubtotalWins`, `DocumentUtils.UserTaxAndTotalWin`).
- **Conditionals.** `{{#if}}` exists only in the template editor's preview.

## Model

| member | source | states |
|---|---|---|
| JsObject.Get | src/utils/documentUtils.ts:72 | `data[key]` is `undefined` exactly when the key is absent, and otherwise the value stored with it |
| JsObject.Put | src/pages/admin/ConfigPage.tsx:35-42 | `acc[k] = v`: afterwards `k` holds `v` and every other key reads as before; an existing key keeps its place in key order, a new key is appended |
| JsObject.PutKeepsKeysUnique | src/pages/admin/ConfigPage.tsx:35-42 | an assignment never creates a second entry for a key |
| JsObject.FromPairsGet | src/pages/CreatorPage.tsx:45-52 | after a run of assignments, a key holds the value of its last assignment |
| JsObject.FromPairsMissing | src/pages/CreatorPage.tsx:45-52 | a key never assigned is absent |
| JsObject.FromPairsHasKey | src/pages/CreatorPage.tsx:45-52 | the keys present are exactly the keys assigned |
| JsObject.FromPairsDistinct | src/pages/CreatorPage.tsx:45-52 | assigning distinct keys builds exactly those pairs, in order |
| Values.ToText | src/utils/documentUtils.ts:74 | a string is inserted as itself, a boolean as `true` or `false` |
| Values.NumberOf | src/utils/documentUtils.ts:99-100 | `parseFloat(v) \|\| 0`: a missing value is 0, a number is itself, a boolean, `null` or array is 0 |
| Text.Lower | src/pages/DashboardPage.tsx:17 | `toLowerCase` keeps the length and maps each character |
| Text.LowerIdempotent | src/pages/DashboardPage.tsx:17-18 | lower-casing twice is lower-casing once |
| Text.IncludesEmptyTerm | src/pages/DashboardPage.tsx:17 | every string includes the empty search term |
| Text.ReplaceAll | src/utils/documentUtils.ts:73-74 | a global literal replacement leaves text without the pattern unchanged |
| Text.ReplaceAllAt | src/utils/documentUtils.ts:73-74 | the first occurrence is replaced and the scan resumes after it |
| Text.SplitOnJoin | src/pages/admin/TemplateEditor.tsx:284 | `split(p).join(r)` is the global replacement of `p` by `r` |
| Text.TrimStart | src/pages/admin/CategoryPage.tsx:18 | `trim` drops exactly the leading whitespace |
| Text.TrimEnd | src/pages/admin/CategoryPage.tsx:18 | `trim` drops exactly the trailing whitespace |
| Text.TrimEmptyIffBlank | src/pages/admin/CategoryPage.tsx:18 | `!s.trim()` holds exactly when every character is whitespace |
| Text.TrimOfTrimmed | src/pages/admin/TemplateEditor.tsx:608 | trimming a string without surrounding whitespace changes nothing |
| Text.Split | src/pages/admin/TemplateEditor.tsx:607 | `split(c)` gives at least one piece, none containing `c` |
| Text.SplitJoin | src/pages/admin/TemplateEditor.tsx:604-607 | splitting the join of pieces without `c` gives the pieces back |
| Text.SplitAtFirst | src/pages/admin/TemplateEditor.tsx:611 | `split` cuts at the first separator |
| Text.Slug | src/pages/admin/CategoryPage.tsx:29 | `toLowerCase().replace(/\s+/g, '-')` has no whitespace and no upper-case letter |
| Text.DashSpaceRuns | src/pages/admin/CategoryPage.tsx:29 | replacing whitespace runs by `-` leaves no whitespace and leaves text without whitespace unchanged |
| Text.DashSpaceRunsRun | src/pages/admin/CategoryPage.tsx:29 | `/\s+/g` → `-`: a maximal whitespace run after whitespace-free text becomes exactly one `-`, and the rest is processed the same way |
| Text.DashSpaceRunsKeepsPrefix | src/pages/admin/CategoryPage.tsx:29 | whitespace-free text before the first run is copied unchanged, whatever follows |
| Text.IntToString | src/pages/DocumentDashboard.tsx:156 | the decimal text of an integer, with a minus sign when negative |
| Text.EmailShapedLength | src/pages/auth/Login.tsx:29 | a string the pattern `\S+@\S+\.\S+` accepts has at least five characters, an `@` and a `.` |
| Text.EmailShapedExample | src/pages/auth/Login.tsx:29 | `a@b.c` passes the pattern |
| Text.EmailShapedCounterexamples | src/pages/auth/Login.tsx:29 | `a@b` and `a@.c` fail it |
| Seqs.Map | src/pages/admin/CategoryManager.tsx:47 | `map(c => c.id)`: one result per element, in order, each the function applied to that element |
| Seqs.Filter | src/pages/admin/TemplateManager.tsx:74-86 | `filter` keeps exactly the elements satisfying the predicate, in order |
| Seqs.FilterMultiset | src/pages/admin/TemplateManager.tsx:74-86 | `filter` keeps every occurrence of an element satisfying the predicate and no occurrence of any other |
| Seqs.FilterKeepsAll | src/pages/admin/TemplateManager.tsx:74-86 | a filter whose predicate always holds keeps everything |
| Seqs.FilterAppend | src/pages/admin/TemplateManager.tsx:90 | filtering a concatenation filters each part |
| Seqs.FilterCongruent | src/pages/DashboardPage.tsx:16-21 | filters with predicates that agree on the list keep the same elements |
| Seqs.FilterFilter | src/pages/DocumentDashboard.tsx:128-141 | successive filters are one filter by the conjunction |
| Seqs.SubsequenceMultiset | src/pages/DocumentDashboard.tsx:124-141 | a filtered list holds no element more often than the list it came from |
| Seqs.RemoveAtIsSubsequence | src/pages/admin/ConfigPage.tsx:111 | `filter((_, i) => i !== index)` keeps the other elements in order |
| Placeholders.ApplyScalarPass | src/utils/documentUtils.ts:71-76 | the `forEach` reassigning `processedHtml` per key computes `ScalarPass` |
| Placeholders.ScalarPassKeepsUnknown | src/utils/documentUtils.ts:71-76 | when no string or number key's placeholder occurs, the scalar pass changes nothing |
| Placeholders.ScalarPassNoBraces | src/utils/documentUtils.ts:71-76 | markup without `{{` is untouched by the scalar pass |
| Placeholders.ExpandItem | src/utils/documentUtils.ts:84-89 | the inner `forEach` over an item's keys computes `SubstituteItem` |
| Placeholders.ExpandBlock | src/utils/documentUtils.ts:81-93 | a block over a missing or non-array value, or over an empty array, becomes `''` |
| Placeholders.ExpandItemsAppend | src/utils/documentUtils.ts:82-91 | the copies are joined in array order: the block for `a + b` is the block for `a` then for `b` |
| Placeholders.RenderBlock | src/utils/documentUtils.ts:80-94 | the `map` and `join('')` loop computes `ExpandBlock` |
| Placeholders.MatchEachAtSound | src/utils/documentUtils.ts:79 | a match is `{{#each`, whitespace, a word, `}}`, then the body up to the first `{{/each}}` |
| Placeholders.MatchEachAtComplete | src/utils/documentUtils.ts:79 | every occurrence of the each pattern is found |
| Placeholders.EachShapeUnique | src/utils/documentUtils.ts:79 | a match has one shape: greedy runs and the first closer |
| Placeholders.EachBodyHasNoCloser | src/utils/documentUtils.ts:79 | the argument is a word and the lazy body never contains `{{/each}}` |
| Placeholders.ApplyEachPass | src/utils/documentUtils.ts:79-94 | the global replacement loop computes `EachPass` |
| Placeholders.EachPassNoBlock | src/utils/documentUtils.ts:79-94 | markup without `{{#each` is untouched by the each pass |
| Placeholders.EachPassSingleBlock | src/utils/documentUtils.ts:79-94 | a template that is one each block becomes that block's expansion |
| Placeholders.ProcessPreview | src/components/DocumentPreview.tsx:20-51 | the preview's `processTemplate` is the scalar pass followed by the each pass; the configuration page's copy (src/pages/admin/ConfigPage.tsx lines 162-192) is the same renderer |
| Placeholders.PreviewKeepsUnknownPlaceholders | src/components/DocumentPreview.tsx:24-48 | placeholders naming no string or number key are left literally, never blanked |
| Placeholders.TopLevelKeyShadowsItemKey | src/components/DocumentPreview.tsx:24-45 | for any top-level string or number `budget` and any list of rows, `{{#each rows}}{{budget}}{{/each}}` shows the top-level value once per row, whatever each row's own `budget` is |
| Placeholders.ExpandItemsNoBraces | src/components/DocumentPreview.tsx:38-45 | an each body without `{{` gives the same copy for every item |
| Placeholders.ScalarPassLoneTag | src/utils/documentUtils.ts:71-76 | markup that is just the placeholder of a brace-free key with a string or number value becomes that value, for any record and key order |
| Placeholders.PlaceholderOnlyInItself | src/utils/documentUtils.ts:71-76 | the placeholder of a brace-free key holds no other key's placeholder |
| Placeholders.ScalarValueCanFormPlaceholder | src/utils/documentUtils.ts:71-76 | a replacement can complete the braces around it into a new placeholder, so the scalar pass does not only rewrite placeholders that were in the markup |
| Placeholders.PreviewNoBracesUnchanged | src/components/DocumentPreview.tsx:20-51 | markup without `{{` is returned unchanged for any data |
| Helpers.MatchMultiplyAt | src/utils/documentUtils.ts:97 | a match is `{{multiply`, whitespace, a word, whitespace, a word, `}}` |
| Helpers.MatchMultiplyAtComplete | src/utils/documentUtils.ts:97 | every occurrence of the multiply pattern is found |
| Helpers.Product | src/utils/documentUtils.ts:99-100 | a missing operand makes the product 0 |
| Helpers.MultiplyPassNoHelper | src/utils/documentUtils.ts:97-102 | markup without `{{multiply` is untouched by the multiply pass |
| Helpers.MultiplySingleTag | src/utils/documentUtils.ts:97-102 | a lone tag becomes `toFixed(2)` of the product of the two top-level values |
| DocumentUtils.ApplyMultiplyPass | src/utils/documentUtils.ts:97-102 | the replacement loop computes `MultiplyPass` |
| DocumentUtils.SubtotalAppend | src/utils/documentUtils.ts:106-108 | the subtotal of concatenated item lists is the sum of their subtotals |
| DocumentUtils.SubtotalNonNegative | src/utils/documentUtils.ts:106-108 | non-negative quantities and prices give a non-negative subtotal |
| DocumentUtils.SubtotalIgnoresIncompleteLines | src/utils/documentUtils.ts:106-108 | lines without a quantity or a unit price contribute 0 |
| DocumentUtils.ComputeSubtotal | src/utils/documentUtils.ts:106-108 | the `reduce` loop computes `Subtotal` |
| DocumentUtils.InvoiceTotals | src/utils/documentUtils.ts:106-112 | without a `tax_rate` the tax is 0 and the total is the subtotal |
| DocumentUtils.ComputeTotals | src/utils/documentUtils.ts:106-112 | the statements compute `InvoiceTotals` |
| DocumentUtils.TotalIncludesTax | src/utils/documentUtils.ts:110-112 | total = subtotal × (1 + rate / 100) |
| DocumentUtils.TotalsPassNeedsLineItems | src/utils/documentUtils.ts:105 | without a `line_items` array the totals step changes nothing |
| DocumentUtils.TotalsPassWithoutTags | src/utils/documentUtils.ts:114-117 | markup without the three total tags is left unchanged |
| DocumentUtils.EmptyLineItemsTotalZero | src/utils/documentUtils.ts:105-117 | an empty `line_items` array fills `{{subtotal}}`, `{{tax_amount}}` and `{{total}}` with `toFixed(2)` of 0 |
| DocumentUtils.ProcessTemplate | src/utils/documentUtils.ts:67-120 | the export `processTemplate` computes `ExportRender` |
| DocumentUtils.ExportAgreesWithPreview | src/utils/documentUtils.ts:67-120 | without multiply tags and without `line_items` the export equals the preview |
| DocumentUtils.ExportNoBracesUnchanged | src/utils/documentUtils.ts:67-120 | markup without `{{` is exported unchanged |
| DocumentUtils.UserSubtotalWins | src/utils/documentUtils.ts:71-76 | for any record whose `subtotal` key holds a string or number whose text contains no `{{`, that value, not the computed subtotal, is the whole export of `{{subtotal}}` |
| DocumentUtils.UserTaxAndTotalWin | src/utils/documentUtils.ts:71-76 | the same for `tax_amount` and `total`: a string or number in the record whose text contains no `{{`, not the computed value, is the whole export of its tag |
| DocumentUtils.RecordValueFillsLoneTag | src/utils/documentUtils.ts:67-121 | the export of the lone placeholder of a brace-free key holding a string or number without `{{` is that value's text, for any record |
| ConfigPage.BuildSampleItem | src/pages/admin/ConfigPage.tsx:36-39 | the inner `reduce` computes `SampleItem` |
| ConfigPage.BuildSampleData | src/pages/admin/ConfigPage.tsx:33-45 | the outer `reduce` computes `SampleData` |
| ConfigPage.SamplePairs | src/pages/admin/ConfigPage.tsx:33-45 | one assignment per field, in field order, of its sample value |
| ConfigPage.SampleDataValue | src/pages/admin/ConfigPage.tsx:33-45 | a field id holds `Sample <label>`, or a one-item list for a repeater, from the last field with that id |
| ConfigPage.SampleRepeaterExpandsOnce | src/pages/admin/ConfigPage.tsx:33-45 | in the preview a repeater's each block expands exactly once, with the sub-field samples |
| ConfigPage.HandleSave | src/pages/admin/ConfigPage.tsx:61-90 | saves exactly when name, category and a field are present; otherwise the first failing check's message; for the route `new` the id is `Text.Slug(name)` (lower-cased, whitespace runs to `-`), and otherwise the route id |
| ConfigPage.AddField | src/pages/admin/ConfigPage.tsx:92-102 | one blank text field appended with the id `field_<length + 1>` |
| ConfigPage.UpdateField | src/pages/admin/ConfigPage.tsx:104-108 | only position `index` changes |
| ConfigPage.RemoveField | src/pages/admin/ConfigPage.tsx:110-112 | the field at `index` is gone and every other keeps its order (fields before it in place, fields after it one place earlier), the multiset loses exactly that field; an index past the end changes nothing |
| ConfigPage.AddAfterRemoveRepeatsId | src/pages/admin/ConfigPage.tsx:96 | add, add, remove the first, add gives two fields with id `field_2` |
| ConfigPage.AddRepeaterField | src/pages/admin/ConfigPage.tsx:114-131 | a blank sub-field appended to a repeater; a non-repeater is left alone |
| ConfigPage.UpdateRepeaterField | src/pages/admin/ConfigPage.tsx:133-147 | only that sub-field of that repeater changes |
| ConfigPage.RemoveRepeaterField | src/pages/admin/ConfigPage.tsx:149-159 | the repeater's sub-field at `fieldIndex` is dropped and the rest keep their order, the repeater's other attributes and every other field are unchanged; an index past the end or a field that is not a repeater changes nothing |
| ConfigPage.FirstSubFieldId | src/pages/admin/ConfigPage.tsx:123 | a repeater without a list or with an empty one gets `subfield_1` |
| TemplateEditor.AddSection | src/pages/admin/TemplateEditor.tsx:160-172 | one empty `New Section` appended and opened for editing |
| TemplateEditor.DeleteSection | src/pages/admin/TemplateEditor.tsx:174-184 | once confirmed, no section has the id, the others stay in order, and its editing mark is cleared |
| TemplateEditor.AddThenDeleteSection | src/pages/admin/TemplateEditor.tsx:160-184 | deleting the section just added restores the sections |
| TemplateEditor.AddField | src/pages/admin/TemplateEditor.tsx:186-207 | a `New Field` appended to the sections with the id, the others untouched, and both editing marks set |
| TemplateEditor.WithoutField | src/pages/admin/TemplateEditor.tsx:215 | no field with the id remains, the others stay in order |
| TemplateEditor.DeleteField | src/pages/admin/TemplateEditor.tsx:209-224 | once confirmed, only the named section's fields change, and the field's editing mark is cleared |
| TemplateEditor.AddThenDeleteField | src/pages/admin/TemplateEditor.tsx:186-224 | deleting the field just added restores the sections |
| TemplateEditor.Moved | src/pages/admin/TemplateEditor.tsx:228-238 | a swap with the neighbour, nothing at the ends, and the same multiset |
| TemplateEditor.MovedUpThenDown | src/pages/admin/TemplateEditor.tsx:228-238 | moving up then down restores the order |
| TemplateEditor.SectionIndex | src/pages/admin/TemplateEditor.tsx:227 | `findIndex` gives the first section with the id |
| TemplateEditor.FieldIndex | src/pages/admin/TemplateEditor.tsx:248 | `findIndex` gives the first field with the id |
| TemplateEditor.MoveSection | src/pages/admin/TemplateEditor.tsx:226-244 | the swap on an array copy computes `Moved` at the section's index |
| TemplateEditor.SectionIndexAfterMoveUp | src/pages/admin/TemplateEditor.tsx:226-244 | after moving up, the section is found one place earlier |
| TemplateEditor.MoveSectionUpThenDown | src/pages/admin/TemplateEditor.tsx:226-244 | moving a section up then down restores the sections |
| TemplateEditor.MovedField | src/pages/admin/TemplateEditor.tsx:246-272 | only the named section's fields are permuted |
| TemplateEditor.MoveField | src/pages/admin/TemplateEditor.tsx:246-272 | the swap on the copies computes `MovedField` |
| TemplateEditor.RenameSection | src/pages/admin/TemplateEditor.tsx:471-476 | every section with the id takes the title, and nothing else changes |
| TemplateEditor.ApplyEdit | src/pages/admin/TemplateEditor.tsx:548-653 | an edit sets the attribute it names to the new value (an options edit to the parsed text) and leaves every other attribute as it was |
| TemplateEditor.EditField | src/pages/admin/TemplateEditor.tsx:548-653 | only the one field at the two indices changes |
| TemplateEditor.OptionTexts | src/pages/admin/TemplateEditor.tsx:604 | one `value:label` text per option |
| TemplateEditor.ParseOption | src/pages/admin/TemplateEditor.tsx:610-615 | an empty label means an empty value (`label \|\| value \|\| ''`) |
| TemplateEditor.ParseOptions | src/pages/admin/TemplateEditor.tsx:606-616 | at most one option per comma-separated piece |
| TemplateEditor.ParseShowRoundTrip | src/pages/admin/TemplateEditor.tsx:604-616 | typing back the shown text gives the same options, for options without `,`, `:` or surrounding spaces |
| TemplateEditor.ParseEmptyText | src/pages/admin/TemplateEditor.tsx:606-609 | an empty box gives no options |
| TemplateEditor.ParseOptionTexts | src/pages/admin/TemplateEditor.tsx:609-616 | the option texts parse back to the options |
| TemplateEditor.ShowSplitsIntoPieces | src/pages/admin/TemplateEditor.tsx:604-607 | the shown text splits on `,` into the option texts |
| TemplateEditor.TrimSpacedTexts | src/pages/admin/TemplateEditor.tsx:608 | trimming the pieces gives the option texts |
| TemplateEditor.ParseOptionText | src/pages/admin/TemplateEditor.tsx:610-615 | one option's text parses back to it |
| TemplateEditor.JoinCommaSpace | src/pages/admin/TemplateEditor.tsx:604 | joining with `, ` is joining with `,` the pieces with a leading space |
| EditorPreview.EditorSampleValue | src/pages/admin/TemplateEditor.tsx:121-145 | the `switch`: text-like kinds give the placeholder or a non-empty default, a date gives today, a select its first option, a checkbox its default, anything else `''` |
| EditorPreview.BuildEditorSampleData | src/pages/admin/TemplateEditor.tsx:116-149 | the nested `forEach` computes `EditorSampleData` |
| EditorPreview.EditorSampleKeys | src/pages/admin/TemplateEditor.tsx:116-149 | the sample holds exactly the section ids, each with exactly its field ids |
| EditorPreview.EditorSampleLookup | src/pages/admin/TemplateEditor.tsx:116-149 | a field's sample is found under its section and field ids |
| EditorPreview.SectionPassKeepsUnknown | src/pages/admin/TemplateEditor.tsx:281-285 | a section whose placeholders do not occur changes nothing |
| EditorPreview.DottedPassKeepsUnknown | src/pages/admin/TemplateEditor.tsx:280-286 | unknown dotted placeholders stay literal |
| EditorPreview.DottedPassNoBraces | src/pages/admin/TemplateEditor.tsx:280-286 | content without `{{` is untouched by the dotted pass |
| EditorPreview.MatchIfAt | src/pages/admin/TemplateEditor.tsx:289 | a match is `{{#if `, a condition without `}`, `}}`, the body up to the first `{{/if}}` |
| EditorPreview.MatchIfAtComplete | src/pages/admin/TemplateEditor.tsx:289 | every occurrence of the conditional pattern is found |
| EditorPreview.CondValueDotted | src/pages/admin/TemplateEditor.tsx:291-292 | `section.field` reads that field of that section |
| EditorPreview.ApplyIfPass | src/pages/admin/TemplateEditor.tsx:289-294 | the replacement loop computes `IfPass` |
| EditorPreview.IfPassSingleBlock | src/pages/admin/TemplateEditor.tsx:289-294 | a lone block becomes its body exactly when the looked-up value is truthy, else `''` |
| EditorPreview.IfMissingSectionHides | src/pages/admin/TemplateEditor.tsx:292-293 | a condition on an unknown section hides the block |
| EditorPreview.IfOnSampleField | src/pages/admin/TemplateEditor.tsx:116-149 | on the sample data a text-like field always shows the block, a checkbox shows it when checked by default |
| EditorPreview.RenderPreview | src/pages/admin/TemplateEditor.tsx:275-297 | the two passes compute `EditorPreviewOf` |
| EditorPreview.EditorPreviewNoBraces | src/pages/admin/TemplateEditor.tsx:275-297 | content without `{{` is shown as it is |
| DocumentCreator.InitialWizard | src/pages/DocumentCreator.tsx:81-85 | the first section, no section valid, no preview |
| DocumentCreator.HandleInputChange | src/pages/DocumentCreator.tsx:105-113 | the field holds the value; every other field and section reads as before |
| DocumentCreator.FalseZeroNullAreFilled | src/pages/DocumentCreator.tsx:123 | `false`, 0 and `null` count as filled; missing, `''` and `[]` do not |
| DocumentCreator.ValidateSection | src/pages/DocumentCreator.tsx:115-135 | the loop with `break` returns whether every required field is filled, and that section's `isValid` entry is set to it |
| DocumentCreator.InputChangeKeepsOtherSections | src/pages/DocumentCreator.tsx:105-135 | typing in one section never changes another section's check |
| DocumentCreator.InputChangeCompletes | src/pages/DocumentCreator.tsx:105-135 | filling the last missing required field completes the section |
| DocumentCreator.HandleNext | src/pages/DocumentCreator.tsx:137-147 | a complete section advances, or opens the preview on the last; an incomplete one stays with the error |
| DocumentCreator.HandlePrevious | src/pages/DocumentCreator.tsx:149-155 | one step back, or leaving the form from the first step |
| DocumentCreator.PayScheduleText | src/pages/DocumentCreator.tsx:424-430 | `weekly`, `bi-weekly` or `monthly` for the three options, blanks for anything else |
| CreatorPage.InitialPairs | src/pages/CreatorPage.tsx:45-52 | one assignment per field: `[]` for a repeater, `''` otherwise |
| CreatorPage.BuildInitialData | src/pages/CreatorPage.tsx:45-52 | the `reduce` computes `InitialData` |
| CreatorPage.InitialDataKeys | src/pages/CreatorPage.tsx:45-52 | the keys are exactly the field ids |
| CreatorPage.InitialDataValue | src/pages/CreatorPage.tsx:45-52 | a repeater starts as `[]`, any other field as `''` |
| CreatorPage.InitialDataOnePerField | src/pages/CreatorPage.tsx:45-52 | with distinct ids, one entry per field in field order |
| CreatorPage.Load | src/pages/CreatorPage.tsx:30-59 | signed out goes to login; an unknown id to the dashboard; otherwise the template with that id, its category if any, and empty form data |
| CreatorPage.AfterLoad | src/pages/CreatorPage.tsx:40-54 | a load sets the template, category and form data and leaves the step alone |
| CreatorPage.Step | src/pages/CreatorPage.tsx:61-65 | Continue 0→1, Back 1→0, Edit 2→1, Submit stores the data and opens the preview at step 2; a control not on screen does nothing |
| CreatorPage.RunKeepsStepInRange | src/pages/CreatorPage.tsx:150-240 | the step stays within the three steps |
| CreatorPage.RunReachesPreviewOnlyBySubmit | src/pages/CreatorPage.tsx:61-65 | step 2 is only ever shown with the preview open |
| CreatorPage.MissingCategoryStaysLoading | src/pages/CreatorPage.tsx:94-103 | a template whose category is missing keeps the page loading whatever is clicked |
| CreatorPage.Indicators | src/pages/CreatorPage.tsx:115-132 | indicator `i` is lit exactly when `i <= currentStep`, so the lit ones form a prefix |
| CreatorPage.ConnectorJoinsReached | src/pages/CreatorPage.tsx:136-141 | a connector is filled exactly when the next indicator is lit |
| CategoryPage.AddCategory | src/pages/admin/CategoryPage.tsx:17-33 | a blank name or one taken ignoring case only sets the error; otherwise the category is appended with the slug of the untrimmed name, and the input and error are cleared |
| CategoryPage.AddKeepsNamesDistinct | src/pages/admin/CategoryPage.tsx:17-33 | adding keeps names distinct ignoring case |
| CategoryPage.PaddedNameAccepted | src/pages/admin/CategoryPage.tsx:24 | ` Legal` is accepted beside `Legal`: the duplicate check does not trim |
| CategoryPage.SlugsCollide | src/pages/admin/CategoryPage.tsx:29-30 | `A B` then `a-b` gives two categories with the id `a-b` |
| CategoryPage.DeleteCategory | src/pages/admin/CategoryPage.tsx:35-39 | once confirmed, no category with the id remains, the others keep their order, and nothing else changes |
| CategoryPage.AddThenDelete | src/pages/admin/CategoryPage.tsx:17-39 | deleting a category just added under a new id restores the list |
| CategoryPage.EditStart | src/pages/admin/CategoryPage.tsx:41-44 | the id and the name go into the edit box |
| CategoryPage.EditCancel | src/pages/admin/CategoryPage.tsx:46-49 | the edit box is cleared |
| CategoryPage.Rename | src/pages/admin/CategoryPage.tsx:64 | every category with the id takes the name; ids do not change |
| CategoryPage.EditSave | src/pages/admin/CategoryPage.tsx:51-68 | a blank name or one used by another id only sets the error; otherwise a rename and the edit ends |
| CategoryPage.EditSaveKeepsNamesDistinct | src/pages/admin/CategoryPage.tsx:51-68 | with unique ids, saving keeps names distinct ignoring case |
| CategoryPage.EditSaveWithSharedIdRepeatsName | src/pages/admin/CategoryPage.tsx:58-64 | two categories sharing an id both take the new name |
| CategoryPage.EditStartThenSave | src/pages/admin/CategoryPage.tsx:41-68 | opening a row and saving it untouched changes nothing |
| CategoryManager.JsMax | src/pages/admin/CategoryManager.tsx:47 | `Math.max` is `-Infinity` exactly when no argument is finite, and otherwise the largest argument |
| CategoryManager.NextIdAsWrittenRepeats | src/pages/admin/CategoryManager.tsx:47 | on an empty list the id is `-Infinity`, and creating again repeats it |
| CategoryManager.NextId | src/pages/admin/CategoryManager.tsx:47 | the intended id exceeds every id in use: one past the largest, 1 for none |
| CategoryManager.NextIdAgrees | src/pages/admin/CategoryManager.tsx:47 | on a non-empty list the code's id is the intended one |
| CategoryManager.SaveCategory | src/pages/admin/CategoryManager.tsx:26-38 | a blank name only shows the error; otherwise the category with the id takes the form's name and description and editing ends |
| CategoryManager.SaveKeepsIds | src/pages/admin/CategoryManager.tsx:26-38 | saving never changes ids |
| CategoryManager.CreateCategory | src/pages/admin/CategoryManager.tsx:40-57 | a blank name only shows the error; otherwise a category with a fresh id and count 0 is appended and the form closed. The id is the corrected `NextId` (1 for an empty list), not the source's `Math.max(...) + 1`; the two differ only on an empty list (see "## Findings") |
| CategoryManager.CreateKeepsIdsUnique | src/pages/admin/CategoryManager.tsx:40-57 | creating keeps ids distinct |
| CategoryManager.DeleteCategory | src/pages/admin/CategoryManager.tsx:59-64 | once confirmed, no category with the id remains and the others keep their order |
| CategoryManager.CreateThenDelete | src/pages/admin/CategoryManager.tsx:40-64 | deleting the category just created restores the list |
| CategoryManager.EditClick | src/pages/admin/CategoryManager.tsx:66-69 | the row's id, name and description go into the form |
| CategoryManager.CancelEdit | src/pages/admin/CategoryManager.tsx:71-74 | editing ends and the form is cleared |
| CategoryManager.CancelCreate | src/pages/admin/CategoryManager.tsx:76-79 | the create panel closes and the form is cleared |
| CategoryManager.EditClickThenSave | src/pages/admin/CategoryManager.tsx:26-69 | opening a row and saving it untouched changes nothing |
| TemplateManager.FilteredTemplates | src/pages/admin/TemplateManager.tsx:74-86 | exactly the templates matching search, category and status, in order |
| TemplateManager.NoFilterShowsAll | src/pages/admin/TemplateManager.tsx:74-86 | no search, no category and all statuses show every template |
| TemplateManager.DuplicateTemplate | src/pages/admin/TemplateManager.tsx:95-108 | an unknown id changes nothing; otherwise a ` (Copy)` draft dated today of the first template with that id, under an id above all others, is appended |
| TemplateManager.DuplicateKeepsIdsUnique | src/pages/admin/TemplateManager.tsx:95-108 | duplicating keeps ids distinct |
| TemplateManager.DeleteTemplate | src/pages/admin/TemplateManager.tsx:88-93 | once confirmed, no template with the id remains and the others keep their order |
| TemplateManager.DuplicateThenDelete | src/pages/admin/TemplateManager.tsx:88-108 | deleting the copy restores the list |
| UserManager.FilteredUsers | src/pages/admin/UserManager.tsx:77-89 | exactly the users matching search, role and status, in order |
| UserManager.NoFilterShowsAll | src/pages/admin/UserManager.tsx:77-89 | no search and both filters on `all` show every user |
| UserManager.Toggled | src/pages/admin/UserManager.tsx:101 | `inactive` exactly for an `active` user, `active` otherwise |
| UserManager.ToggleStatus | src/pages/admin/UserManager.tsx:99-103 | only the users with the id change, and only their status |
| UserManager.FindFirstUser | src/pages/admin/UserManager.tsx:105-106 | `find` sees the first user with the id |
| UserManager.ToggleToast | src/pages/admin/UserManager.tsx:105-107 | the toast says deactivated exactly when the first user with the id was active |
| UserManager.ToggleTwice | src/pages/admin/UserManager.tsx:98-108 | toggling twice restores users that are `active` or `inactive` |
| UserManager.ToggleTwiceLosesOtherStatus | src/pages/admin/UserManager.tsx:101 | a `pending` user toggled twice ends `inactive` |
| UserManager.ChangeRole | src/pages/admin/UserManager.tsx:110-113 | only the users with the id change, and only their role |
| UserManager.ChangeRoleLastWins | src/pages/admin/UserManager.tsx:110-113 | the second of two role changes wins; re-setting a role changes nothing |
| UserManager.DeleteUser | src/pages/admin/UserManager.tsx:91-96 | once confirmed, no user with the id remains and the others keep their order |
| UserManager.SendInvite | src/pages/admin/UserManager.tsx:118-129 | an address the pattern rejects keeps the form and shows the error; otherwise the invite toast and a reset form |
| Login.ValidationErrors | src/pages/auth/Login.tsx:24-39 | `Email is required` for an empty address, `Email is invalid` when the pattern fails, `Password is required` for an empty password |
| Login.ValidateIffWellFormed | src/pages/auth/Login.tsx:37-38 | the form passes exactly when the address has the shape and a password is given |
| Login.ErrorsIndependent | src/pages/auth/Login.tsx:27-35 | the password message does not depend on the address, nor the address message on the password |
| Login.RedirectTarget | src/pages/auth/Login.tsx:22 | `from`, or `/` when it is absent or empty |
| Login.HandleSubmit | src/pages/auth/Login.tsx:41-53 | a failing form shows its errors and makes no sign-in call; a successful sign-in goes to the target |
| DocumentDashboard.DayNumber | src/pages/DocumentDashboard.tsx:144 | a string shorter than a date has day number 0 |
| DocumentDashboard.LaterDayLater | src/pages/DocumentDashboard.tsx:144 | a later day of the same month has a larger day number |
| DocumentDashboard.DigitsValueOrdered | src/pages/DocumentDashboard.tsx:144 | of two digit strings of one length, the one first in string order spells the smaller number |
| DocumentDashboard.EarlierDateSmaller | src/pages/DocumentDashboard.tsx:144 | of two well-formed `YYYY-MM-DD` dates, the one first in string order has the smaller day number, as it has the earlier time |
| DocumentDashboard.SortNewestFirst | src/pages/DocumentDashboard.tsx:143-145 | the in-place sort leaves the array newest first and a permutation of what it was |
| DocumentDashboard.SortByKeyDown | src/pages/DocumentDashboard.tsx:143-145 | an insertion sort by descending key yields a sorted permutation |
| DocumentDashboard.InsertByKeyDown | src/pages/DocumentDashboard.tsx:143-145 | one insertion extends the sorted prefix by one and permutes the array |
| DocumentDashboard.Prefiltered | src/pages/DocumentDashboard.tsx:124-137 | exactly the templates matching the search and the set category, in order; neither filter runs when unset |
| DocumentDashboard.FilterTemplates | src/pages/DocumentDashboard.tsx:123-149 | `all` is the prefiltered list, `popular` its popular ones, `recent` its newest five newest first |
| DocumentDashboard.NewestFive | src/pages/DocumentDashboard.tsx:143-145 | sort then `slice(0, 5)`: five or fewer, newest first, none left out newer than one kept |
| DocumentDashboard.TopOfSorted | src/pages/DocumentDashboard.tsx:145 | a prefix of a newest-first list is newest first and no older than what is cut off |
| DocumentDashboard.CategoryUrl | src/pages/DocumentDashboard.tsx:151-160 | a set, non-zero category goes in the query string; otherwise `/documents` |
| DocumentDashboard.CreateDocumentRoute | src/pages/DocumentDashboard.tsx:162-169 | signed in goes to the create route; otherwise to `/login` carrying that route as `from` |
| DashboardPage.FilteredTemplates | src/pages/DashboardPage.tsx:16-21 | exactly the templates whose name or description contains the term ignoring case and that are in the category when one is set, in order |
| DashboardPage.NoFilterShowsAll | src/pages/DashboardPage.tsx:16-21 | an empty search and no category, `null` or `''`, show every template |
| DashboardPage.EmptyCategoryIsNoCategory | src/pages/DashboardPage.tsx:19 | the category `''` filters the same as none |
| DashboardPage.SearchIgnoresCase | src/pages/DashboardPage.tsx:17-18 | a lower-cased term selects the same templates |
| DashboardPage.CardLinkFor | src/pages/DashboardPage.tsx:160-165 | signed in: `/creator/<id>` and `Use Template`; otherwise `/auth/login` and `Sign In to Use` |
| TemplatePage.SelectCategory | src/pages/admin/TemplatePage.tsx:58 | `value \|\| null`: the empty option clears the category, any other value selects it |
| TemplatePage.SelectCategoryRoundTrip | src/pages/admin/TemplatePage.tsx:57-58 | choosing the value the drop-down shows selects the same category |
| TemplatePage.FilteredTemplates | src/pages/admin/TemplatePage.tsx:11-15 | exactly the templates whose name contains the term ignoring case and that are in the category when one is set, in order |
| TemplatePage.AllCategoriesShowsAll | src/pages/admin/TemplatePage.tsx:11-15 | `All Categories` with an empty search lists every template |
| TemplatePage.DescriptionNotSearched | src/pages/admin/TemplatePage.tsx:12 | the description never affects the filter |
| TemplatePage.DescriptionOnlyMatchDropped | src/pages/admin/TemplatePage.tsx:12 | a term found only in the description drops the template |
| TemplatePage.FieldCount | src/pages/admin/TemplatePage.tsx:105 | the number of top-level fields |
| TemplatePage.RepeaterCountsOnce | src/pages/admin/TemplatePage.tsx:105 | changing a repeater's sub-fields does not change the count |

## Left out

- `generatePDF` and `generateWord` (src/utils/documentUtils.ts:5-64) are not modelled. They call jsPDF and html-to-docx and trigger browser downloads.
- Floating point is not modelled. Numbers are `real`, and `String(n)`, `toFixed(2)` and `parseFloat` are supplied as the `NumberFormat` parameter, so rounding is not stated.
- Regular-expression replacement is modelled only for word keys and `$`-free values. Keys are taken as words and values are inserted literally. The source's `new RegExp('{{' + key + '}}')` would treat regex metacharacters in a key specially, and `replace` would expand `$&` or `$1` in a value.
- `JsObject.Get` and `JsObject.Put`: model a record as its own keys in insertion order. JavaScript lists integer-like keys such as `12` first in ascending order, and `data[key]` also finds inherited names such as `constructor` or `toString`, so `{{#if s.constructor}}` is truthy and `validateSection` counts such a field id as filled. Such keys are not modelled, and a key such as `12` would also read as a regex quantifier in the placeholder pattern.
- `Placeholders.TopLevelKeyShadowsItemKey`: fixes the record to the `budget` key and the `rows` list. Other top-level keys are left out because a value can complete braces into a new placeholder (`Placeholders.ScalarValueCanFormPlaceholder`), so no all-records form holds without conditions on every value.
- `toLowerCase` is modelled on ASCII letters only. Non-ASCII case mapping is not.
- Clock readings are parameters: `Date.now()` in the editor's ids, today's date in the editor's sample data and in the duplicate handler.
- Confirmation dialogs are the `confirmed` parameter, and the sign-in network call is the `loginSucceeds` parameter. `alert`, `navigate`, `setTimeout` and console logging are not modelled, except where a navigation target or a toast text is the handler's outcome.
- `TemplateEditor.MoveSection`, `TemplateEditor.MoveField`: require an id that is present. The buttons only pass rendered ids, and with an unknown id the source's `findIndex` gives -1 and swaps `undefined` into the array.
- `TemplateEditor.EditField`: is modelled on values. The source writes through the nested field objects it shares with the previous state (lines 550-650), and that aliasing is not modelled.
- `ConfigPage.SampleValue`: requires a repeater to have a sub-field list, because the source reads `field.fields.reduce` unchecked and would throw.
- `ConfigPage.UpdateRepeaterField`: requires a sub-field list and an index inside it. The source spreads `currentField.fields` unchecked, and an index past the end would make a sparse array.
- `ConfigPage.RemoveRepeaterField`: requires a repeater to have a sub-field list. The source calls `currentField.fields.filter` unchecked and would throw on a repeater without one.
- The template lookup effect of src/pages/admin/ConfigPage.tsx:22-59 is not modelled beyond its sample data. It only copies the template into the form's state.
- The DocumentCreator template lookup by `parseInt(templateId)` and its not-found page are not modelled (src/pages/DocumentCreator.tsx:78-103). The page is modelled from a given section list.
- `DocumentDashboard.DayNumber`: stands in for `new Date(s).getTime()`. It reads an ISO date `YYYY-MM-DD` as the number `YYYYMMDD`, which orders well-formed dates the same way (`DocumentDashboard.EarlierDateSmaller`). Malformed dates, which give `NaN` in the source, are not modelled.
- `DocumentDashboard.SortNewestFirst`: does not state that the sort is stable. The insertion sort is stable, and so is JavaScript's, but no contract says so.
- `DocumentDashboard.NewestFive`: inherits that gap. When dates tie across fifth place, the source keeps the earlier templates, but the contract leaves open which of the tied ones are kept.
- The `category` query parameter of src/pages/DocumentDashboard.tsx:111-114 is taken as already parsed. `parseInt` of a non-number (`NaN`) is not modelled.
- The delete and duplicate handlers of src/pages/admin/TemplatePage.tsx:18-28 are not modelled. They only log to the console, confirmed or not, and leave the list as it was.
- src/context/AuthContext.tsx and src/lib/supabase.ts are not part of this model: authentication and persistence are network calls. Their results enter as `isAuthenticated`, `signedIn` and `loginSucceeds`.
- src/components/DocumentForm.tsx is not part of this model. It wraps a form library, which enforces required fields itself.
- Presentation, routing and layout are not modelled. This covers the home, profile, recovery and not-found pages, the layouts, the header and the UI components, and the hard-coded contract preview of DocumentCreator, except its pay-schedule wording.

## Findings

| source | as written | input that shows it | evidently intended | confidence | as-written member | corrected member |
|---|---|---|---|---|---|---|
| src/pages/admin/CategoryManager.tsx:47 | `Math.max(...categories.map(c => c.id)) + 1` is `-Infinity` when the list is empty | an empty category list, then two creations: both get the id `-Infinity`. The page alone cannot empty the list: the six seeded categories have counts above 0 (lines 10-17), their delete button is disabled for a non-zero count (line 229) and no handler changes a count; the list is empty only with other seed data or when the handler is called directly | a fresh id above every id in use, 1 for an empty list | not executed | CategoryManager.NextIdAsWrittenRepeats | CategoryManager.CreateKeepsIdsUnique |
