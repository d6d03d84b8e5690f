/** The step-by-step document form of src/pages/DocumentCreator.tsx: the
    form data kept per section, the required-field check of a section, and
    the Next and Previous buttons. */
module DocumentCreator {
  import opened Wrappers
  import opened JsObject
  import opened Values
  import opened Schema

  /** The form data: a record of field values per section id. */
  type FormData = Obj<Record>

  /** The wizard's state: the section shown, which sections last passed the
      check, and whether the preview is open. */
  datatype Wizard = Wizard(currentStep: nat, isValid: seq<bool>, showPreview: bool)

  /** The state after the page loads: the first section, no section checked
      yet (`sections.map(() => false)`), no preview. */
  function InitialWizard(sections: seq<Section>): (w: Wizard)
    ensures w.currentStep == 0 && !w.showPreview
    ensures |w.isValid| == |sections| && forall k :: 0 <= k < |sections| ==> !w.isValid[k]
  {
    Wizard(0, seq(|sections|, _ => false), false)
  }

  /** `formData[section.id] || {}`. */
  function SectionData(formData: FormData, sectionId: string): Record {
    Get(formData, sectionId).GetOr([])
  }

  /** `handleInputChange`: `{...prev, [sectionId]: {...prev[sectionId], [fieldId]: value}}`. */
  function HandleInputChange(formData: FormData, sectionId: string, fieldId: string, value: Value): (r: FormData)
    ensures Get(SectionData(r, sectionId), fieldId) == Some(value)
    ensures forall f :: f != fieldId ==> Get(SectionData(r, sectionId), f) == Get(SectionData(formData, sectionId), f)
    ensures forall s :: s != sectionId ==> Get(r, s) == Get(formData, s)
  {
    Put(formData, sectionId, Put(SectionData(formData, sectionId), fieldId, value))
  }

  /** A required field counts as filled unless its value is `undefined`, `''`
      or an empty array; `false`, `0` and `null` all count as filled. */
  predicate Filled(v: Option<Value>) {
    v.Some? && v.value != Str("") && v.value != List([])
  }

  lemma FalseZeroNullAreFilled()
    ensures Filled(Some(Bool(false))) && Filled(Some(Num(0.0))) && Filled(Some(Null))
    ensures !Filled(None) && !Filled(Some(Str(""))) && !Filled(Some(List([])))
  {
  }

  /** The condition `validateSection` checks: every required field of the
      section is filled; fields that are not required are not looked at. */
  predicate SectionComplete(section: Section, formData: FormData) {
    forall k :: 0 <= k < |section.fields| && section.fields[k].required ==>
      Filled(Get(SectionData(formData, section.id), section.fields[k].id))
  }

  /** `validateSection`: a loop over the fields that stops at the first
      required one left empty, then the section's entry of a copy of
      `isValid` set to the outcome. */
  method ValidateSection(sections: seq<Section>, sectionIndex: nat, formData: FormData, isValid: seq<bool>)
    returns (sectionValid: bool, newIsValid: seq<bool>)
    requires sectionIndex < |sections| && sectionIndex < |isValid|
    ensures sectionValid == SectionComplete(sections[sectionIndex], formData)
    ensures newIsValid == isValid[sectionIndex := sectionValid]
  {
    var section := sections[sectionIndex];
    var sectionData := SectionData(formData, section.id);
    sectionValid := true;
    var i := 0;
    while i < |section.fields|
      invariant 0 <= i <= |section.fields|
      invariant sectionValid ==> forall k :: 0 <= k < i && section.fields[k].required ==> Filled(Get(sectionData, section.fields[k].id))
      invariant !sectionValid ==> !SectionComplete(section, formData)
    {
      var field := section.fields[i];
      if field.required {
        var value := Get(sectionData, field.id);
        if value.None? || value.value == Str("") || value.value == List([]) {
          sectionValid := false;
          break;
        }
      }
      i := i + 1;
    }
    newIsValid := isValid[sectionIndex := sectionValid];
  }

  /** A change in one section's data leaves the check of every other section
      as it was. */
  lemma InputChangeKeepsOtherSections(section: Section, formData: FormData, sectionId: string, fieldId: string, value: Value)
    requires section.id != sectionId
    ensures SectionComplete(section, HandleInputChange(formData, sectionId, fieldId, value)) == SectionComplete(section, formData)
  {
    assert SectionData(HandleInputChange(formData, sectionId, fieldId, value), section.id) == SectionData(formData, section.id);
  }

  /** Filling the one field that was missing completes the section. */
  lemma InputChangeCompletes(section: Section, formData: FormData, fieldId: string, value: Value)
    requires forall k :: 0 <= k < |section.fields| && section.fields[k].required && section.fields[k].id != fieldId ==>
      Filled(Get(SectionData(formData, section.id), section.fields[k].id))
    requires Filled(Some(value))
    ensures SectionComplete(section, HandleInputChange(formData, section.id, fieldId, value))
  {
  }

  /** The outcome of Next: whether the error toast is shown. */
  datatype NextOutcome = NextOutcome(wizard: Wizard, showsError: bool)

  /** `handleNext`: the current section is checked and its `isValid` entry
      updated; a complete section moves on to the next one, or opens the
      preview on the last; an incomplete one stays with an error. */
  method HandleNext(sections: seq<Section>, formData: FormData, w: Wizard) returns (r: NextOutcome)
    requires w.currentStep < |sections| && |w.isValid| == |sections|
    ensures r.wizard.currentStep < |sections| && |r.wizard.isValid| == |sections|
    ensures var complete := SectionComplete(sections[w.currentStep], formData);
      && r.wizard.isValid == w.isValid[w.currentStep := complete]
      && r.showsError == !complete
      && (!complete ==> r.wizard.currentStep == w.currentStep && r.wizard.showPreview == w.showPreview)
      && (complete && w.currentStep < |sections| - 1 ==> r.wizard.currentStep == w.currentStep + 1 && r.wizard.showPreview == w.showPreview)
      && (complete && w.currentStep == |sections| - 1 ==> r.wizard.currentStep == w.currentStep && r.wizard.showPreview)
  {
    var valid, newIsValid := ValidateSection(sections, w.currentStep, formData, w.isValid);
    if valid {
      if w.currentStep < |sections| - 1 {
        r := NextOutcome(Wizard(w.currentStep + 1, newIsValid, w.showPreview), false);
      } else {
        r := NextOutcome(Wizard(w.currentStep, newIsValid, true), false);
      }
    } else {
      r := NextOutcome(Wizard(w.currentStep, newIsValid, w.showPreview), true);
    }
  }

  /** The outcome of Previous: whether the page navigates back to the
      document list. */
  datatype PreviousOutcome = PreviousOutcome(wizard: Wizard, leaves: bool)

  /** `handlePrevious`: one section back, or away from the form on the first. */
  function HandlePrevious(w: Wizard): (r: PreviousOutcome)
    ensures r.leaves <==> w.currentStep == 0
    ensures r.wizard.currentStep == (if w.currentStep > 0 then w.currentStep - 1 else 0)
    ensures r.wizard.isValid == w.isValid && r.wizard.showPreview == w.showPreview
  {
    if w.currentStep > 0 then PreviousOutcome(w.(currentStep := w.currentStep - 1), false)
    else PreviousOutcome(w, true)
  }

  /** The pay schedule as the contract preview prints it. */
  function PayScheduleText(paySchedule: Option<Value>): (t: string)
    ensures t != "_________" <==> paySchedule in {Some(Str("weekly")), Some(Str("biweekly")), Some(Str("monthly"))}
    ensures paySchedule == Some(Str("biweekly")) ==> t == "bi-weekly"
    ensures paySchedule == Some(Str("weekly")) || paySchedule == Some(Str("monthly")) ==> t == paySchedule.value.s
  {
    if paySchedule == Some(Str("weekly")) then "weekly"
    else if paySchedule == Some(Str("biweekly")) then "bi-weekly"
    else if paySchedule == Some(Str("monthly")) then "monthly"
    else "_________"
  }
}
