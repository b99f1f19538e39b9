/** The last step, free-text narratives: their rules, the assistant dialog
    writing into the step's form values, going back, and the submission
    lifecycle through the provider.  The submission endpoint is an input: its
    success or failure for the record sent. */
module AdditionalInfo {
  import opened Wrappers
  import opened JsText
  import opened FieldRules
  import opened FormSlice
  import opened FormContext
  import opened AssistDialog

  const Fields: set<string> := {"currentFinancialSituation", "employmentCircumstances", "reasonForApplying"}

  /** The rule shared by the three narrative fields. */
  function ValidateNarrative(v: string): (r: Check)
    ensures r.Pass? <==> 50 <= JsLength(v) <= 1000 && MatchesClass(Narrative, v)
    ensures r.Fail? ==> r.violation in {Required, TooShort(50), TooLong(1000), PatternMismatch}
  {
    CheckText(LengthRule(50, 1000), MatchesClass(Narrative, v), v)
  }

  /** All three narratives pass their rule. */
  predicate Valid(values: Values) {
    && ValidateNarrative(ValueOf(values, "currentFinancialSituation")).Pass?
    && ValidateNarrative(ValueOf(values, "employmentCircumstances")).Pass?
    && ValidateNarrative(ValueOf(values, "reasonForApplying")).Pass?
  }

  function Errors(values: Values): (e: map<string, Violation>)
    ensures e.Keys <= Fields
    ensures forall n :: n in Fields ==> (n in e <==> ValidateNarrative(ValueOf(values, n)).Fail?)
    ensures forall n :: n in e ==> e[n] == ValidateNarrative(ValueOf(values, n)).violation
    ensures e == map[] <==> Valid(values)
  {
    map n | n in Fields && ValidateNarrative(ValueOf(values, n)).Fail? :: ValidateNarrative(ValueOf(values, n)).violation
  }

  /** The step's answers as the partial record that is merged. */
  function ToRecord(values: Values): (r: Record)
    ensures r.Keys == Fields
    ensures forall n :: n in Fields ==> r[n] == Str(ValueOf(values, n))
  {
    map n | n in Fields :: Str(ValueOf(values, n))
  }

  /** What a press of "submit" leads to: the provider afterwards, and the
      record sent to the endpoint, if any. */
  datatype Submission = Submission(provider: Provider, sent: Option<Record>)

  /** `handleSubmit(onSubmit)`.  With a failing field nothing happens.
      Otherwise the answers are merged (and the render that follows saves
      them) and `{ ...formData, ...data }` is sent; on success the session
      is marked submitted and the store cleared, on failure nothing more
      changes. */
  function OnSubmit(p: Provider, values: Values, accepted: bool): (r: Submission)
    ensures !Valid(values) ==> r == Submission(p, None)
    ensures Valid(values) ==> r.sent == Some(Merge(p.form.formData, ToRecord(values)))
    ensures Valid(values) ==> r.provider.form.currentStep == p.form.currentStep
    ensures Valid(values) ==> r.provider.form.formData == Merge(p.form.formData, ToRecord(values))
    ensures Valid(values) ==> r.provider.form.isSubmitted == (accepted || p.form.isSubmitted)
    ensures Valid(values) && accepted ==> r.provider.store.entry.None?
  {
    if !Valid(values) then Submission(p, None)
    else
      var data := ToRecord(values);
      var sent := Merge(p.form.formData, data);
      ReduceAllSingle(p.form, UpdateFormData(data));
      var p1 := Dispatch(p, [UpdateFormData(data)]);
      if accepted then
        var p2 := p1.(form := Reduce(p1.form, SetSubmitted(true)), store := Clear(p1.store));
        Submission(Render(p2, p1.form), Some(sent))
      else Submission(p1, Some(sent))
  }

  /** `handlePrevious`: back to step 1. */
  function OnPrevious(): seq<Action> {
    [SetStep(1)]
  }

  /** Going back lands on step 1 and keeps every answer and the flag. */
  lemma PreviousKeepsAnswers(s: FormState)
    ensures ReduceAll(s, OnPrevious()) == FormState(1, s.formData, s.isSubmitted)
  {
    ReduceAllSingle(s, SetStep(1));
  }

  /** Something is sent exactly when the answers pass, and what is sent is
      exactly the record the session holds afterwards. */
  lemma SentIsHeld(p: Provider, values: Values, accepted: bool)
    ensures OnSubmit(p, values, accepted).sent.Some? <==> Valid(values)
    ensures Valid(values) ==>
      OnSubmit(p, values, accepted).sent == Some(OnSubmit(p, values, accepted).provider.form.formData)
  {
  }

  /** Submitting keeps the store mirroring the session, whatever the
      endpoint answers; after a success a reload starts over. */
  lemma SubmitMirrors(p: Provider, values: Values, accepted: bool)
    requires !p.initialMount && Mirrors(p)
    ensures Mirrors(OnSubmit(p, values, accepted).provider)
    ensures Valid(values) && accepted ==>
      Start(InitialState, OnSubmit(p, values, accepted).provider.store).form == InitialState
  {
    if Valid(values) {
      DispatchMirrors(p, [UpdateFormData(ToRecord(values))]);
    }
  }

  /** A failed submission leaves the session on its step with the answers
      merged and unsubmitted, and the store holding them. */
  lemma FailedSubmitRetains(p: Provider, values: Values)
    requires !p.initialMount && Mirrors(p) && !p.form.isSubmitted && p.store.writable
    ensures var q := OnSubmit(p, values, false).provider;
      Valid(values) ==>
      && q.form == FormState(p.form.currentStep, Merge(p.form.formData, ToRecord(values)), false)
      && q.store.entry == Some(Saved(SnapshotOf(q.form)))
  {
    if Valid(values) {
      DispatchMirrors(p, [UpdateFormData(ToRecord(values))]);
    }
  }

  /** Confirming the dialog on one of the step's fields sets that field to
      the prompt; the other answers are untouched. */
  lemma ConfirmFillsField(d: Dialog, values: Values, n: string)
    requires d.field in Fields && !IsBlank(d.prompt) && n in Fields
    ensures ValueOf(Confirm(d, values).values, n) == if n == d.field then d.prompt else ValueOf(values, n)
  {
  }
}
