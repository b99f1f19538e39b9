/** The second step, financial details: three required selects and two
    numeric fields whose custom rules run their checks in a fixed order. */
module FinancialInfo {
  import opened Wrappers
  import opened FieldRules
  import opened FormSlice

  /** `Number.isInteger`. */
  predicate IsInteger(x: real) {
    x.Floor as real == x
  }

  /** The dependents rule: missing, then negative, then more than twenty,
      then fractional. */
  function ValidateDependents(v: Option<real>): (r: Check)
    ensures r.Pass? <==> v.Some? && 0.0 <= v.value <= 20.0 && IsInteger(v.value)
    ensures r == Fail(Required) <==> v.None?
    ensures r == Fail(BelowMin(0)) <==> v.Some? && v.value < 0.0
    ensures r == Fail(AboveMax(20)) <==> v.Some? && v.value > 20.0
    ensures r == Fail(NotInteger) <==> v.Some? && 0.0 <= v.value <= 20.0 && !IsInteger(v.value)
  {
    match v
    case None => Fail(Required)
    case Some(x) =>
      if x < 0.0 then Fail(BelowMin(0))
      else if x > 20.0 then Fail(AboveMax(20))
      else if !IsInteger(x) then Fail(NotInteger)
      else Pass
  }

  const MaxMonthlyIncome: real := 10000000.0

  /** The monthly-income rule: missing, then negative, then above ten
      million; fractions are allowed. */
  function ValidateMonthlyIncome(v: Option<real>): (r: Check)
    ensures r.Pass? <==> v.Some? && 0.0 <= v.value <= MaxMonthlyIncome
    ensures r == Fail(Required) <==> v.None?
    ensures r == Fail(BelowMin(0)) <==> v.Some? && v.value < 0.0
    ensures r == Fail(AboveMax(10000000)) <==> v.Some? && v.value > MaxMonthlyIncome
  {
    match v
    case None => Fail(Required)
    case Some(x) =>
      if x < 0.0 then Fail(BelowMin(0))
      else if x > MaxMonthlyIncome then Fail(AboveMax(10000000))
      else Pass
  }

  /** The step's answers; an unselected option is the empty string and an
      empty number box is `None`. */
  datatype FinancialForm = FinancialForm(
    maritalStatus: string, dependents: Option<real>, employmentStatus: string,
    monthlyIncome: Option<real>, housingStatus: string)

  const Fields: set<string> := {
    "maritalStatus", "dependents", "employmentStatus", "monthlyIncome", "housingStatus"
  }

  function CheckField(f: FinancialForm, field: string): Check {
    if field == "maritalStatus" then CheckRequired(f.maritalStatus)
    else if field == "dependents" then ValidateDependents(f.dependents)
    else if field == "employmentStatus" then CheckRequired(f.employmentStatus)
    else if field == "monthlyIncome" then ValidateMonthlyIncome(f.monthlyIncome)
    else if field == "housingStatus" then CheckRequired(f.housingStatus)
    else Pass
  }

  /** Every field of the step passes its rules. */
  predicate Valid(f: FinancialForm) {
    && CheckRequired(f.maritalStatus).Pass? && ValidateDependents(f.dependents).Pass?
    && CheckRequired(f.employmentStatus).Pass? && ValidateMonthlyIncome(f.monthlyIncome).Pass?
    && CheckRequired(f.housingStatus).Pass?
  }

  function Errors(f: FinancialForm): (e: map<string, Violation>)
    ensures e.Keys <= Fields
    ensures forall n :: n in Fields ==> (n in e <==> CheckField(f, n).Fail?)
    ensures forall n :: n in e ==> e[n] == CheckField(f, n).violation
    ensures e == map[] <==> Valid(f)
  {
    map n | n in Fields && CheckField(f, n).Fail? :: CheckField(f, n).violation
  }

  function NumberValue(v: Option<real>): Value {
    match v
    case Some(x) => Num(x)
    case None => Null
  }

  function ToRecord(f: FinancialForm): (r: Record)
    ensures r.Keys == Fields
    ensures r["maritalStatus"] == Str(f.maritalStatus) && r["employmentStatus"] == Str(f.employmentStatus)
    ensures r["housingStatus"] == Str(f.housingStatus)
    ensures r["dependents"] == (if f.dependents.Some? then Num(f.dependents.value) else Null)
    ensures r["monthlyIncome"] == (if f.monthlyIncome.Some? then Num(f.monthlyIncome.value) else Null)
  {
    map[
      "maritalStatus" := Str(f.maritalStatus), "dependents" := NumberValue(f.dependents),
      "employmentStatus" := Str(f.employmentStatus), "monthlyIncome" := NumberValue(f.monthlyIncome),
      "housingStatus" := Str(f.housingStatus)
    ]
  }

  /** `handleSubmit(onSubmit)`: merge and go to step 2, or nothing. */
  function OnSubmit(f: FinancialForm): (acts: seq<Action>)
    ensures acts == [] <==> !Valid(f)
    ensures acts != [] ==> acts == [UpdateFormData(ToRecord(f)), SetStep(2)]
  {
    if Valid(f) then [UpdateFormData(ToRecord(f)), SetStep(2)] else []
  }

  /** `handlePrevious`: back to step 0. */
  function OnPrevious(): seq<Action> {
    [SetStep(0)]
  }

  /** An accepted submit merges the answers and lands on step 2; a refused
      one changes nothing; going back keeps every answer. */
  lemma StepTransitions(s: FormState, f: FinancialForm)
    ensures !Valid(f) ==> ReduceAll(s, OnSubmit(f)) == s
    ensures Valid(f) ==>
      ReduceAll(s, OnSubmit(f)) == FormState(2, Merge(s.formData, ToRecord(f)), s.isSubmitted)
    ensures ReduceAll(s, OnPrevious()) == FormState(0, s.formData, s.isSubmitted)
  {
    if Valid(f) {
      ReduceAllPair(s, UpdateFormData(ToRecord(f)), SetStep(2));
    }
    ReduceAllSingle(s, SetStep(0));
  }

  /** The bounds are inclusive, and a fractional count above twenty reports
      "too many", not "not an integer". */
  lemma NumericBoundaries()
    ensures ValidateDependents(Some(0.0)).Pass? && ValidateDependents(Some(20.0)).Pass?
    ensures ValidateDependents(Some(20.5)) == Fail(AboveMax(20))
    ensures ValidateDependents(Some(2.5)) == Fail(NotInteger)
    ensures ValidateMonthlyIncome(Some(0.0)).Pass? && ValidateMonthlyIncome(Some(MaxMonthlyIncome)).Pass?
  {
  }
}
