/** The first step, personal details: one validator per field, and the
    submit handler that merges the step's answers and moves to step 1. */
module PersonalInfo {
  import opened Wrappers
  import opened JsText
  import opened FieldRules
  import opened FormSlice

  /** A calendar day. */
  datatype Ymd = Ymd(year: int, month: int, day: int)

  /** `a` is the same day as `b` or an earlier one. */
  predicate OnOrBefore(a: Ymd, b: Ymd) {
    a.year < b.year
    || (a.year == b.year && (a.month < b.month || (a.month == b.month && a.day <= b.day)))
  }

  /** The day `years` years after `birth`, on the same month and day. */
  function Anniversary(birth: Ymd, years: int): Ymd {
    Ymd(birth.year + years, birth.month, birth.day)
  }

  /** Completed years from `birth` to `today`: the last anniversary reached. */
  function AgeInYears(birth: Ymd, today: Ymd): (age: int)
    ensures OnOrBefore(Anniversary(birth, age), today)
    ensures !OnOrBefore(Anniversary(birth, age + 1), today)
    ensures OnOrBefore(birth, today) ==> age >= 0
  {
    var beforeBirthday := today.month < birth.month || (today.month == birth.month && today.day < birth.day);
    today.year - birth.year - (if beforeBirthday then 1 else 0)
  }

  /** What the step needs from outside: today's date, the date parser
      (`None` when the text is not a valid date), and the phone and e-mail
      regular expressions, which are not interpreted here. */
  datatype Env = Env(
    today: Ymd,
    parseDate: string -> Option<Ymd>,
    phonePattern: string -> bool,
    emailPattern: string -> bool)

  function ValidateName(v: string): (r: Check)
    ensures r.Pass? <==> v != "" && 2 <= JsLength(v) <= 100 && MatchesClass(PersonName, v)
    ensures r.Fail? ==> r.violation in {Required, TooShort(2), TooLong(100), PatternMismatch}
  {
    CheckText(LengthRule(2, 100), MatchesClass(PersonName, v), v)
  }

  function ValidateNationalId(v: string): (r: Check)
    ensures r.Pass? <==> 5 <= JsLength(v) <= 20 && MatchesClass(NationalId, v)
    ensures r.Fail? ==> r.violation in {Required, TooShort(5), TooLong(20), PatternMismatch}
  {
    CheckText(LengthRule(5, 20), MatchesClass(NationalId, v), v)
  }

  /** The custom date-of-birth rule on its own: empty text is left to
      `required`; otherwise invalid, future, too young and too old are
      checked in that order. */
  function DateOfBirthRule(v: string, env: Env): (r: Check)
    ensures v == "" ==> r.Pass?
    ensures v != "" && env.parseDate(v).None? ==> r == Fail(InvalidDate)
    ensures v != "" && env.parseDate(v).Some? ==>
      var d := env.parseDate(v).value;
      var age := AgeInYears(d, env.today);
      && (r == Fail(FutureDate) <==> !OnOrBefore(d, env.today))
      && (r == Fail(AgeBelow(13)) <==> OnOrBefore(d, env.today) && age < 13)
      && (r == Fail(AgeAbove(120)) <==> OnOrBefore(d, env.today) && age > 120)
      && (r.Pass? <==> OnOrBefore(d, env.today) && 13 <= age <= 120)
  {
    if v == "" then Pass
    else
      match env.parseDate(v)
      case None => Fail(InvalidDate)
      case Some(d) =>
        var age := AgeInYears(d, env.today);
        if !OnOrBefore(d, env.today) then Fail(FutureDate)
        else if age < 13 then Fail(AgeBelow(13))
        else if age > 120 then Fail(AgeAbove(120))
        else Pass
  }

  /** The date-of-birth field: `required`, then the custom rule. */
  function ValidateDateOfBirth(v: string, env: Env): (r: Check)
    ensures r == Fail(Required) <==> v == ""
    ensures r.Pass? <==>
      && v != "" && env.parseDate(v).Some?
      && OnOrBefore(env.parseDate(v).value, env.today)
      && 13 <= AgeInYears(env.parseDate(v).value, env.today) <= 120
  {
    if v == "" then Fail(Required) else DateOfBirthRule(v, env)
  }

  function ValidateAddress(v: string): (r: Check)
    ensures r.Pass? <==> 5 <= JsLength(v) <= 200 && MatchesClass(Address, v)
    ensures r.Fail? ==> r.violation in {Required, TooShort(5), TooLong(200), PatternMismatch}
  {
    CheckText(LengthRule(5, 200), MatchesClass(Address, v), v)
  }

  /** City, state and country share one rule set. */
  function ValidatePlace(v: string): (r: Check)
    ensures r.Pass? <==> 2 <= JsLength(v) <= 50 && MatchesClass(PersonName, v)
    ensures r.Fail? ==> r.violation in {Required, TooShort(2), TooLong(50), PatternMismatch}
  {
    CheckText(LengthRule(2, 50), MatchesClass(PersonName, v), v)
  }

  function ValidatePhone(v: string, env: Env): (r: Check)
    ensures r.Pass? <==> 10 <= JsLength(v) <= 20 && env.phonePattern(v)
    ensures r.Fail? ==> r.violation in {Required, TooShort(10), TooLong(20), PatternMismatch}
  {
    CheckText(LengthRule(10, 20), env.phonePattern(v), v)
  }

  /** E-mail has a maximum length but no minimum. */
  function ValidateEmail(v: string, env: Env): (r: Check)
    ensures r.Pass? <==> v != "" && JsLength(v) <= 100 && env.emailPattern(v)
    ensures r.Fail? ==> r.violation in {Required, TooLong(100), PatternMismatch}
  {
    CheckText(LengthRule(0, 100), env.emailPattern(v), v)
  }

  /** The step's answers, as react-hook-form hands them to the submit
      handler (an unset field is the empty string). */
  datatype PersonalForm = PersonalForm(
    name: string, nationalId: string, dateOfBirth: string, gender: string,
    address: string, city: string, state: string, country: string,
    phone: string, email: string)

  const Fields: set<string> := {
    "name", "nationalId", "dateOfBirth", "gender", "address",
    "city", "state", "country", "phone", "email"
  }

  /** The verdict on the field called `field`. */
  function CheckField(f: PersonalForm, env: Env, field: string): Check {
    if field == "name" then ValidateName(f.name)
    else if field == "nationalId" then ValidateNationalId(f.nationalId)
    else if field == "dateOfBirth" then ValidateDateOfBirth(f.dateOfBirth, env)
    else if field == "gender" then CheckRequired(f.gender)
    else if field == "address" then ValidateAddress(f.address)
    else if field == "city" then ValidatePlace(f.city)
    else if field == "state" then ValidatePlace(f.state)
    else if field == "country" then ValidatePlace(f.country)
    else if field == "phone" then ValidatePhone(f.phone, env)
    else if field == "email" then ValidateEmail(f.email, env)
    else Pass
  }

  /** Every field of the step passes its rules. */
  predicate Valid(f: PersonalForm, env: Env) {
    && ValidateName(f.name).Pass? && ValidateNationalId(f.nationalId).Pass?
    && ValidateDateOfBirth(f.dateOfBirth, env).Pass? && CheckRequired(f.gender).Pass?
    && ValidateAddress(f.address).Pass? && ValidatePlace(f.city).Pass?
    && ValidatePlace(f.state).Pass? && ValidatePlace(f.country).Pass?
    && ValidatePhone(f.phone, env).Pass? && ValidateEmail(f.email, env).Pass?
  }

  /** The inline error of every failing field. */
  function Errors(f: PersonalForm, env: Env): (e: map<string, Violation>)
    ensures e.Keys <= Fields
    ensures forall n :: n in Fields ==> (n in e <==> CheckField(f, env, n).Fail?)
    ensures forall n :: n in e ==> e[n] == CheckField(f, env, n).violation
    ensures e == map[] <==> Valid(f, env)
  {
    var e := map n | n in Fields && CheckField(f, env, n).Fail? :: CheckField(f, env, n).violation;
    assert e == map[] <==> Valid(f, env) by {
      if e == map[] {
        forall n | n in Fields
          ensures CheckField(f, env, n).Pass?
        {
          assert n !in e;
        }
        FieldsPassAreValid(f, env);
      }
      if Valid(f, env) {
        ValidFieldsPass(f, env);
        assert e.Keys == {};
      }
    }
    e
  }

  /** On a valid step every named field passes. */
  lemma ValidFieldsPass(f: PersonalForm, env: Env)
    requires Valid(f, env)
    ensures forall n :: n in Fields ==> CheckField(f, env, n).Pass?
  {
    forall n | n in Fields
      ensures CheckField(f, env, n).Pass?
    {
      if n == "name" || n == "nationalId" || n == "dateOfBirth" || n == "gender" || n == "address" {
      } else {
        assert n in {"city", "state", "country", "phone", "email"};
      }
    }
  }

  /** A step on which every named field passes is valid. */
  lemma FieldsPassAreValid(f: PersonalForm, env: Env)
    requires forall n :: n in Fields ==> CheckField(f, env, n).Pass?
    ensures Valid(f, env)
  {
    assert CheckField(f, env, "name").Pass? && CheckField(f, env, "nationalId").Pass?;
    assert CheckField(f, env, "dateOfBirth").Pass? && CheckField(f, env, "gender").Pass?;
    assert CheckField(f, env, "address").Pass? && CheckField(f, env, "city").Pass?;
    assert CheckField(f, env, "state").Pass? && CheckField(f, env, "country").Pass?;
    assert CheckField(f, env, "phone").Pass? && CheckField(f, env, "email").Pass?;
  }

  /** The answers as the partial record the handler merges. */
  function ToRecord(f: PersonalForm): (r: Record)
    ensures r.Keys == Fields
    ensures r["name"] == Str(f.name) && r["nationalId"] == Str(f.nationalId)
    ensures r["dateOfBirth"] == Str(f.dateOfBirth) && r["gender"] == Str(f.gender)
    ensures r["address"] == Str(f.address) && r["city"] == Str(f.city)
    ensures r["state"] == Str(f.state) && r["country"] == Str(f.country)
    ensures r["phone"] == Str(f.phone) && r["email"] == Str(f.email)
  {
    map[
      "name" := Str(f.name), "nationalId" := Str(f.nationalId),
      "dateOfBirth" := Str(f.dateOfBirth), "gender" := Str(f.gender),
      "address" := Str(f.address), "city" := Str(f.city), "state" := Str(f.state),
      "country" := Str(f.country), "phone" := Str(f.phone), "email" := Str(f.email)
    ]
  }

  /** `handleSubmit(onSubmit)`: nothing is dispatched while any field fails;
      otherwise the answers are merged and the step set to 1. */
  function OnSubmit(f: PersonalForm, env: Env): (acts: seq<Action>)
    ensures acts == [] <==> !Valid(f, env)
    ensures acts != [] ==> acts == [UpdateFormData(ToRecord(f)), SetStep(1)]
  {
    if Valid(f, env) then [UpdateFormData(ToRecord(f)), SetStep(1)] else []
  }

  /** Advancing is refused exactly when some field fails; an accepted
      submit merges the answers into the record and lands on step 1. */
  lemma SubmitAdvances(s: FormState, f: PersonalForm, env: Env)
    ensures !Valid(f, env) ==> ReduceAll(s, OnSubmit(f, env)) == s
    ensures Valid(f, env) ==>
      ReduceAll(s, OnSubmit(f, env)) == FormState(1, Merge(s.formData, ToRecord(f)), s.isSubmitted)
  {
    if Valid(f, env) {
      ReduceAllPair(s, UpdateFormData(ToRecord(f)), SetStep(1));
    }
  }

  /** A birth date after today blocks the step with a future-date error. */
  lemma FutureBirthBlocks(s: FormState, f: PersonalForm, env: Env, d: Ymd)
    requires f.dateOfBirth != "" && env.parseDate(f.dateOfBirth) == Some(d)
    requires !OnOrBefore(d, env.today)
    ensures Errors(f, env)["dateOfBirth"] == FutureDate
    ensures ReduceAll(s, OnSubmit(f, env)) == s
  {
    assert "dateOfBirth" in Fields;
  }

  /** The age bounds are inclusive: born exactly 13 or exactly 120 years
      ago passes, a day short of 13 years or 121 years ago does not. */
  lemma AgeBoundsInclusive(v: string, env: Env, years: int)
    requires v != "" && env.parseDate(v) == Some(Anniversary(env.today, -years))
    ensures years == 13 || years == 120 ==> ValidateDateOfBirth(v, env).Pass?
    ensures years == 121 ==> ValidateDateOfBirth(v, env) == Fail(AgeAbove(120))
  {
  }

  /** The name pattern's `\s` admits whitespace-only names of legal length. */
  lemma BlankNameAccepted()
    ensures ValidateName("  ").Pass?
  {
    assert MatchesClass(PersonName, "  ");
  }
}
