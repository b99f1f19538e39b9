/** The Redux slice that owns the application session: the current step, the
    accumulated answers and the submitted flag, with its five reducers.  No
    reducer checks anything: any step number is accepted and answers can be
    merged after submission. */
module FormSlice {
  import opened Wrappers

  /** A JSON-representable answer value. */
  datatype Value = Str(s: string) | Num(n: real) | Bool(b: bool) | Null

  /** The answers, keyed by field name.  A partial update is a record too:
      the keys it holds are the ones it sets. */
  type Record = map<string, Value>

  datatype FormState = FormState(currentStep: int, formData: Record, isSubmitted: bool)

  /** The fields `initialFormData` spells out, all empty or false. */
  const InitialFormData: Record := map[
    "firstName" := Str(""), "lastName" := Str(""), "dateOfBirth" := Str(""),
    "gender" := Str(""), "email" := Str(""), "phone" := Str(""),
    "address" := Str(""), "city" := Str(""), "country" := Str(""),
    "newsletter" := Bool(false), "notifications" := Bool(false),
    "language" := Str(""), "theme" := Str(""), "bio" := Str("")
  ]

  const InitialState: FormState := FormState(0, InitialFormData, false)

  /** A `Partial<FormState>`: each top-level field either present or not. */
  datatype Patch = Patch(currentStep: Option<int>, formData: Option<Record>, isSubmitted: Option<bool>)

  /** The slice's action creators. */
  datatype Action =
    | SetStep(step: int)
    | UpdateFormData(partial: Record)
    | ResetForm
    | SetSubmitted(submitted: bool)
    | LoadFormData(patch: Patch)

  /** Object spread `{ ...base, ...partial }`: a key-by-key overwrite. */
  function Merge(base: Record, partial: Record): (r: Record)
    ensures r.Keys == base.Keys + partial.Keys
    ensures forall k :: k in partial ==> r[k] == partial[k]
    ensures forall k :: k in base && k !in partial ==> r[k] == base[k]
  {
    base + partial
  }

  function SetStepReducer(s: FormState, step: int): (r: FormState)
    ensures r.currentStep == step
    ensures r.formData == s.formData && r.isSubmitted == s.isSubmitted
  {
    s.(currentStep := step)
  }

  function UpdateFormDataReducer(s: FormState, partial: Record): (r: FormState)
    ensures r.formData.Keys == s.formData.Keys + partial.Keys
    ensures forall k :: k in partial ==> r.formData[k] == partial[k]
    ensures forall k :: k in s.formData && k !in partial ==> r.formData[k] == s.formData[k]
    ensures r.currentStep == s.currentStep && r.isSubmitted == s.isSubmitted
  {
    s.(formData := Merge(s.formData, partial))
  }

  function ResetFormReducer(s: FormState): (r: FormState)
    ensures r.currentStep == 0 && !r.isSubmitted
    ensures r.formData == InitialFormData
  {
    InitialState
  }

  function SetSubmittedReducer(s: FormState, submitted: bool): (r: FormState)
    ensures r.isSubmitted == submitted
    ensures r.currentStep == s.currentStep && r.formData == s.formData
  {
    s.(isSubmitted := submitted)
  }

  /** `{ ...state, ...patch }`: the present top-level fields replace the old
      ones wholesale (the answers are not merged), the absent ones stay. */
  function LoadFormDataReducer(s: FormState, patch: Patch): (r: FormState)
    ensures r.currentStep == patch.currentStep.GetOr(s.currentStep)
    ensures r.formData == patch.formData.GetOr(s.formData)
    ensures r.isSubmitted == patch.isSubmitted.GetOr(s.isSubmitted)
  {
    FormState(
      match patch.currentStep case Some(n) => n case None => s.currentStep,
      match patch.formData case Some(d) => d case None => s.formData,
      match patch.isSubmitted case Some(b) => b case None => s.isSubmitted)
  }

  /** The slice reducer. */
  function Reduce(s: FormState, a: Action): FormState {
    match a
    case SetStep(n) => SetStepReducer(s, n)
    case UpdateFormData(p) => UpdateFormDataReducer(s, p)
    case ResetForm => ResetFormReducer(s)
    case SetSubmitted(b) => SetSubmittedReducer(s, b)
    case LoadFormData(p) => LoadFormDataReducer(s, p)
  }

  /** Several dispatches in a row, in order. */
  function ReduceAll(s: FormState, acts: seq<Action>): FormState
    decreases |acts|
  {
    if acts == [] then s else ReduceAll(Reduce(s, acts[0]), acts[1..])
  }

  /** Dispatching a single action is reducing it. */
  lemma ReduceAllSingle(s: FormState, a: Action)
    ensures ReduceAll(s, [a]) == Reduce(s, a)
  {
    assert [a][1..] == [];
  }

  /** Dispatching two actions is reducing one after the other. */
  lemma ReduceAllPair(s: FormState, a: Action, b: Action)
    ensures ReduceAll(s, [a, b]) == Reduce(Reduce(s, a), b)
  {
    assert [a, b] == [a] + [b];
    ReduceAllAppend(s, [a], [b]);
    ReduceAllSingle(s, a);
    ReduceAllSingle(Reduce(s, a), b);
  }

  /** Merging the same partial update twice is merging it once. */
  lemma UpdateIdempotent(s: FormState, partial: Record)
    ensures Reduce(Reduce(s, UpdateFormData(partial)), UpdateFormData(partial))
         == Reduce(s, UpdateFormData(partial))
  {
    var once := Merge(s.formData, partial);
    assert Merge(once, partial) == once;
  }

  /** Updates to disjoint sets of keys commute. */
  lemma UpdatesCommute(s: FormState, p: Record, q: Record)
    requires p.Keys !! q.Keys
    ensures Reduce(Reduce(s, UpdateFormData(p)), UpdateFormData(q))
         == Reduce(Reduce(s, UpdateFormData(q)), UpdateFormData(p))
  {
    assert Merge(Merge(s.formData, p), q) == Merge(Merge(s.formData, q), p);
  }

  /** Merging the empty partial update changes nothing. */
  lemma UpdateWithNothing(s: FormState)
    ensures Reduce(s, UpdateFormData(map[])) == s
  {
    assert Merge(s.formData, map[]) == s.formData;
  }

  /** Reset forgets everything: from any state it lands on the initial one. */
  lemma ResetIsInitial(s: FormState, t: FormState)
    ensures Reduce(s, ResetForm) == InitialState == Reduce(t, ResetForm)
  {
  }

  /** Only the last of several step changes matters. */
  lemma SetStepOverrides(s: FormState, m: int, n: int)
    ensures Reduce(Reduce(s, SetStep(m)), SetStep(n)) == Reduce(s, SetStep(n))
  {
  }

  /** A load carrying both step and answers replaces exactly those two. */
  lemma LoadReplacesWholesale(s: FormState, step: int, data: Record)
    ensures Reduce(s, LoadFormData(Patch(Some(step), Some(data), None)))
         == FormState(step, data, s.isSubmitted)
  {
  }

  /** Dispatching two lists in sequence is dispatching their concatenation. */
  lemma {:induction false} ReduceAllAppend(s: FormState, xs: seq<Action>, ys: seq<Action>)
    ensures ReduceAll(s, xs + ys) == ReduceAll(ReduceAll(s, xs), ys)
    decreases |xs|
  {
    if xs != [] {
      assert (xs + ys)[1..] == xs[1..] + ys;
      ReduceAllAppend(Reduce(s, xs[0]), xs[1..], ys);
    } else {
      assert xs + ys == ys;
    }
  }

  /** No reducer other than `setSubmitted`, `resetForm` and a load carrying the
      flag touches `isSubmitted`; in particular answers can still be merged
      after submission. */
  lemma {:induction false} SubmittedSticks(s: FormState, acts: seq<Action>)
    requires s.isSubmitted
    requires forall i :: 0 <= i < |acts| ==> acts[i].SetStep? || acts[i].UpdateFormData?
    ensures ReduceAll(s, acts).isSubmitted
    ensures ReduceAll(s, acts).formData.Keys >= s.formData.Keys
    decreases |acts|
  {
    if acts != [] {
      SubmittedSticks(Reduce(s, acts[0]), acts[1..]);
    }
  }
}
