/** The persistence adapter and the provider's three effects.  The browser's
    single-key store is a value that holds at most one entry; the JSON text
    is abstracted to what parsing it yields.  Timestamps and logging are not
    modelled. */
module FormContext {
  import opened Wrappers
  import opened FormSlice

  /** The two fields `load` reads from the parsed object.  `None` stands for
      an absent field (and, for the step, for any falsy value). */
  datatype Snapshot = Snapshot(currentStep: Option<int>, formData: Option<Record>)

  /** What `getItem` returns for the storage key when something is there:
      the empty string (falsy, so nothing is parsed), text that does not
      parse (or parses to something whose fields cannot be read), or a
      parsed snapshot. */
  datatype Entry = Blank | Unparsable | Saved(snapshot: Snapshot)

  /** The store under the key `multiStepFormData`; `writable` is false when
      `setItem` throws (a full quota, say), an error the adapter swallows. */
  datatype Store = Store(entry: Option<Entry>, writable: bool)

  /** What `saveToLocalStorage` writes for a state: its step and answers. */
  function SnapshotOf(s: FormState): Snapshot {
    Snapshot(Some(s.currentStep), Some(s.formData))
  }

  /** `saveToLocalStorage`: overwrite the entry, or change nothing when the
      write throws. */
  function Save(store: Store, s: FormState): (r: Store)
    ensures r.writable == store.writable
    ensures store.writable ==> r.entry == Some(Saved(SnapshotOf(s)))
    ensures !store.writable ==> r == store
  {
    if store.writable then store.(entry := Some(Saved(SnapshotOf(s)))) else store
  }

  /** `clearLocalStorage`: remove the entry. */
  function Clear(store: Store): (r: Store)
    ensures r.entry.None? && r.writable == store.writable
  {
    store.(entry := None)
  }

  /** `parsed.currentStep || 0`. */
  function StepOrZero(step: Option<int>): (n: int)
    ensures step.None? ==> n == 0
    ensures step.Some? ==> n == step.value
  {
    if step.Some? && step.value != 0 then step.value else 0
  }

  /** `parsed.formData || {}`: any object is truthy, even an empty one. */
  function DataOrEmpty(data: Option<Record>): (d: Record)
    ensures data.None? ==> d == map[]
    ensures data.Some? ==> d == data.value
  {
    match data
    case Some(d) => d
    case None => map[]
  }

  /** The result of `loadFromLocalStorage`: whether it reports success, and
      the state after what it dispatched. */
  datatype Loaded = Loaded(loaded: bool, state: FormState)

  /** `loadFromLocalStorage`: only a parsed snapshot is loaded, and then as a
      `loadFormData` of its step and answers with their defaults. */
  function Load(store: Store, s: FormState): (r: Loaded)
    ensures r.loaded <==> store.entry.Some? && store.entry.value.Saved?
    ensures !r.loaded ==> r.state == s
    ensures r.loaded ==> r.state == FormState(
              StepOrZero(store.entry.value.snapshot.currentStep),
              DataOrEmpty(store.entry.value.snapshot.formData),
              s.isSubmitted)
    ensures r.state.isSubmitted == s.isSubmitted
  {
    match store.entry
    case Some(Saved(snap)) =>
      Loaded(true, Reduce(s, LoadFormData(Patch(Some(StepOrZero(snap.currentStep)), Some(DataOrEmpty(snap.formData)), None))))
    case _ => Loaded(false, s)
  }

  /** Saving then loading restores the saved step and answers; the flag of
      the loading state is kept. */
  lemma SaveLoadRoundTrip(store: Store, saved: FormState, s: FormState)
    requires store.writable
    ensures Load(Save(store, saved), s) == Loaded(true, FormState(saved.currentStep, saved.formData, s.isSubmitted))
  {
  }

  /** With no entry under the key nothing is loaded or dispatched. */
  lemma LoadAbsent(store: Store, s: FormState)
    requires store.entry.None?
    ensures Load(store, s) == Loaded(false, s)
  {
  }

  /** Empty or unparsable text is treated as "nothing saved". */
  lemma LoadCorrupt(store: Store, s: FormState)
    requires store.entry == Some(Blank) || store.entry == Some(Unparsable)
    ensures Load(store, s) == Loaded(false, s)
  {
  }

  /** A snapshot without a (truthy) step restores step 0, and one without
      answers restores an empty record, not the initial one. */
  lemma LoadDefaults(store: Store, s: FormState)
    requires store.entry == Some(Saved(Snapshot(None, None)))
    ensures Load(store, s) == Loaded(true, FormState(0, map[], s.isSubmitted))
  {
  }

  /** Clearing twice is clearing once, and after clearing nothing loads. */
  lemma ClearIdempotent(store: Store, s: FormState)
    ensures Clear(Clear(store)) == Clear(store)
    ensures Load(Clear(store), s) == Loaded(false, s)
  {
  }

  /** The provider: the form state it observes, the store, and the
      `isInitialMount` ref. */
  datatype Provider = Provider(form: FormState, store: Store, initialMount: bool)

  /** The auto-save effect's guard. */
  predicate AutoSaveEnabled(p: Provider) {
    !p.initialMount && !p.form.isSubmitted
  }

  /** The auto-save effect's body. */
  function AutoSave(p: Provider): (r: Provider)
    ensures r.form == p.form && r.initialMount == p.initialMount
    ensures AutoSaveEnabled(p) ==> r.store == Save(p.store, p.form)
    ensures !AutoSaveEnabled(p) ==> r.store == p.store
  {
    if AutoSaveEnabled(p) then p.(store := Save(p.store, p.form)) else p
  }

  /** The clear-on-submit effect's body. */
  function ClearOnSubmit(p: Provider): (r: Provider)
    ensures r.form == p.form && r.initialMount == p.initialMount
    ensures p.form.isSubmitted ==> r.store == Clear(p.store)
    ensures !p.form.isSubmitted ==> r.store == p.store
  {
    if p.form.isSubmitted then p.(store := Clear(p.store)) else p
  }

  /** The first commit: the three effects run in order with the first
      render's values.  The load effect clears the initial-mount ref before
      the auto-save effect reads it, so the pre-load state is saved at once;
      the loaded state reaches the provider on the next render. */
  function Mount(form: FormState, store: Store): (r: Provider)
    ensures r.form == Load(store, form).state && !r.initialMount
    ensures !form.isSubmitted ==> r.store == Save(store, form)
    ensures form.isSubmitted ==> r.store == Clear(store)
  {
    var loaded := Load(store, form).state;
    var afterSave := AutoSave(Provider(form, store, false));
    var afterClear := ClearOnSubmit(afterSave);
    Provider(loaded, afterClear.store, false)
  }

  /** A later render after the observed state moved from `before` to
      `p.form`: the auto-save effect runs when the step, the answers or the
      flag changed, the clear effect when the flag changed. */
  function Render(p: Provider, before: FormState): (r: Provider)
    ensures r.form == p.form && r.initialMount == p.initialMount
    ensures r.store.writable == p.store.writable
    ensures r.store != p.store ==>
              (AutoSaveEnabled(p) && r.store == Save(p.store, p.form))
              || (p.form.isSubmitted && r.store == Clear(p.store))
    ensures AutoSaveEnabled(p) && before != p.form ==> r.store == Save(p.store, p.form)
    ensures p.form.isSubmitted && !before.isSubmitted ==> r.store.entry.None?
  {
    var saveRuns := before != p.form;
    var clearRuns := before.isSubmitted != p.form.isSubmitted;
    var p1 := if saveRuns then AutoSave(p) else p;
    if clearRuns then ClearOnSubmit(p1) else p1
  }

  /** Start-up: the first commit, then the render the load's dispatch causes. */
  function Start(form: FormState, store: Store): Provider {
    var p := Mount(form, store);
    Render(p, form)
  }

  /** One event handler's dispatches, then the render they cause. */
  function Dispatch(p: Provider, acts: seq<Action>): Provider {
    Render(p.(form := ReduceAll(p.form, acts)), p.form)
  }

  /** The store mirrors the session: nothing is stored once submitted, and
      otherwise (when writes succeed) the current step and answers are. */
  predicate Mirrors(p: Provider) {
    && (p.form.isSubmitted ==> p.store.entry.None?)
    && (!p.form.isSubmitted && p.store.writable ==> p.store.entry == Some(Saved(SnapshotOf(p.form))))
  }

  /** After start-up the provider shows the loaded state and the store
      mirrors it. */
  lemma StartMirrors(form: FormState, store: Store)
    requires !form.isSubmitted
    ensures Start(form, store).form == Load(store, form).state
    ensures !Start(form, store).initialMount
    ensures Mirrors(Start(form, store))
  {
    var p := Mount(form, store);
    if p.form == form {
      assert p.store == Save(store, p.form);
    }
  }

  /** Every later dispatch keeps the store mirroring the session. */
  lemma DispatchMirrors(p: Provider, acts: seq<Action>)
    requires !p.initialMount && Mirrors(p)
    ensures Mirrors(Dispatch(p, acts))
  {
    var q := p.(form := ReduceAll(p.form, acts));
    var r := Dispatch(p, acts);
    if q.form == p.form {
      assert r.store == p.store;
    }
  }

  /** Reloading the page while the form is in progress resumes it: a fresh
      session started on the mirrored store shows the same step and answers. */
  lemma ReloadResumes(p: Provider)
    requires Mirrors(p) && !p.form.isSubmitted && p.store.writable
    ensures Start(InitialState, p.store).form == FormState(p.form.currentStep, p.form.formData, false)
  {
  }

  /** Reloading after submission starts over: nothing is stored, so nothing
      loads. */
  lemma ReloadAfterSubmit(p: Provider, s: FormState)
    requires Mirrors(p) && p.form.isSubmitted
    ensures Load(p.store, s) == Loaded(false, s)
    ensures Start(InitialState, p.store).form == InitialState
  {
  }
}
