/**
 * The search page: `inferSearchStep` (index.js:1062-1077), which returns
 * the first of trip type, origin and destination that is not yet set, and
 * the dispatch of `runOne` that follows it (index.js:1244-1260), which picks
 * departure, return, passengers or the Search button by the labels still
 * showing. Each finder is an input: the option list of the type select, the
 * value of each input, the label of each button (`None`: not found).
 */
module SearchPage {
  import opened Wrappers
  import opened Text
  import opened Finders

  /** What `getSettings` reads from the panel. */
  datatype Settings = Settings(from: string, to: string, day: Option<int>, departTime: string, returnTime: string)

  /** What the finders of the search form return. */
  datatype SearchForm = SearchForm(
    typeSelect: Option<seq<SelectOption>>,  // findTypeSelect
    fromInput: Option<string>,              // value of findFromInput
    toInput: Option<string>,                // value of findToInput
    departureBtn: Option<string>,           // label of findDepartureBtn
    returnBtn: Option<string>,              // label of findReturnBtn
    passengersBtn: Option<string>,          // label of findPassengersBtn
    searchBtn: bool)                        // findSearchBtn found something

  /** The type condition of `inferSearchStep` (index.js:1066-1069). */
  predicate TypeOk(typeSelect: Option<seq<SelectOption>>) {
    typeSelect.Some? && SingleReturnSelected(typeSelect.value)
  }

  /** The origin and destination conditions (index.js:1071-1075): the input is found and `eq` the setting. */
  predicate Holds(input: Option<string>, want: string) {
    input.Some? && Eq(input.value, want)
  }

  /** A button is still waiting for its step when it is found with its initial label. */
  predicate Shows(btn: Option<string>, caption: string) {
    btn.Some? && Contains(btn.value, caption)
  }

  /**
   * What the tests of `inferSearchStep` and of the dispatch read off the form.
   * The finders are queries without side effects, so evaluating all of them
   * up front gives the same answers as evaluating them in the source's order.
   */
  datatype Observed = Observed(
    typeOk: bool, fromOk: bool, toOk: bool,
    departPending: bool, returnPending: bool, passengersPending: bool,
    searchFound: bool)

  function Observe(f: SearchForm, st: Settings): Observed {
    Observed(
      TypeOk(f.typeSelect), Holds(f.fromInput, st.from), Holds(f.toInput, st.to),
      Shows(f.departureBtn, "Departure Date"),
      Shows(f.returnBtn, "Add A Return"),
      Shows(f.passengersBtn, "Select Passengers"),
      f.searchBtn)
  }

  /** `inferSearchStep` (index.js:1062-1077). */
  function InferSearchStep(o: Observed): nat {
    if !o.typeOk then 1
    else if !o.fromOk then 2
    else if !o.toOk then 3
    else 4
  }

  /**
   * `inferSearchStep` is always one of 1..4, and it is the ordinal of the
   * first unmet condition among type, origin and destination (4: all met).
   */
  lemma InferSearchStepMeaning(o: Observed)
    ensures 1 <= InferSearchStep(o) <= 4
    ensures InferSearchStep(o) == 1 <==> !o.typeOk
    ensures InferSearchStep(o) == 2 <==> o.typeOk && !o.fromOk
    ensures InferSearchStep(o) == 3 <==> o.typeOk && o.fromOk && !o.toOk
    ensures InferSearchStep(o) == 4 <==> o.typeOk && o.fromOk && o.toOk
  {
  }

  /** A form without a trip-type select is always sent to step 1. */
  lemma MissingTypeSelectIsStepOne(f: SearchForm, st: Settings)
    requires f.typeSelect.None?
    ensures InferSearchStep(Observe(f, st)) == 1
  {
  }

  datatype SearchStep = TypeStep | FromStep | ToStep | DepartStep | ReturnStep | PassengersStep | SubmitStep

  /** Where a step sits in the dispatch order. */
  function Rank(s: SearchStep): (r: nat)
    ensures 1 <= r <= 7
  {
    match s
    case TypeStep => 1
    case FromStep => 2
    case ToStep => 3
    case DepartStep => 4
    case ReturnStep => 5
    case PassengersStep => 6
    case SubmitStep => 7
  }

  /** `runOne` on the search page (index.js:1240-1260); `None` is "No actionable step". */
  function NextSearchStep(o: Observed): Option<SearchStep> {
    var next := InferSearchStep(o);
    if next == 1 then Some(TypeStep)
    else if next == 2 then Some(FromStep)
    else if next == 3 then Some(ToStep)
    else if o.departPending then Some(DepartStep)
    else if o.returnPending then Some(ReturnStep)
    else if o.passengersPending then Some(PassengersStep)
    else if o.searchFound then Some(SubmitStep)
    else None
  }

  /** Whether the work of the step of rank `k` is already visible on the form. */
  predicate Done(o: Observed, k: nat)
    requires 1 <= k <= 7
  {
    if k == 1 then o.typeOk
    else if k == 2 then o.fromOk
    else if k == 3 then o.toOk
    else if k == 4 then !o.departPending
    else if k == 5 then !o.returnPending
    else if k == 6 then !o.passengersPending
    else !o.searchFound
  }

  /**
   * The dispatch picks the first step, in the fixed order, whose work is not
   * yet visible; it finds nothing to do exactly when all seven are done.
   */
  lemma NextSearchStepIsFirstNotDone(o: Observed)
    ensures NextSearchStep(o).None? <==> forall k | 1 <= k <= 7 :: Done(o, k)
    ensures NextSearchStep(o).Some? ==>
      && !Done(o, Rank(NextSearchStep(o).value))
      && forall k | 1 <= k < Rank(NextSearchStep(o).value) :: Done(o, k)
  {
    assert Done(o, 1) == o.typeOk && Done(o, 2) == o.fromOk && Done(o, 3) == o.toOk;
    assert Done(o, 4) == !o.departPending && Done(o, 5) == !o.returnPending;
    assert Done(o, 6) == !o.passengersPending && Done(o, 7) == !o.searchFound;
  }

  /**
   * Progress: once the chosen step's work shows on the form and nothing done
   * before it is undone, the next dispatch chooses a strictly later step or
   * nothing at all.
   */
  lemma DispatchProgresses(o: Observed, o': Observed)
    requires NextSearchStep(o).Some?
    requires forall k | 1 <= k <= Rank(NextSearchStep(o).value) :: Done(o', k)
    ensures NextSearchStep(o').None? || Rank(NextSearchStep(o').value) > Rank(NextSearchStep(o).value)
  {
    NextSearchStepIsFirstNotDone(o);
    NextSearchStepIsFirstNotDone(o');
  }

  /**
   * Whether step `s` gets to do its work: `step_type` fails when the type
   * select or its "Single/Return" option is not found (index.js:876-880).
   */
  predicate StepApplies(f: SearchForm, s: SearchStep) {
    s == TypeStep ==> f.typeSelect.Some? && FindSingleReturn(f.typeSelect.value).Some?
  }

  /** A type step that fails leaves a form whose trip type could never be satisfied by that list. */
  lemma TypeStepFailsOnlyWhenUnmet(f: SearchForm)
    requires !StepApplies(f, TypeStep)
    ensures !TypeOk(f.typeSelect)
  {
    if f.typeSelect.Some? {
      NoOptionNoType(f.typeSelect.value);
    }
  }

  /** The form once step `s` has done its work: its finder sees the new state. */
  function AfterStep(f: SearchForm, st: Settings, s: SearchStep): SearchForm
    requires StepApplies(f, s)
  {
    match s
    case TypeStep =>
      var options := f.typeSelect.value;
      f.(typeSelect := Some(SelectAt(options, FindSingleReturn(options).value)))
    case FromStep => f.(fromInput := Some(st.from))
    case ToStep => f.(toInput := Some(st.to))
    case DepartStep => f.(departureBtn := None)
    case ReturnStep => f.(returnBtn := None)
    case PassengersStep => f.(passengersBtn := None)
    case SubmitStep => f.(searchBtn := false)
  }

  /** The observation after step `s`: its own test flips to done, the others stay. */
  function Mark(o: Observed, s: SearchStep): (o': Observed)
    ensures Done(o', Rank(s))
    ensures forall k | 1 <= k <= 7 && k != Rank(s) :: Done(o', k) == Done(o, k)
  {
    match s
    case TypeStep => o.(typeOk := true)
    case FromStep => o.(fromOk := true)
    case ToStep => o.(toOk := true)
    case DepartStep => o.(departPending := false)
    case ReturnStep => o.(returnPending := false)
    case PassengersStep => o.(passengersPending := false)
    case SubmitStep => o.(searchFound := false)
  }

  /** Doing a step's work on the form is seen by the tests as exactly that step done. */
  lemma AfterStepObserved(f: SearchForm, st: Settings, s: SearchStep)
    requires StepApplies(f, s)
    ensures Observe(AfterStep(f, st, s), st) == Mark(Observe(f, st), s)
  {
    match s
    case TypeStep => AfterTypeStep(f, st);
    case FromStep => AfterFromStep(f, st);
    case ToStep => AfterToStep(f, st);
    case DepartStep => AfterDepartStep(f, st);
    case ReturnStep => AfterReturnStep(f, st);
    case PassengersStep => AfterPassengersStep(f, st);
    case SubmitStep => AfterSubmitStep(f, st);
  }

  lemma AfterTypeStep(f: SearchForm, st: Settings)
    requires StepApplies(f, TypeStep)
    ensures Observe(AfterStep(f, st, TypeStep), st) == Observe(f, st).(typeOk := true)
  {
    ChosenTypeSelected(f.typeSelect.value);
  }

  lemma AfterFromStep(f: SearchForm, st: Settings)
    ensures Observe(f.(fromInput := Some(st.from)), st) == Observe(f, st).(fromOk := true)
  {
    EqIsEquivalence(st.from, st.from, st.from);
  }

  lemma AfterToStep(f: SearchForm, st: Settings)
    ensures Observe(f.(toInput := Some(st.to)), st) == Observe(f, st).(toOk := true)
  {
    EqIsEquivalence(st.to, st.to, st.to);
  }

  lemma AfterDepartStep(f: SearchForm, st: Settings)
    ensures Observe(f.(departureBtn := None), st) == Observe(f, st).(departPending := false)
  {
  }

  lemma AfterReturnStep(f: SearchForm, st: Settings)
    ensures Observe(f.(returnBtn := None), st) == Observe(f, st).(returnPending := false)
  {
  }

  lemma AfterPassengersStep(f: SearchForm, st: Settings)
    ensures Observe(f.(passengersBtn := None), st) == Observe(f, st).(passengersPending := false)
  {
  }

  lemma AfterSubmitStep(f: SearchForm, st: Settings)
    ensures Observe(f.(searchBtn := false), st) == Observe(f, st).(searchFound := false)
  {
  }

  /** The steps successive `runOne` calls take from `o`, at most `fuel` of them. */
  function StepsFrom(o: Observed, fuel: nat): seq<SearchStep>
    decreases fuel
  {
    if fuel == 0 then []
    else match NextSearchStep(o)
      case None => []
      case Some(s) => [s] + StepsFrom(Mark(o, s), fuel - 1)
  }

  /** The seven steps in the order the dispatch tries them. */
  const AllSteps: seq<SearchStep> :=
    [TypeStep, FromStep, ToStep, DepartStep, ReturnStep, PassengersStep, SubmitStep]

  lemma AllStepsRanked()
    ensures forall i | 0 <= i < 7 :: Rank(AllSteps[i]) == i + 1
  {
  }

  /** Exactly the steps of rank below `r` are done. */
  predicate DoneBelow(o: Observed, r: nat) {
    forall k | 1 <= k <= 7 :: Done(o, k) <==> k < r
  }

  /** A freshly loaded search form: nothing chosen, every button with its initial label. */
  predicate Fresh(o: Observed) {
    forall k | 1 <= k <= 7 :: !Done(o, k)
  }

  /**
   * When exactly the steps before rank `r` are done, the dispatch goes
   * through the remaining steps in order, one per call, and then stops.
   */
  lemma {:induction false} StepsFromRank(o: Observed, r: nat, fuel: nat)
    requires 1 <= r <= 8 && DoneBelow(o, r) && fuel >= 8 - r
    ensures StepsFrom(o, fuel) == AllSteps[r - 1..]
    decreases 8 - r
  {
    if r == 8 {
      NextSearchStepIsFirstNotDone(o);
      assert StepsFrom(o, fuel) == [];
    } else {
      var s := AllSteps[r - 1];
      DispatchAtRank(o, r);
      StepsFromRank(Mark(o, s), r + 1, fuel - 1);
      StepsFromTakes(o, fuel, s);
      AllStepsFrom(r);
    }
  }

  lemma StepsFromTakes(o: Observed, fuel: nat, s: SearchStep)
    requires fuel > 0 && NextSearchStep(o) == Some(s)
    ensures StepsFrom(o, fuel) == [s] + StepsFrom(Mark(o, s), fuel - 1)
  {
  }

  lemma AllStepsFrom(r: nat)
    requires 1 <= r <= 7
    ensures AllSteps[r - 1..] == [AllSteps[r - 1]] + AllSteps[r..]
  {
  }

  /** With exactly the steps before `r` done, the dispatch takes step `r`, after which those up to `r` are done. */
  lemma DispatchAtRank(o: Observed, r: nat)
    requires 1 <= r <= 7 && DoneBelow(o, r)
    ensures NextSearchStep(o) == Some(AllSteps[r - 1])
    ensures DoneBelow(Mark(o, AllSteps[r - 1]), r + 1)
  {
    NextSearchStepIsFirstNotDone(o);
    AllStepsRanked();
    assert !Done(o, r);
  }

  /**
   * From a fresh form, single steps go type, origin, destination, departure,
   * return, passengers, Search, and then nothing is left to do: seven calls,
   * whatever budget is allowed beyond that.
   */
  lemma FreshFormTakesSevenSteps(o: Observed, fuel: nat)
    requires Fresh(o) && fuel >= 7
    ensures StepsFrom(o, fuel)
      == [TypeStep, FromStep, ToStep, DepartStep, ReturnStep, PassengersStep, SubmitStep]
  {
    StepsFromRank(o, 1, fuel);
  }
}
