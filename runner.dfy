/**
 * The run loop: the `Runner` state (index.js:105-123), `runOne`
 * (index.js:1204-1270), which stops when paused, when the login guard
 * opened the login page or on the payment page and otherwise performs the
 * step the page calls for, `runGo` (index.js:1272-1301), which repeats it
 * for at most `goMaxHops` hops, and the GO and Next button handlers
 * (index.js:1323-1368), which never run two at once.
 */
module Automation {
  import opened Wrappers
  import opened PageClassifier
  import opened SearchPage
  import opened Login
  import Seqs

  /** `CFG.goMaxHops` (index.js:31). */
  const GoMaxHops: nat := 12

  /** `Runner`, with the `cl_paused` storage item it mirrors `paused` into. */
  class Runner {
    var busy: bool
    var paused: bool
    var storedPaused: Option<string>

    /** `paused` is what storage says: the item is "1". */
    ghost predicate Valid()
      reads this
    {
      paused == (storedPaused == Some("1"))
    }

    /** The runner of a freshly loaded page, reading `cl_paused`. */
    constructor (stored: Option<string>)
      ensures Valid() && !busy && storedPaused == stored
    {
      busy := false;
      paused := stored == Some("1");
      storedPaused := stored;
    }

    /** `setPaused`. */
    method SetPaused(v: bool)
      modifies this
      ensures paused == v && storedPaused == Some(if v then "1" else "0") && busy == old(busy)
      ensures Valid()
    {
      paused := v;
      storedPaused := Some(if paused then "1" else "0");
    }

    /** `togglePaused`. */
    method TogglePaused() returns (now: bool)
      modifies this
      ensures paused == !old(paused) && now == paused && busy == old(busy)
      ensures Valid()
    {
      SetPaused(!paused);
      now := paused;
    }

    /** `reset`: clears `busy`, keeps the pause state. */
    method Reset()
      modifies this
      ensures !busy && paused == old(paused) && storedPaused == old(storedPaused)
    {
      busy := false;
    }

    /** The `finally` of both handlers (index.js:1339-1341, index.js:1365-1367): `busy` is released. */
    method Leave()
      modifies this
      ensures !busy && paused == old(paused) && storedPaused == old(storedPaused)
    {
      busy := false;
    }

    /** The common head of both handlers (index.js:1325-1332, index.js:1349-1356). */
    method Enter() returns (e: Entry)
      modifies this
      ensures old(busy) ==> e == Ignored && unchanged(this)
      ensures !old(busy) && old(paused) ==> e == PausedNotice && unchanged(this)
      ensures !old(busy) && !old(paused) ==> e == Entered && busy && paused == old(paused) && storedPaused == old(storedPaused)
    {
      if busy {
        return Ignored;
      }
      if paused {
        return PausedNotice;
      }
      busy := true;
      return Entered;
    }
  }

  /** A fresh page load restores the pause state the last `setPaused` stored. */
  method PauseSurvivesReload(r: Runner, v: bool) returns (r2: Runner)
    modifies r
    ensures r2.paused == v && !r2.busy
  {
    r.SetPaused(v);
    r2 := new Runner(r.storedPaused);
  }

  datatype Entry = Ignored | PausedNotice | Entered

  datatype StopReason = PausedStop | LoginOpened | PaymentReached

  /** Why `runOne` threw. */
  datatype Failure = AppNotReady | LoginClickFailed | WrapperNotFound | StepFailed

  datatype Action = SearchAction(step: SearchStep) | PageAction(page: PageState)

  /** What `runOne` did: `STOP`, a step, nothing ("No actionable step"), or a throw. */
  datatype RunResult = Stop(reason: StopReason) | Acted(action: Action) | NoAction | Failed(failure: Failure)

  /** What one hop meets: the outcome of each wait, finder and step it depends on. */
  datatype HopEnv = HopEnv(
    ready: bool,               // waitAppReady()
    now: int,                  // the clock at the login gate
    later: int,                // the clock when the next login check is scheduled
    delay: CooldownDelay,      // the cooldown drawn for it
    loginPage: LoginPage,      // what the login scan sees
    scan: ScanResult,          // what that scan finds there (see WellFormed)
    url: string,               // location.href when pageKey() runs
    page: PageState,           // what pageKey() reads from it (see WellFormed)
    wrapper: Option<Observed>, // the search bar found by retryWait, as its tests read it
    stepFails: bool)           // the chosen step handler throws

  predicate WellTimed(env: HopEnv) {
    env.later >= env.now
  }

  /**
   * A hop's clocks run forward, `scan` is what `Scan` finds on its login
   * page, and `page` is what `PageKey` reads from its URL.
   */
  predicate WellFormed(env: HopEnv) {
    WellTimed(env) && env.scan == Scan(env.loginPage) && env.page == PageKey(env.url)
  }

  /** Every hop a run may reach is well formed. */
  ghost predicate AllWellFormed(envs: nat -> HopEnv) {
    forall i: nat {:trigger WellFormed(envs(i))} :: WellFormed(envs(i))
  }

  function Act(a: Action, env: HopEnv): RunResult {
    if env.stepFails then Failed(StepFailed) else Acted(a)
  }

  /** `runOne` after the login guard (index.js:1216-1269). */
  function AfterGuard(login: GuardOutcome, env: HopEnv): RunResult {
    if login == Raised then Failed(LoginClickFailed)
    else if login == Clicked then Stop(LoginOpened)
    else
      var page := env.page;
      if page == Payment then Stop(PaymentReached)
      else if page == Search then
        if env.wrapper.None? then Failed(WrapperNotFound)
        else match NextSearchStep(env.wrapper.value)
          case None => NoAction
          case Some(s) => Act(SearchAction(s), env)
      else Act(PageAction(page), env)
  }

  /** `runOne`, given the pause flag at its start and what the login guard returned. */
  function RunOneResult(paused: bool, env: HopEnv, login: GuardOutcome): RunResult {
    if paused then Stop(PausedStop)
    else if !env.ready then Failed(AppNotReady)
    else AfterGuard(login, env)
  }

  /**
   * `runOne` stops exactly when paused, when the login guard clicked a login,
   * or on the payment page; the reason names which, and it then acts on nothing.
   */
  lemma StopsExactly(paused: bool, env: HopEnv, login: GuardOutcome)
    ensures var r := RunOneResult(paused, env, login);
      && (r.Stop? <==> paused || (env.ready && login == Clicked)
                       || (env.ready && login == NotClicked && env.page == Payment))
      && (r == Stop(PausedStop) <==> paused)
      && (r == Stop(LoginOpened) <==> !paused && env.ready && login == Clicked)
  {
  }

  /**
   * Every page other than payment has a step, so the "No handler" branch
   * (index.js:1268-1269) is never reached: acting on a page means one of the
   * four later pages, or a search step.
   */
  lemma EveryPageHasAHandler(paused: bool, env: HopEnv, login: GuardOutcome)
    ensures var r := RunOneResult(paused, env, login);
      r.Acted? && r.action.PageAction? ==> r.action.page in {Results, Summary, Passengers, Details}
    ensures var r := RunOneResult(paused, env, login);
      r.Acted? && r.action.SearchAction? ==> env.page == Search
  {
  }

  /** Only a search page can have nothing to do, and only once all seven search steps are done. */
  lemma NoActionOnlyOnFinishedSearch(paused: bool, env: HopEnv, login: GuardOutcome)
    requires RunOneResult(paused, env, login) == NoAction
    ensures env.page == Search && env.wrapper.Some?
    ensures forall k | 1 <= k <= 7 :: Done(env.wrapper.value, k)
  {
    NextSearchStepIsFirstNotDone(env.wrapper.value);
  }

  /** On a search page the action is the first search step whose work is not done yet. */
  lemma SearchActsOnFirstPendingStep(paused: bool, env: HopEnv, login: GuardOutcome)
    requires RunOneResult(paused, env, login).Acted? && RunOneResult(paused, env, login).action.SearchAction?
    ensures env.wrapper.Some?
    ensures var s := RunOneResult(paused, env, login).action.step;
      !Done(env.wrapper.value, Rank(s)) && forall k | 1 <= k < Rank(s) :: Done(env.wrapper.value, k)
  {
    NextSearchStepIsFirstNotDone(env.wrapper.value);
  }

  /**
   * `runOne`: the pause test, `waitAppReady`, the login guard, then the
   * page. `login` is what the guard returned, `None` when it was not reached.
   */
  method RunOne(r: Runner, g: LoginGuard, env: HopEnv) returns (res: RunResult, login: Option<GuardOutcome>)
    requires WellTimed(env)
    modifies g
    ensures r.paused || !env.ready ==> login.None? && unchanged(g)
    ensures !r.paused && env.ready ==> login.Some?
    ensures res == RunOneResult(r.paused, env, login.GetOr(NotClicked))
    ensures login.Some? && !(CanCheck(old(g.stored), env.now) && !old(g.inflight)) ==>
      login.value == NotClicked && unchanged(g)
    ensures login.Some? && CanCheck(old(g.stored), env.now) && !old(g.inflight) ==>
      && login.value == Scan(env.loginPage).outcome
      && g.stored == Some(Numbers.IntToString(NextCheckAt(env.later, env.delay)))
      && !g.inflight
      && g.events == old(g.events) + [Scheduled(NextCheckAt(env.later, env.delay))] + Scan(env.loginPage).events
  {
    if r.paused {
      return Stop(PausedStop), None;
    }
    if !env.ready {
      return Failed(AppNotReady), None;
    }
    var out := g.GuardLoginIfPresent(env.now, env.later, env.delay, env.loginPage);
    login := Some(out);
    res := AfterGuard(out, env);
  }

  /** What the user does with the panel while a hop is under way. */
  datatype Click = NoClick | PauseClick | ResetClick | GoClick | NextClick

  /**
   * A click on the panel while a GO run is under way: Pause/Resume toggles
   * the pause state (index.js:754-759), Reset clears `busy`
   * (index.js:762-768), and GO or Next runs the head of its handler, which
   * ignores the click only while `busy` is still set. `e` is what that head
   * did.
   */
  method UserClicks(r: Runner, c: Click) returns (e: Option<Entry>)
    requires r.Valid()
    modifies r
    ensures r.Valid()
    ensures r.paused == (if c == PauseClick then !old(r.paused) else old(r.paused))
    ensures c == ResetClick ==> !r.busy
    ensures c == PauseClick || c == NoClick ==> r.busy == old(r.busy)
    ensures e.Some? <==> c == GoClick || c == NextClick
    ensures e.Some? ==> e.value == (if old(r.busy) then Ignored else if old(r.paused) then PausedNotice else Entered)
    ensures e.Some? ==> r.busy == (old(r.busy) || e.value == Entered)
  {
    match c {
      case PauseClick =>
        var _ := r.TogglePaused();
        return None;
      case ResetClick =>
        r.Reset();
        return None;
      case GoClick =>
        var entry := r.Enter();
        return Some(entry);
      case NextClick =>
        var entry := r.Enter();
        return Some(entry);
      case NoClick =>
        return None;
    }
  }

  /**
   * Reset breaks the exclusion of the handlers: after a Reset click during a
   * run, a GO click passes the `busy` test (index.js:1324) and enters a
   * second run while the first goes on.
   */
  method ResetLetsSecondRunIn(r: Runner) returns (e: Option<Entry>)
    requires r.busy && !r.paused && r.Valid()
    modifies r
    ensures e == Some(Entered) && r.busy
  {
    var _ := UserClicks(r, ResetClick);
    e := UserClicks(r, GoClick);
  }

  /** A `runOne` that started unpaused never reports the pause stop. */
  lemma NeverPausedWhenRunning(env: HopEnv, login: GuardOutcome)
    ensures RunOneResult(false, env, login) != Stop(PausedStop)
  {
  }

  /** Whatever the login guard did, a hop that meets the payment page is the last one. */
  lemma PaymentEndsHop(env: HopEnv, login: GuardOutcome)
    requires env.page == Payment
    ensures RunOneResult(false, env, login).Stop? || RunOneResult(false, env, login).Failed?
  {
  }

  /**
   * The `__cl_login_next_check_at` item as a run sees it: still the item
   * `found` when the run started, or a time a hop of the run scheduled.
   */
  datatype StoredTime = Kept | Set(at: int)

  /** The item in storage. */
  function Item(st: StoredTime, found: Option<string>): Option<string> {
    match st
    case Kept => found
    case Set(t) => Some(Numbers.IntToString(t))
  }

  /**
   * Whether the login guard of an unpaused hop gets past its gate
   * (index.js:408-409): the app was ready, no check is in flight, and the
   * cooldown is over, read from the item found or, for a time the run
   * scheduled, from that time itself.
   */
  predicate GateOpens(st: StoredTime, found: Option<string>, inflight: bool, env: HopEnv) {
    && env.ready && !inflight
    && match st
       case Kept => CanCheck(found, env.now)
       case Set(t) => env.now >= t
  }

  /** The gate reads the item in storage as `canCheck` does. */
  lemma GateReadsItem(st: StoredTime, found: Option<string>, inflight: bool, env: HopEnv)
    ensures GateOpens(st, found, inflight, env) <==> env.ready && CanCheck(Item(st, found), env.now) && !inflight
  {
    if st.Set? {
      GateOpensAtScheduledTime(st.at, env.now);
    }
  }

  /**
   * The login guard in an unpaused hop that finds it in state (`st`,
   * `inflight`): the stored next-check time after the hop, what the guard
   * logged, and what it reported.
   */
  datatype HopGuard = HopGuard(stored: StoredTime, events: seq<GuardEvent>, login: GuardOutcome)

  function GuardHop(st: StoredTime, found: Option<string>, inflight: bool, env: HopEnv): HopGuard {
    if GateOpens(st, found, inflight, env) then
      var t := NextCheckAt(env.later, env.delay);
      HopGuard(Set(t), [Scheduled(t)] + env.scan.events, env.scan.outcome)
    else HopGuard(st, [], NotClicked)
  }

  /** A time the run scheduled acts in the next hop as its item would. */
  lemma SetActsAsItem(st: StoredTime, found: Option<string>, inflight: bool, env: HopEnv)
    ensures var a, b := GuardHop(Kept, Item(st, found), inflight, env), GuardHop(st, found, inflight, env);
      a.login == b.login && a.events == b.events && Item(a.stored, Item(st, found)) == Item(b.stored, found)
  {
    GateReadsItem(st, found, inflight, env);
    GateReadsItem(Kept, Item(st, found), inflight, env);
  }

  /**
   * The login guard over hops `0` to `n - 1` of a run whose guard started
   * in state (`stored`, `inflight`): the stored next-check time after them,
   * what the guard logged in them, and what it reported in each. `inflight`
   * is the same after every hop.
   */
  datatype GuardRun = GuardRun(stored: StoredTime, events: seq<GuardEvent>, logins: seq<GuardOutcome>)

  function GuardOver(stored: Option<string>, inflight: bool, envs: nat -> HopEnv, n: nat): GuardRun {
    if n == 0 then GuardRun(Kept, [], [])
    else
      var run := GuardOver(stored, inflight, envs, n - 1);
      var hop := GuardHop(run.stored, stored, inflight, envs(n - 1));
      GuardRun(hop.stored, run.events + hop.events, run.logins + [hop.login])
  }

  /** Such a run has one report per hop. */
  lemma {:induction false} GuardOverLength(stored: Option<string>, inflight: bool, envs: nat -> HopEnv, n: nat)
    ensures |GuardOver(stored, inflight, envs, n).logins| == n
  {
    if n > 0 {
      GuardOverLength(stored, inflight, envs, n - 1);
    }
  }

  /**
   * Hop `i` of such a run reports what the guard allows with the stored
   * time the hops before it left; later hops do not change that report.
   */
  lemma {:induction false} GuardOverReport(stored: Option<string>, inflight: bool, envs: nat -> HopEnv, n: nat, i: nat)
    requires i < n
    ensures |GuardOver(stored, inflight, envs, n).logins| == n
    ensures GuardOver(stored, inflight, envs, n).logins[i]
         == GuardHop(GuardOver(stored, inflight, envs, i).stored, stored, inflight, envs(i)).login
  {
    GuardOverLength(stored, inflight, envs, n - 1);
    if i < n - 1 {
      GuardOverReport(stored, inflight, envs, n - 1, i);
    }
  }

  /**
   * The cooldown holds from one hop to the next: after a hop whose guard
   * scanned, storage holds the time it scheduled, and the next hop's
   * `canCheck` finds the gate closed when its clock is still before it.
   */
  lemma NoSecondCheckInCooldown(stored: Option<string>, inflight: bool, envs: nat -> HopEnv, i: nat)
    requires GateOpens(GuardOver(stored, inflight, envs, i).stored, stored, inflight, envs(i))
    requires envs(i + 1).now < NextCheckAt(envs(i).later, envs(i).delay)
    ensures Item(GuardOver(stored, inflight, envs, i + 1).stored, stored)
         == Some(Numbers.IntToString(NextCheckAt(envs(i).later, envs(i).delay)))
    ensures !CanCheck(Item(GuardOver(stored, inflight, envs, i + 1).stored, stored), envs(i + 1).now)
    ensures GuardHop(GuardOver(stored, inflight, envs, i + 1).stored, stored, inflight, envs(i + 1)).login == NotClicked
  {
    GateOpensAtScheduledTime(NextCheckAt(envs(i).later, envs(i).delay), envs(i + 1).now);
  }

  /**
   * A guard found in flight never checks during the run: every hop reports
   * nothing clicked, the stored time stays and nothing is logged.
   */
  lemma {:induction false} InflightGuardStaysShut(stored: Option<string>, envs: nat -> HopEnv, n: nat)
    ensures GuardOver(stored, true, envs, n) == GuardRun(Kept, [], seq(n, _ => NotClicked))
  {
    if n > 0 {
      InflightGuardStaysShut(stored, envs, n - 1);
      assert seq(n - 1, _ => NotClicked) + [NotClicked] == seq(n, _ => NotClicked);
    }
  }

  /** What `runOne` reports of its login guard is one step of the guard's fold. */
  lemma GuardActsAsHop(stored: Option<string>, inflight: bool, events: seq<GuardEvent>, env: HopEnv,
                       login: GuardOutcome, stored': Option<string>, inflight': bool, events': seq<GuardEvent>)
    requires WellFormed(env)
    requires !(env.ready && CanCheck(stored, env.now) && !inflight) ==>
      login == NotClicked && stored' == stored && inflight' == inflight && events' == events
    requires env.ready && CanCheck(stored, env.now) && !inflight ==>
      && login == Scan(env.loginPage).outcome
      && stored' == Some(Numbers.IntToString(NextCheckAt(env.later, env.delay)))
      && !inflight'
      && events' == events + [Scheduled(NextCheckAt(env.later, env.delay))] + Scan(env.loginPage).events
    ensures var hop := GuardHop(Kept, stored, inflight, env);
      login == hop.login && stored' == Item(hop.stored, stored) && events' == events + hop.events && inflight' == inflight
  {
    GateReadsItem(Kept, stored, inflight, env);
    Seqs.ConcatAssoc(events, [Scheduled(NextCheckAt(env.later, env.delay))], env.scan.events);
  }

  /**
   * One hop of `runGo`: `runOne` on an unpaused runner. The login guard
   * reports, stores and logs what its gate allows (index.js:406-452).
   */
  method Hop(r: Runner, g: LoginGuard, env: HopEnv) returns (res: RunResult, login: GuardOutcome)
    requires !r.paused && WellFormed(env)
    modifies g
    ensures res == RunOneResult(false, env, login)
    ensures var hop := GuardHop(Kept, old(g.stored), old(g.inflight), env);
      login == hop.login && g.stored == Item(hop.stored, old(g.stored)) && g.events == old(g.events) + hop.events
    ensures g.inflight == old(g.inflight)
    ensures !env.ready ==> login == NotClicked && unchanged(g)
    ensures !res.Stop? && !res.Failed? ==> env.page != Payment
  {
    var l;
    res, l := RunOne(r, g, env);
    login := l.GetOr(NotClicked);
    GuardActsAsHop(old(g.stored), old(g.inflight), old(g.events), env, login, g.stored, g.inflight, g.events);
    if env.page == Payment {
      PaymentEndsHop(env, login);
    }
  }

  /**
   * The pause state after the clicks made during hops `0` to `n - 1`,
   * from `p`: each Pause click flips it, no other click touches it.
   */
  function PausedAfter(p: bool, clicks: nat -> Click, n: nat): bool {
    if n == 0 then p else PausedAfter(p, clicks, n - 1) != (clicks(n - 1) == PauseClick)
  }

  /** Hop `i` met `envs(i)`, the login guard reported `logins[i]`, and `runOne` returned `results[i]`. */
  predicate HopsTraced(results: seq<RunResult>, logins: seq<GuardOutcome>, envs: nat -> HopEnv) {
    && |results| == |logins|
    && forall i | 0 <= i < |results| :: results[i] == RunOneResult(false, envs(i), logins[i])
  }

  /** None of the first `n` hops stopped, threw or met the payment page. */
  predicate HopsWentOn(results: seq<RunResult>, envs: nat -> HopEnv, n: nat)
    requires n <= |results|
  {
    forall i | 0 <= i < n :: !results[i].Stop? && !results[i].Failed? && envs(i).page != Payment
  }

  /** From pause state `p`, the runner was unpaused at the top of hops `0` to `n - 1`. */
  predicate UnpausedBefore(p: bool, clicks: nat -> Click, n: nat) {
    forall i | 0 <= i < n :: !PausedAfter(p, clicks, i)
  }

  /**
   * The login guard has reported `logins` in the hops so far of a run that
   * started in state (`stored0`, `inflight`) with log `events0`, and it now
   * holds `stored` and `events`.
   */
  predicate GuardFollows(stored0: Option<string>, inflight: bool, events0: seq<GuardEvent>, envs: nat -> HopEnv,
                         logins: seq<GuardOutcome>, stored: Option<string>, events: seq<GuardEvent>) {
    var run := GuardOver(stored0, inflight, envs, |logins|);
    logins == run.logins && stored == Item(run.stored, stored0) && events == events0 + run.events
  }

  lemma TraceOneMore(results: seq<RunResult>, logins: seq<GuardOutcome>, envs: nat -> HopEnv,
                     res: RunResult, login: GuardOutcome)
    requires HopsTraced(results, logins, envs)
    requires res == RunOneResult(false, envs(|results|), login)
    ensures HopsTraced(results + [res], logins + [login], envs)
  {
    var rs, ls := results + [res], logins + [login];
    forall i | 0 <= i < |rs|
      ensures rs[i] == RunOneResult(false, envs(i), ls[i])
    {
      if i < |results| {
        assert rs[i] == results[i] && ls[i] == logins[i];
      }
    }
  }

  lemma WentOnOneMore(results: seq<RunResult>, envs: nat -> HopEnv, res: RunResult)
    requires HopsWentOn(results, envs, |results|)
    ensures HopsWentOn(results + [res], envs, |results|)
    ensures !res.Stop? && !res.Failed? && envs(|results|).page != Payment ==>
      HopsWentOn(results + [res], envs, |results| + 1)
  {
    assert forall i | 0 <= i < |results| :: (results + [res])[i] == results[i];
  }

  lemma PausedStep(p: bool, clicks: nat -> Click, n: nat)
    ensures PausedAfter(p, clicks, n + 1) == (PausedAfter(p, clicks, n) != (clicks(n) == PauseClick))
  {
  }

  lemma UnpausedOneMore(p: bool, clicks: nat -> Click, n: nat)
    requires UnpausedBefore(p, clicks, n) && !PausedAfter(p, clicks, n)
    ensures UnpausedBefore(p, clicks, n + 1)
  {
  }

  /** One more hop extends the fold over the hops before it. */
  lemma GuardOverStep(stored: Option<string>, inflight: bool, envs: nat -> HopEnv, n: nat)
    ensures GuardOver(stored, inflight, envs, n + 1)
         == var run := GuardOver(stored, inflight, envs, n);
            var hop := GuardHop(run.stored, stored, inflight, envs(n));
            GuardRun(hop.stored, run.events + hop.events, run.logins + [hop.login])
  {
  }

  /**
   * Hop `n` of `runGo`, with the login guard where the hops before it left
   * it: the guard's fold over the hops grows by this one.
   */
  method HopAt(r: Runner, g: LoginGuard, envs: nat -> HopEnv, n: nat, ghost stored0: Option<string>,
               ghost events0: seq<GuardEvent>, ghost logins: seq<GuardOutcome>)
    returns (res: RunResult, login: GuardOutcome)
    requires !r.paused && |logins| == n
    requires AllWellFormed(envs)
    requires GuardFollows(stored0, g.inflight, events0, envs, logins, g.stored, g.events)
    modifies g
    ensures res == RunOneResult(false, envs(n), login)
    ensures GuardFollows(stored0, g.inflight, events0, envs, logins + [login], g.stored, g.events)
    ensures g.inflight == old(g.inflight)
    ensures !res.Stop? && !res.Failed? ==> envs(n).page != Payment
  {
    ghost var run := GuardOver(stored0, g.inflight, envs, n);
    GuardOverLength(stored0, g.inflight, envs, n + 1);
    GuardOverStep(stored0, g.inflight, envs, n);
    SetActsAsItem(run.stored, stored0, g.inflight, envs(n));
    res, login := Hop(r, g, envs(n));
    ghost var hop := GuardHop(run.stored, stored0, g.inflight, envs(n));
    Seqs.ConcatAssoc(events0, run.events, hop.events);
  }

  /** The click of the user during hop `n`: it moves the pause state on by one click. */
  method ClickDuringHop(r: Runner, clicks: nat -> Click, n: nat, ghost p: bool)
    requires r.Valid() && r.paused == PausedAfter(p, clicks, n)
    modifies r
    ensures r.Valid() && r.paused == PausedAfter(p, clicks, n + 1)
  {
    var _ := UserClicks(r, clicks(n));
    PausedStep(p, clicks, n);
  }

  /**
   * One pass of `runGo`'s loop on a runner found unpaused: hop
   * `|results|` and the user's click while it runs. `stop` is how the run
   * ends when the hop stopped or threw.
   */
  method GoHop(r: Runner, g: LoginGuard, envs: nat -> HopEnv, clicks: nat -> Click,
               results: seq<RunResult>, logins: seq<GuardOutcome>,
               ghost p: bool, ghost stored0: Option<string>, ghost events0: seq<GuardEvent>)
    returns (results': seq<RunResult>, logins': seq<GuardOutcome>, stop: Option<GoEnd>)
    requires r.Valid() && !r.paused && r.paused == PausedAfter(p, clicks, |results|)
    requires AllWellFormed(envs)
    requires UnpausedBefore(p, clicks, |results|)
    requires HopsTraced(results, logins, envs) && HopsWentOn(results, envs, |results|)
    requires GuardFollows(stored0, g.inflight, events0, envs, logins, g.stored, g.events)
    modifies r, g
    ensures |results'| == |results| + 1 && results'[..|results|] == results
    ensures r.Valid() && g.inflight == old(g.inflight)
    ensures UnpausedBefore(p, clicks, |results'|)
    ensures HopsTraced(results', logins', envs) && HopsWentOn(results', envs, |results|)
    ensures GuardFollows(stored0, g.inflight, events0, envs, logins', g.stored, g.events)
    ensures r.paused == PausedAfter(p, clicks, |results'|)
    ensures stop.None? ==> HopsWentOn(results', envs, |results'|)
    ensures stop.Some? <==> results'[|results|].Stop? || results'[|results|].Failed?
    ensures stop.Some? ==> stop.value.Stopped? || stop.value.Threw?
    ensures stop.Some? && stop.value.Stopped? ==> results'[|results|] == Stop(stop.value.reason)
    ensures stop.Some? && stop.value.Threw? ==> results'[|results|] == Failed(stop.value.failure)
  {
    var i := |results|;
    UnpausedOneMore(p, clicks, i);
    var res, out := HopAt(r, g, envs, i, stored0, events0, logins);
    TraceOneMore(results, logins, envs, res, out);
    WentOnOneMore(results, envs, res);
    results' := results + [res];
    logins' := logins + [out];
    Seqs.AppendOne(results, res);
    ClickDuringHop(r, clicks, i, p);
    if res.Stop? {
      stop := Some(Stopped(res.reason));
    } else if res.Failed? {
      stop := Some(Threw(res.failure));
    } else {
      stop := None;
    }
  }

  /** How `runGo` ended. */
  datatype GoEnd = HopsExhausted | PausedAtTop | Stopped(reason: StopReason) | Threw(failure: Failure)

  /**
   * `runGo` (index.js:1272-1301): at most `GoMaxHops` calls of `runOne`,
   * ending at the first `STOP`, at the first throw, or when the runner is
   * found paused at the top of a hop. `envs(i)` is what hop `i` meets,
   * `clicks(i)` what the user clicks while it runs, and `logins[i]` what the
   * login guard reported in hop `i`. Each hop runs `runOne` with the login
   * guard where the hops before it left it (`GuardFollows`), and only when
   * the clicks so far left the runner unpaused (`PausedAfter`).
   */
  method RunGo(r: Runner, g: LoginGuard, envs: nat -> HopEnv, clicks: nat -> Click)
    returns (results: seq<RunResult>, logins: seq<GuardOutcome>, end: GoEnd)
    requires r.Valid()
    requires AllWellFormed(envs)
    modifies r, g
    ensures r.Valid()
    ensures |results| <= GoMaxHops
    ensures HopsTraced(results, logins, envs)
    ensures GuardFollows(old(g.stored), old(g.inflight), old(g.events), envs, logins, g.stored, g.events)
    ensures g.inflight == old(g.inflight)
    ensures UnpausedBefore(old(r.paused), clicks, |results|)
    ensures |results| >= 1 ==> HopsWentOn(results, envs, |results| - 1)
    ensures end == HopsExhausted <==> |results| == GoMaxHops && HopsWentOn(results, envs, |results|)
    ensures end == PausedAtTop <==>
      |results| < GoMaxHops && PausedAfter(old(r.paused), clicks, |results|) && HopsWentOn(results, envs, |results|)
    ensures r.paused == PausedAfter(old(r.paused), clicks, |results|)
    ensures end.Stopped? ==> |results| >= 1 && results[|results| - 1] == Stop(end.reason)
    ensures end.Threw? ==> |results| >= 1 && results[|results| - 1] == Failed(end.failure)
    ensures end.Threw? <==> |results| >= 1 && results[|results| - 1].Failed?
    ensures old(r.paused) ==> results == [] && end == PausedAtTop && unchanged(g)
    ensures !old(r.paused) ==> |results| >= 1
  {
    results := [];
    logins := [];
    end := HopsExhausted;
    while |results| < GoMaxHops
      invariant |results| <= GoMaxHops
      invariant r.Valid()
      invariant r.paused == PausedAfter(old(r.paused), clicks, |results|)
      invariant UnpausedBefore(old(r.paused), clicks, |results|)
      invariant HopsTraced(results, logins, envs)
      invariant HopsWentOn(results, envs, |results|)
      invariant GuardFollows(old(g.stored), old(g.inflight), old(g.events), envs, logins, g.stored, g.events)
      invariant g.inflight == old(g.inflight)
      invariant results == [] ==> unchanged(g)
      invariant !old(r.paused) ==> |results| >= 1 || !r.paused
    {
      if r.paused {
        end := PausedAtTop;
        break;
      }
      var stop;
      results, logins, stop := GoHop(r, g, envs, clicks, results, logins, old(r.paused), old(g.stored), old(g.events));
      if stop.Some? {
        end := stop.value;
        break;
      }
    }
  }

  /** Before any hop, the guard has reported nothing and its state is where it started. */
  lemma GuardFollowsNothing(stored: Option<string>, inflight: bool, events: seq<GuardEvent>, envs: nat -> HopEnv)
    ensures GuardFollows(stored, inflight, events, envs, [], stored, events)
  {
    assert events + [] == events;
  }

  /** No hop of the run threw. */
  predicate NoneFailed(results: seq<RunResult>) {
    forall i | 0 <= i < |results| :: !results[i].Failed?
  }

  /** A run whose hops went on until the last, and whose last did not throw, threw nowhere. */
  lemma NoFailureBeforeLast(results: seq<RunResult>, envs: nat -> HopEnv)
    requires |results| >= 1 ==> HopsWentOn(results, envs, |results| - 1) && !results[|results| - 1].Failed?
    ensures NoneFailed(results)
  {
  }

  /** What a handler did. */
  datatype HandlerOutcome = Skipped | ShowedPaused | Completed | Errored(failure: Failure)

  /**
   * The GO handler once it has entered (index.js:1333-1341): `runGo` with
   * `busy` held, then `busy` released, an error when `runGo` threw.
   */
  method GoBody(r: Runner, g: LoginGuard, envs: nat -> HopEnv, clicks: nat -> Click)
    returns (h: HandlerOutcome, results: seq<RunResult>, logins: seq<GuardOutcome>)
    requires r.Valid() && r.busy && !r.paused
    requires AllWellFormed(envs)
    modifies r, g
    ensures r.Valid() && !r.busy && 1 <= |results| <= GoMaxHops
    ensures r.paused == PausedAfter(false, clicks, |results|)
    ensures (h == Completed || h.Errored?) && (h.Errored? <==> results[|results| - 1].Failed?)
    ensures HopsTraced(results, logins, envs)
    ensures GuardFollows(old(g.stored), old(g.inflight), old(g.events), envs, logins, g.stored, g.events)
    ensures g.inflight == old(g.inflight)
    ensures UnpausedBefore(false, clicks, |results|)
    ensures HopsWentOn(results, envs, |results| - 1)
    ensures h.Errored? ==> results[|results| - 1] == Failed(h.failure)
    ensures h == Completed ==> NoneFailed(results)
  {
    var end;
    results, logins, end := RunGo(r, g, envs, clicks);
    r.Leave();
    if end.Threw? {
      h := Errored(end.failure);
    } else {
      h := Completed;
      NoFailureBeforeLast(results, envs);
    }
  }

  /**
   * The GO handler (index.js:1321-1343): ignored while a run is under way,
   * refused while paused, otherwise `runGo` with `busy` held, and `busy`
   * released however it ends: an error when `runGo` threw, done otherwise.
   */
  method OnGo(r: Runner, g: LoginGuard, envs: nat -> HopEnv, clicks: nat -> Click)
    returns (h: HandlerOutcome, results: seq<RunResult>, logins: seq<GuardOutcome>)
    requires r.Valid()
    requires AllWellFormed(envs)
    modifies r, g
    ensures r.Valid()
    ensures old(r.busy) ==> h == Skipped && results == [] && unchanged(r) && unchanged(g)
    ensures !old(r.busy) && old(r.paused) ==> h == ShowedPaused && results == [] && unchanged(r) && unchanged(g)
    ensures !old(r.busy) && !old(r.paused) ==> !r.busy && 1 <= |results| <= GoMaxHops
    ensures !old(r.busy) && !old(r.paused) ==> r.paused == PausedAfter(false, clicks, |results|)
    ensures !old(r.busy) && !old(r.paused) ==>
      (h == Completed || h.Errored?) && (h.Errored? <==> results[|results| - 1].Failed?)
    ensures HopsTraced(results, logins, envs)
    ensures GuardFollows(old(g.stored), old(g.inflight), old(g.events), envs, logins, g.stored, g.events)
    ensures g.inflight == old(g.inflight)
    ensures UnpausedBefore(false, clicks, |results|)
    ensures |results| >= 1 ==> HopsWentOn(results, envs, |results| - 1)
    ensures h.Errored? ==> |results| >= 1 && results[|results| - 1] == Failed(h.failure)
    ensures h == Completed ==> NoneFailed(results)
  {
    var e := r.Enter();
    if e != Entered {
      h := if e == Ignored then Skipped else ShowedPaused;
      results, logins := [], [];
      GuardFollowsNothing(g.stored, g.inflight, g.events, envs);
    } else {
      h, results, logins := GoBody(r, g, envs, clicks);
    }
  }

  /**
   * The Next handler (index.js:1345-1369): one `runOne` under the same
   * exclusion, `busy` released however it ends. `login` is what the login
   * guard reported, `None` when it was not reached.
   */
  method OnNext(r: Runner, g: LoginGuard, env: HopEnv)
    returns (h: HandlerOutcome, res: Option<RunResult>, login: Option<GuardOutcome>)
    requires r.Valid() && WellFormed(env)
    modifies r, g
    ensures r.Valid()
    ensures r.paused == old(r.paused)
    ensures old(r.busy) ==> h == Skipped && res.None? && login.None? && unchanged(r) && unchanged(g)
    ensures !old(r.busy) && old(r.paused) ==> h == ShowedPaused && res.None? && login.None? && unchanged(r) && unchanged(g)
    ensures !old(r.busy) && !old(r.paused) ==>
      && !r.busy && res == Some(RunOneResult(false, env, login.GetOr(NotClicked)))
      && (login.Some? <==> env.ready)
      && login.GetOr(NotClicked) == GuardHop(Kept, old(g.stored), old(g.inflight), env).login
      && g.stored == Item(GuardHop(Kept, old(g.stored), old(g.inflight), env).stored, old(g.stored)) && g.inflight == old(g.inflight)
      && g.events == old(g.events) + GuardHop(Kept, old(g.stored), old(g.inflight), env).events
      && (h == Completed || h.Errored?) && (h.Errored? <==> res.value.Failed?)
    ensures h.Errored? ==> res == Some(Failed(h.failure))
    ensures h == Completed ==> res.Some? && !res.value.Failed?
  {
    var e := r.Enter();
    if e == Ignored {
      return Skipped, None, None;
    }
    if e == PausedNotice {
      return ShowedPaused, None, None;
    }
    var out, l := Hop(r, g, env);
    login := if env.ready then Some(l) else None;
    res := Some(out);
    r.Leave();
    if out.Failed? {
      h := Errored(out.failure);
    } else {
      h := Completed;
    }
  }
}
