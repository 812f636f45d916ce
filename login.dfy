/**
 * The login check and its cooldown: `LOGIN_CHECK` (index.js:339-365) keeps
 * the time of the next allowed check in storage, and `guardLoginIfPresent`
 * (index.js:406-452), at most once per cooldown and never twice at once,
 * reschedules first and then looks for a "login" link in the header, then
 * (after opening the mobile menu when there is one) anywhere visible.
 */
module Login {
  import opened Wrappers
  import Numbers
  import opened Finders

  /** `LOGIN_CHECK.minMs` and `maxMs`: 10 and 15 minutes. */
  const MinMs: int := 10 * 60 * 1000
  const MaxMs: int := 15 * 60 * 1000

  /** A draw of `randInt(minMs, maxMs)`. */
  type CooldownDelay = d: int | MinMs <= d <= MaxMs witness MinMs

  /**
   * `LOGIN_CHECK.nextAt()`: the stored item, or "0" when it is missing or
   * empty, read with `parseInt`; `None` is NaN.
   */
  function NextAt(stored: Option<string>): Option<int> {
    var raw := if stored.None? || stored.value == "" then "0" else stored.value;
    Numbers.ParseInt(raw)
  }

  /** `LOGIN_CHECK.canCheck()`: `now >= nextAt`, false against NaN. */
  predicate CanCheck(stored: Option<string>, now: int) {
    var n := NextAt(stored);
    n.Some? && now >= n.value
  }

  /** After `setNextAt(t)` the gate opens exactly at `t`. */
  lemma GateOpensAtScheduledTime(t: int, now: int)
    ensures CanCheck(Some(Numbers.IntToString(t)), now) <==> now >= t
  {
    StoredTimeReadsBack(t);
  }

  /** A stored non-empty value is read as it stands. */
  lemma NextAtOfValue(v: string)
    requires v != []
    ensures NextAt(Some(v)) == Numbers.ParseInt(v)
  {
  }

  /** With nothing stored, the check is allowed at any non-negative time. */
  lemma NothingStoredAllowsCheck(now: int)
    ensures CanCheck(None, now) <==> now >= 0
    ensures CanCheck(Some(""), now) <==> now >= 0
  {
    NothingStoredReadsZero(None);
    NothingStoredReadsZero(Some(""));
  }

  lemma NothingStoredReadsZero(stored: Option<string>)
    requires stored == None || stored == Some("")
    ensures NextAt(stored) == Some(0)
  {
    Numbers.ParseIntZero();
  }

  /**
   * A stored value that does not start like a number reads as NaN, and
   * `now >= NaN` is false: the gate stays closed at every time.
   */
  lemma GarbageClosesGate(v: string, now: int)
    requires v != [] && !Text.IsSpace(v[0]) && v[0] != '-' && v[0] != '+' && !Numbers.IsDigit(v[0])
    ensures !CanCheck(Some(v), now)
  {
    Numbers.ParseIntNoNumeral(v);
  }

  /** The time `LOGIN_CHECK.scheduleNext()` stores: the clock when it runs plus the drawn cooldown. */
  function NextCheckAt(later: int, delay: CooldownDelay): int {
    later + delay
  }

  /**
   * The time `scheduleNext` stores reads back as a time between 10 minutes
   * after the gate's clock reading and 15 minutes after its own.
   */
  lemma RescheduleWithinCooldown(now: int, later: int, delay: CooldownDelay)
    requires now <= later
    ensures NextAt(Some(Numbers.IntToString(NextCheckAt(later, delay)))) == Some(NextCheckAt(later, delay))
    ensures now + MinMs <= NextCheckAt(later, delay) <= later + MaxMs
  {
    StoredTimeReadsBack(NextCheckAt(later, delay));
  }

  /** `nextAt()` reads back what `setNextAt(t)` stored. */
  lemma StoredTimeReadsBack(t: int)
    ensures NextAt(Some(Numbers.IntToString(t))) == Some(t)
  {
    Numbers.ParseIntRoundTrip(t);
    NextAtOfValue(Numbers.IntToString(t));
  }

  /** What the page offers the scan: the header links, the menu button and the candidates. */
  datatype LoginPage = LoginPage(
    nav: Option<seq<Candidate>>,   // links of `.header__nav`, if there is one
    menuButton: Option<bool>,      // `button.mobile-menu-button`, and whether it is visible
    before: seq<Candidate>,        // `a,button,[role='button']` before any menu click
    after: seq<Candidate>,         // the same once the menu has been opened
    menuClickThrows: bool,         // the human-paced click on the menu button throws
    loginClickThrows: bool)        // the human-paced click on a login throws

  datatype LoginSource = Header | AfterMenu | Fallback

  /**
   * What the guard's log records: a rescheduled check, and each click that
   * completed. A click that throws records nothing.
   */
  datatype GuardEvent = Scheduled(at: int) | MenuOpened | LoginClicked(source: LoginSource)

  datatype GuardOutcome = Clicked | NotClicked | Raised

  datatype ScanResult = ScanResult(outcome: GuardOutcome, events: seq<GuardEvent>)

  /** `findLoginInHeader` (index.js:370-376). */
  function HeaderLogin(p: LoginPage): Option<nat> {
    if p.nav.None? then None else FindHeaderLogin(p.nav.value)
  }

  /**
   * `openMobileMenuIfNeeded` (index.js:392-402) clicks the menu button when
   * it is visible and no login is visible yet.
   */
  predicate OpensMenu(p: LoginPage) {
    p.menuButton == Some(true) && FindVisibleLogin(p.before).None?
  }

  /** The candidates the later scans see: only a menu click changes the page. */
  function Shown(p: LoginPage): seq<Candidate> {
    if OpensMenu(p) then p.after else p.before
  }

  function ClickFrom(p: LoginPage, prior: seq<GuardEvent>, source: LoginSource): ScanResult {
    if p.loginClickThrows then ScanResult(Raised, prior)
    else ScanResult(Clicked, prior + [LoginClicked(source)])
  }

  /**
   * `clickSafe` (index.js:272-293) on the header link: a visible link gets the
   * human-paced click, which may throw; an invisible one is clicked directly
   * and any error there is swallowed, so the guard reports a click either way.
   */
  predicate HeaderClickThrows(p: LoginPage)
    requires HeaderLogin(p).Some?
  {
    p.loginClickThrows && p.nav.value[HeaderLogin(p).value].visible
  }

  /** `openMobileMenuIfNeeded` clicks the menu button (index.js:399) and that click throws. */
  predicate MenuClickThrows(p: LoginPage) {
    OpensMenu(p) && p.menuClickThrows
  }

  /** The body of the `try` block of `guardLoginIfPresent` (index.js:416-446). */
  function Scan(p: LoginPage): ScanResult {
    if HeaderLogin(p).Some? then
      if HeaderClickThrows(p) then ScanResult(Raised, [])
      else ScanResult(Clicked, [LoginClicked(Header)])
    else if MenuClickThrows(p) then ScanResult(Raised, [])
    else
      var menu := if OpensMenu(p) then [MenuOpened] else [];
      if FindVisibleLogin(Shown(p)).Some? then ClickFrom(p, menu, AfterMenu)
      else if FindVisibleLogin(Shown(p)).Some? then ClickFrom(p, menu, Fallback)
      else ScanResult(NotClicked, menu)
  }

  /**
   * A scan clicks a login exactly when the header has one, or else one is
   * visible once the menu is dealt with, and the clicks it makes complete.
   * It raises exactly when one of those clicks throws, and its log shows the
   * menu opened exactly when the menu click was made and completed.
   */
  lemma ScanClicksIffLoginShown(p: LoginPage)
    ensures Scan(p).outcome == Clicked
      <==> if HeaderLogin(p).Some? then !HeaderClickThrows(p)
           else !MenuClickThrows(p) && !p.loginClickThrows && FindVisibleLogin(Shown(p)).Some?
    ensures Scan(p).outcome == Raised
      <==> if HeaderLogin(p).Some? then HeaderClickThrows(p)
           else MenuClickThrows(p) || (p.loginClickThrows && FindVisibleLogin(Shown(p)).Some?)
    ensures MenuOpened in Scan(p).events <==> HeaderLogin(p).None? && OpensMenu(p) && !p.menuClickThrows
    ensures |Scan(p).events| <= 2
  {
    if HeaderLogin(p).None? && !MenuClickThrows(p) {
      var menu: seq<GuardEvent> := if OpensMenu(p) then [MenuOpened] else [];
      assert MenuOpened !in [LoginClicked(AfterMenu)];
      assert MenuOpened in menu <==> OpensMenu(p);
    }
  }

  /**
   * The menu opens and the login click after it throws (index.js:399, 435):
   * the scan raises with the menu already opened.
   */
  lemma MenuOpenedThenLoginThrows(p: LoginPage)
    requires HeaderLogin(p).None? && OpensMenu(p) && !p.menuClickThrows
    requires p.loginClickThrows && FindVisibleLogin(p.after).Some?
    ensures Scan(p) == ScanResult(Raised, [MenuOpened])
  {
  }

  /**
   * The third scan (index.js:439-445) repeats the second on the same page
   * with nothing awaited in between, so it never finds what the second missed.
   */
  lemma FallbackNeverClicks(p: LoginPage)
    ensures LoginClicked(Fallback) !in Scan(p).events
  {
    if HeaderLogin(p).None? && !MenuClickThrows(p) {
      var menu: seq<GuardEvent> := if OpensMenu(p) then [MenuOpened] else [];
      assert LoginClicked(Fallback) !in menu;
    }
  }

  /** The header link wins over any other login on the page, and the menu is left alone. */
  lemma HeaderLoginFirst(p: LoginPage)
    requires HeaderLogin(p).Some? && !HeaderClickThrows(p)
    ensures Scan(p) == ScanResult(Clicked, [LoginClicked(Header)])
  {
  }

  /** `__cl_login_check_inflight`, the stored `cl_login_next_check_at` and what the guard did. */
  class LoginGuard {
    var stored: Option<string>
    var inflight: bool
    var events: seq<GuardEvent>

    constructor (stored: Option<string>)
      ensures this.stored == stored && !inflight && events == []
    {
      this.stored := stored;
      inflight := false;
      events := [];
    }

    /**
     * `guardLoginIfPresent`: `now` is the clock at the gate, `later` the clock
     * in `scheduleNext`, `delay` the cooldown drawn there.
     */
    method GuardLoginIfPresent(now: int, later: int, delay: CooldownDelay, p: LoginPage) returns (out: GuardOutcome)
      requires later >= now
      modifies this
      ensures !CanCheck(old(stored), now) || old(inflight) ==> out == NotClicked && unchanged(this)
      ensures CanCheck(old(stored), now) && !old(inflight) ==>
        && stored == Some(Numbers.IntToString(NextCheckAt(later, delay)))
        && !inflight
        && events == old(events) + [Scheduled(NextCheckAt(later, delay))] + Scan(p).events
        && out == Scan(p).outcome
    {
      if !CanCheck(stored, now) {
        return NotClicked;
      }
      if inflight {
        return NotClicked;
      }
      inflight := true;
      var next := NextCheckAt(later, delay);
      stored := Some(Numbers.IntToString(next));
      events := events + [Scheduled(next)];
      var r := Scan(p);
      events := events + r.events;
      out := r.outcome;
      inflight := false;
    }
  }

  /**
   * Two runs inside one cooldown: the second finds the gate closed and
   * leaves everything as the first left it.
   */
  method TwoChecksInOneWindow(g: LoginGuard, now: int, later: int, delay: CooldownDelay, p: LoginPage,
                              now2: int, later2: int, delay2: CooldownDelay, p2: LoginPage)
    returns (first: GuardOutcome, second: GuardOutcome)
    requires CanCheck(g.stored, now) && !g.inflight
    requires later >= now && later2 >= now2 && now2 < later + MinMs
    modifies g
    ensures second == NotClicked
    ensures g.stored == Some(Numbers.IntToString(NextCheckAt(later, delay)))
    ensures g.events == old(g.events) + [Scheduled(NextCheckAt(later, delay))] + Scan(p).events
  {
    first := g.GuardLoginIfPresent(now, later, delay, p);
    var t := NextCheckAt(later, delay);
    assert g.stored == Some(Numbers.IntToString(t));
    assert now2 < t;
    GateOpensAtScheduledTime(t, now2);
    second := g.GuardLoginIfPresent(now2, later2, delay2, p2);
  }
}
