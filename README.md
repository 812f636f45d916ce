# Citylink booking helper: the decision engine, in Dafny

`index.js` is a browser userscript that walks the Citylink bus-booking site
page by page: search form, results, summary, passengers, details, and a stop
before payment. This project models the decisions underneath the DOM
plumbing and proves what they guarantee:

- the text helpers `norm` and `eq`, and the label tests built on them
  (`text.dfy`, `finders.dfy`);
- decimal printing and `parseInt` (`numbers.dfy`);
- the page classifier `pageKey` (`page.dfy`);
- the search-form step inference `inferSearchStep` and the dispatch that
  follows it in `runOne` (`search.dfy`);
- the passenger stepper reader `readStepperValue` (`stepper.dfy`);
- the poller `W`, `retryWait` and the action pacing `pace` (`timing.dfy`);
- `typeLikeUser`, as a `Field` class with a value and an event trace
  (`typing.dfy`);
- the advert-overlay fingerprint, the remove-or-hide pass and the once-only
  guard (`overlay.dfy`);
- the login cooldown `LOGIN_CHECK` and `guardLoginIfPresent`, as a
  `LoginGuard` class holding the stored time, the in-flight flag and a log
  of what the guard did (`login.dfy`);
- the `Runner` state, `runOne`, `runGo` and the GO and Next handlers
  (`runner.dfy`);
- the panel's option lists and `getSettings` (`options.dfy`).

The page is an input everywhere. Each finder becomes the value it returns
(`Option` when it can find nothing). `visible(el)` becomes a flag on the
element. `Date.now()` becomes a clock reading passed in. Each `Math.random`
draw becomes a parameter of a subset type holding the source's bounds:
`CooldownDelay` is 600000..900000 and `Gap` is 150..358. `localStorage`
items become `Option<string>` fields.

Behaviour of the source that the model exposes:

- The third login scan (index.js:439-445) repeats the second on the same
  page with nothing awaited between them, so it can never click
  (`Login.FallbackNeverClicks`).
- A Reset click during a run clears `busy` (index.js:762-768), so a GO click then starts a second run beside the first (`Automation.ResetLetsSecondRunIn`).
- The "No handler" branch of `runOne` (index.js:1268-1269) is unreachable,
  because `pageKey` only returns pages that have a handler
  (`Automation.EveryPageHasAHandler`).
- A stored next-check time that does not start like a number reads as NaN.
  `now >= NaN` is false, so the login check then never runs again on that
  browser (`Login.GarbageClosesGate`).
- `scheduleNext` reads the clock a second time. The stored time is therefore
  at least 10 minutes after the gate's reading and at most 15 minutes after
  the second reading (`Login.RescheduleWithinCooldown`).
- A fresh search form takes seven `runOne` calls, not four: type, origin,
  destination, departure, return, passengers and Search
  (`SearchPage.FreshFormTakesSevenSteps`). `inferSearchStep` returns 4 for
  everything after the destination.
- The `"billing"` exclusion makes the exact `"continue"` test redundant
  (`Finders.ContinueLabelMeaning`).

## Model

| member | source | states |
|---|---|---|
| Text.TrimStart | index.js:66 | The result is a suffix of the input, everything dropped is white space, and it does not start with white space. |
| Text.TrimEnd | index.js:66 | The result is a prefix of the input, everything dropped is white space, and it does not end with white space. |
| Text.Trim | index.js:66 | `trim()` leaves no white space at either end and cuts nothing else: the result is a slice of the input, and what lies before and after it is all white space. |
| Text.TrimKeepsVisible | index.js:66 | Trimming both ends keeps the non-space characters of the input, in order. |
| Text.Collapse | index.js:66 | `replace(/\s+/g, " ")` yields only plain single spaces, never two in a row. It is empty exactly when the input is, no longer than the input, and starts with a space exactly when the input starts with white space. |
| Text.CollapseKeepsVisible | index.js:66 | Collapsing keeps the non-space characters of the input, in order. |
| Text.CollapseFixed | index.js:66 | Text that is already collapsed is left unchanged by collapsing. |
| Text.Words | index.js:66 | The words of a text are its maximal runs of non-space characters, in order. `Text.WordsAreWords` states their shape. |
| Text.WordsAreWords | index.js:66 | Every word is non-empty and holds no white space. |
| Text.CollapseKeepsWords | index.js:66 | Collapsing keeps the words of the text, in order: a run of white space is shortened to one space, never deleted. |
| Text.Norm | index.js:66 | `norm` has no white space at either end, no two adjacent spaces, only plain spaces, and the input's non-space characters in order. |
| Text.NormIsJoinedWords | index.js:66 | `norm(s)` is exactly the words of `s` joined by single spaces. |
| Text.NormOfNormal | index.js:66 | Collapsed text with no white space at either end is its own normal form. |
| Text.TwoWordsNormal | index.js:66 | Two words with one space between them are in normal form. |
| Text.NormIdempotent | index.js:66 | Normalising twice is the same as normalising once. |
| Text.NormOfPadded | index.js:66 | A word without white space, padded on either side with any white space, normalises to the word. |
| Text.NormOfWord | index.js:66 | A non-empty word without white space is its own normal form. |
| Text.Lower | index.js:67 | `toLowerCase` keeps the length and leaves no upper-case letter. Each upper-case letter becomes the lower-case letter at the same place in the alphabet, and every other character is kept. |
| Text.LowerIdempotent | index.js:67 | Lower-casing twice is lower-casing once. |
| Text.LowerKeepsSpace | index.js:67 | Lower-casing keeps white space exactly where it was. |
| Text.Eq | index.js:67 | `eq` compares the lower-cased normal forms of its arguments. `Text.EqIsEquivalence`, `Text.EqIgnoresNorm` and `Text.SpaceSeparatesWords` state what that makes it. |
| Text.EqIsEquivalence | index.js:67 | `eq` is reflexive, symmetric and transitive. |
| Text.EqIgnoresNorm | index.js:67 | Normalising an argument before `eq` never changes its answer. |
| Text.SpaceSeparatesWords | index.js:67 | "log in" is not `eq` to "login": white space between words survives normalising. |
| Text.Contains | index.js:779-787 | `includes` holds exactly when the substring occurs at some position. |
| Text.Join | index.js:967-970 | `join` of no parts is "" and of one part is that part. `Text.JoinSnoc` states the general case. |
| Text.JoinSnoc | index.js:967-970 | `join` of several parts is the join of all but the last, the separator, then the last part. |
| Text.JoinOfBlanks | index.js:967-970 | Parts that are all white space, joined with a space, give white space. |
| Numbers.NatToDecimal | index.js:546 | `String(n)` of a natural number, as JavaScript prints a safe integer: a non-empty digit string without a leading zero, one digit long exactly when `n < 10`. |
| Numbers.DecimalRoundTrip | index.js:546 | Reading the digits `String(n)` printed gives back `n`. |
| Numbers.LeadingZero | index.js:546 | A leading "0" does not change the value of a digit string. |
| Numbers.LeadingDigits | index.js:349 | The digits `parseInt` reads are the longest digit prefix of its input. |
| Numbers.ParseIntPrefix | index.js:349 | `parseInt` reads the leading numeral and ignores whatever non-digit text follows. |
| Numbers.ParseIntNoNumeral | index.js:349 | Text that starts with neither white space, a sign nor a digit is NaN. |
| Numbers.ParseIntRoundTrip | index.js:349-353 | `parseInt(String(i), 10) == i` for every integer of the model, negative ones included. In the source this holds for safe integers, which every time the core stores is. |
| Numbers.IntToString | index.js:353 | `String(t)` of an integer, as JavaScript prints a safe integer: never empty; `Numbers.ParseIntRoundTrip` reads it back. |
| Numbers.ParseInt | index.js:349 | `parseInt(s, 10)` skips leading white space, takes one optional sign and then the longest run of digits; no digit is NaN. `Numbers.ParseIntPrefix`, `Numbers.ParseIntNoNumeral` and `Numbers.ParseIntRoundTrip` state what it reads. |
| Numbers.ParseIntZero | index.js:349 | The fallback "0" reads as 0. |
| Numbers.PadStart | index.js:546 | `padStart(n, c)` ends with the input, has length `max(n, |s|)`, and is filled with `c` in front. |
| Finders.FindFirst | index.js:814 | `find` returns the first element satisfying the test, and nothing when none does. |
| Finders.IsPickableDay | index.js:815-818 | A cell is pickable for a day when it is enabled, in the shown month, visible, and its normalised text is `String(day)`. `Finders.RenderedDayIsPickable` gives an example. |
| Finders.FindCalendarDay | index.js:812-821 | The first pickable cell, in document order. `Finders.CalendarDayFound` states what that cell is. |
| Finders.CalendarDayFound | index.js:812-821 | The cell `findFlatpickrDay` picks is enabled, in the shown month, visible, and its text reads back as the requested day. Every earlier cell fails the test, and no cell is picked only when none passes. |
| Finders.RenderedDayIsPickable | index.js:812-821 | A visible, enabled, current-month cell showing the day's numeral with white space around it is pickable for that day. |
| Finders.IsContinueLabel | index.js:1116-1117 | The Continue test: the normalised lower-case label is "continue", or contains "continue" and not "billing". `Finders.ContinueLabelMeaning` shows the first half is redundant. |
| Finders.ContinueLabelMeaning | index.js:1116-1117 | A button is a Continue button exactly when its normalised lower-case text contains "continue" and not "billing". |
| Finders.IsLoginLabel | index.js:375 | The login label test: the normalised lower-case text is "login". |
| Finders.FindHeaderLogin | index.js:370-376 | The first header link with a login label. `Finders.FindFirst` states that it is the first. |
| Finders.FindVisibleLogin | index.js:382-390 | The first visible element with a login label. `Finders.FindFirst` states that it is the first. |
| Finders.LoginLabelIsEq | index.js:375 | The login label test `textOf(a).toLowerCase() === "login"` is `eq(text, "login")`. |
| Finders.SingleReturnSelected | index.js:1067-1069 | The trip-type condition: some option is selected and its text `eq`s "Single/Return". |
| Finders.FindSingleReturn | index.js:879 | `step_type` picks the first option whose text `eq`s "Single/Return". |
| Finders.SelectAt | index.js:883 | Setting the select's value keeps every option's text and leaves exactly the chosen option selected. |
| Finders.ChosenTypeSelected | index.js:872-886 | Selecting the option `step_type` finds meets the trip-type condition of `inferSearchStep`, whatever else the list holds. |
| Finders.NoOptionNoType | index.js:879-880 | When `step_type` finds no "Single/Return" option, no selection in that list meets the trip-type condition. |
| PageClassifier.PageKey | index.js:779-787 | `pageKey` tests the five URL markers in order. `PageClassifier.PageKeyIsFirstMarker` and `PageClassifier.PageKeyMeaning` state the result. |
| PageClassifier.PageKeyIsFirstMarker | index.js:779-787 | `pageKey` is the page of the first of its five markers, in order, that the URL contains, and search otherwise. |
| PageClassifier.PageKeyMeaning | index.js:779-787 | `pageKey` returns search exactly when no marker is in the URL, and returns marker k's page exactly when marker k is there and no earlier one is. |
| PageClassifier.PaymentOnlyAfterOthers | index.js:779-787 | `payment` is returned exactly when the URL has "/#/payment" and none of the four earlier markers. |
| SearchPage.InferSearchStep | index.js:1062-1077 | The first unmet condition of type, origin and destination, as 1 to 3, else 4. `SearchPage.InferSearchStepMeaning` states it as an if-and-only-if. |
| SearchPage.InferSearchStepMeaning | index.js:1062-1077 | `inferSearchStep` is in 1..4. It is 1 iff the type is not OK, 2 iff type is OK and origin is not, 3 iff both are and destination is not, and 4 iff all three are OK. |
| SearchPage.MissingTypeSelectIsStepOne | index.js:1063-1074 | A form without a trip-type select is always at step 1. |
| SearchPage.NextSearchStep | index.js:1240-1260 | The dispatch of `runOne` on the search page. `SearchPage.NextSearchStepIsFirstNotDone` states what it picks. |
| SearchPage.NextSearchStepIsFirstNotDone | index.js:1240-1260 | The dispatch picks the first step, in the fixed order, whose work is not visible yet. It finds nothing exactly when all seven are done. |
| SearchPage.DispatchProgresses | index.js:1240-1260 | Once the chosen step's work shows and nothing before it is undone, the next dispatch picks a strictly later step or none. |
| SearchPage.Mark | index.js:1240-1260 | Marking a step done makes its test pass and changes no other step's test. |
| SearchPage.StepApplies | index.js:876-880 | The type step does its work only when the type select and its "Single/Return" option are found. |
| SearchPage.TypeStepFailsOnlyWhenUnmet | index.js:876-880 | When the type step fails, the trip-type condition does not hold. |
| SearchPage.AfterStep | index.js:872-1200 | The form once a step has done its work: the type step selects the option it found and keeps the list, origin and destination hold the settings, and the buttons no longer show their initial labels. `SearchPage.AfterStepObserved` states what the tests then see. |
| SearchPage.AfterTypeStep | index.js:872-886 | After the type step the tests see the trip type as set, and every other test as before. |
| SearchPage.AfterStepObserved | index.js:1240-1260 | Doing a step's work on the form is seen by the tests as that step done and nothing else. |
| SearchPage.StepsFromRank | index.js:1240-1260 | With exactly the steps before rank r done, successive calls take the remaining steps in order, then stop. |
| SearchPage.FreshFormTakesSevenSteps | index.js:1240-1260 | From a fresh form the calls take type, origin, destination, departure, return, passengers and Search, then nothing. |
| Stepper.RunEnd | index.js:972 | The digit run starting at i ends at the first non-digit. |
| Stepper.FirstMatchFrom | index.js:972 | The leftmost `\b\d+\b` match at or after i, and none when there is no match there. |
| Stepper.MatchNumber | index.js:972-977 | `match` finds nothing exactly when no position matches. Otherwise the value is that of the digit run at the leftmost matching position. |
| Stepper.ReadStepperValue | index.js:963-978 | A missing stepper is NaN. Otherwise the result is NaN exactly when neither the joined text nodes nor the whole text has a whole number. It is the text nodes' first number whenever they have one, and otherwise the whole text's first number. |
| Stepper.MatchOfNumeral | index.js:972-977 | A numeral with no digit before it and non-word characters around it is the number read. |
| Stepper.ReadsCountBetweenButtons | index.js:963-978 | Minus button, count text node padded with white space, plus button: the count is read, whatever the buttons contain. |
| Stepper.FallsBackToWholeText | index.js:974-975 | When the text nodes hold only white space, or there are none, the reading is that of the whole text. |
| Stepper.ReadsCountInSpan | index.js:974-977 | Three spans "-", "2", "+" read 2 through the fallback. |
| Stepper.GluedDigitsAreNotRead | index.js:972 | A number glued to a letter ("x1") is not a whole number. |
| Timing.Poll | index.js:71-84 | `W` returns the first probe that yields something, with every earlier probe empty. Every loop test it passed came before the timeout, and a null result means the last test came at or after it. |
| Timing.WaitedIsProduct | index.js:76-81 | The minimum sleep before the k+1-th probe is k times `pollMs`. |
| Timing.RetryWait | index.js:93-100 | At most `attempts` rounds. The result is the first round that found something, and null means every round failed. |
| Timing.PaceWait | index.js:235 | `pace` sleeps exactly when the gap since the last action has not elapsed. |
| Timing.Pacer.constructor | index.js:230 | No action has been taken yet: the last-action time is 0. |
| Timing.Pacer.Pace | index.js:230-238 | The last-action time becomes the clock after the sleep, at least `gap` after the previous action. |
| Timing.PacedTwice | index.js:230-238 | Two paced actions with drawn gaps are at least 150 ms apart, whatever the clock reads, when each sleep lasts as long as asked. |
| Typing.TypeLikeUser | index.js:304-329 | No element: nothing happens. Otherwise the value ends as the typed text and the element sees exactly focus, clear, input, one group per character, change and the caret move. |
| Typing.Field.constructor | index.js:304-306 | A field starts with its value and an empty event trace. |
| Typing.TypedKeysSpellValue | index.js:313-323 | The keydown events, in order, spell the typed text: one per character. |
| Typing.ValueWritesArePrefixes | index.js:310-315 | The value is written first as "" and then as each longer prefix, the last write being the whole text. |
| Typing.OneChangeAtTheEnd | index.js:325 | Exactly one `change` is dispatched, after every character's group. |
| Overlay.IsBlockingAdOverlay | index.js:457-472 | The overlay fingerprint. `Overlay.FingerprintIsAllTen` states it as a set inclusion. |
| Overlay.FingerprintIsAllTen | index.js:457-472 | The fingerprint holds exactly for an HTML element carrying all ten classes. |
| Overlay.OneMissingClassSpares | index.js:457-472 | Missing any one of the ten classes spares the element. |
| Overlay.Element.constructor | index.js:474-485 | A new element is attached with no inline display, pointer-events or opacity. |
| Overlay.Overlays | index.js:475 | The overlays are elements of the document that pass the selector and the fingerprint, and every such element is among them. |
| Overlay.OverlayIsFingerprintedDiv | index.js:475 | The selector adds only the `div` tag to the fingerprint. |
| Overlay.OverlaysDistinct | index.js:475 | The overlay list repeats no element. |
| Overlay.Neutralise | index.js:479-485 | A removable overlay is detached with its style untouched. Otherwise it stays attached, hidden and click-through. |
| Overlay.RemoveAdOverlaysOnce | index.js:474-490 | Returns the number of overlays. Each overlay is removed, or hidden when removal throws, and every other element is unchanged. |
| Overlay.OverlayGuard.constructor | index.js:492-493 | A new guard has not started. |
| Overlay.OverlayGuard.Start | index.js:492-502 | The first call runs a pass and installs one observer. Each overlay is removed, or hidden when removal throws, and every other element is unchanged. Later calls change nothing and return 0. |
| Overlay.StartTwice | index.js:492-502 | However often it is started, the guard has one observer. |
| Login.NextAt | index.js:348-350 | The stored item, or "0" when it is missing or empty, read by `parseInt`. `Login.StoredTimeReadsBack` and `Login.NothingStoredAllowsCheck` state what it reads. |
| Login.CanCheck | index.js:362-364 | The gate: the clock is at or past the stored time, and never against NaN. `Login.GateOpensAtScheduledTime` and `Login.GarbageClosesGate` state when it opens. |
| Login.NextCheckAt | index.js:356-360 | The clock plus the drawn cooldown. `Login.RescheduleWithinCooldown` bounds it. |
| Login.GateOpensAtScheduledTime | index.js:348-364 | After `setNextAt(t)`, `canCheck` holds exactly when `now >= t`. |
| Login.StoredTimeReadsBack | index.js:348-354 | `nextAt()` reads back the time `setNextAt` stored. |
| Login.NothingStoredAllowsCheck | index.js:348-364 | With no stored item, or an empty one, checks are allowed at every time from 0. |
| Login.GarbageClosesGate | index.js:348-364 | A stored value that does not start like a number closes the gate at every time. |
| Login.RescheduleWithinCooldown | index.js:356-360 | The rescheduled time reads back as itself, at least 10 minutes after the gate's clock and at most 15 minutes after the second clock reading. |
| Login.Scan | index.js:416-446 | The body of the guard's `try`. `Login.ScanClicksIffLoginShown` states when it clicks, raises and logs. |
| Login.ScanClicksIffLoginShown | index.js:416-446 | The scan clicks exactly when the header has a login whose click does not throw, or else a visible login appears once the menu is dealt with and neither the menu click nor the login click throws. It raises exactly when one of the clicks it makes throws. Its log shows the menu opened exactly when the menu click was made and completed, and it logs at most two events. |
| Login.FallbackNeverClicks | index.js:439-445 | The third scan never clicks. |
| Login.HeaderLoginFirst | index.js:420-426 | A header login is clicked first and the menu is left alone. |
| Login.MenuOpenedThenLoginThrows | index.js:428-436 | When the menu click completes and the login click after it throws, the scan raises with the menu already opened. |
| Login.LoginGuard.constructor | index.js:404 | A new guard holds the stored item, no check in flight and an empty log. |
| Login.LoginGuard.GuardLoginIfPresent | index.js:406-452 | Gate closed or a check in flight: returns false and changes nothing. Otherwise it stores the next check time before scanning, logs the reschedule first, returns the scan's outcome and leaves the in-flight flag clear. |
| Login.TwoChecksInOneWindow | index.js:406-452 | A second check inside the cooldown finds the gate closed and leaves the stored time and the log as the first check left them. |
| Automation.Runner.constructor | index.js:105-107 | A fresh runner is not busy and is paused exactly when storage holds "1". |
| Automation.Runner.SetPaused | index.js:109-112 | Sets `paused` and stores "1" or "0" to match. |
| Automation.Runner.TogglePaused | index.js:114-117 | Flips `paused`, returns the new value, and keeps storage in step. |
| Automation.Runner.Reset | index.js:119-122 | Clears `busy` and keeps the pause state. |
| Automation.Runner.Enter | index.js:1324-1331 | A busy runner ignores the click. A paused one shows the notice and changes nothing. Otherwise it becomes busy. |
| Automation.PauseSurvivesReload | index.js:105-112 | The pause state survives a page load through storage. |
| Automation.AfterGuard | index.js:1216-1269 | What `runOne` does once the login guard has returned. `Automation.StopsExactly` and `Automation.EveryPageHasAHandler` state it. |
| Automation.RunOneResult | index.js:1204-1270 | `runOne`'s result from the pause flag, the page and the guard's outcome. `Automation.StopsExactly` states when it stops. |
| Automation.NeverPausedWhenRunning | index.js:1205-1210 | A `runOne` that starts unpaused never returns the pause STOP. |
| Automation.PaymentEndsHop | index.js:1227-1232 | A hop that meets the payment page stops or throws, whatever the login guard did. |
| Automation.StopsExactly | index.js:1204-1232 | `runOne` returns STOP exactly when paused, when the login guard clicked, or on the payment page, and the reason names which. |
| Automation.EveryPageHasAHandler | index.js:1236-1269 | Acting on a page means one of the four later pages, or a search step on the search page. |
| Automation.NoActionOnlyOnFinishedSearch | index.js:1240-1260 | `runOne` does nothing only on a search page whose seven steps are all done. |
| Automation.SearchActsOnFirstPendingStep | index.js:1240-1260 | On the search page `runOne` acts on the first step not done yet. |
| Automation.RunOne | index.js:1204-1270 | When paused or not ready, the guard is not reached. Otherwise the result is that of the guard's outcome, with the guard's own contract. |
| Automation.UserClicks | index.js:754-768 | During a run: Pause/Resume toggles the pause state. Reset clears `busy` and keeps the pause state. GO and Next are ignored while busy, show the notice while paused, and otherwise enter and set `busy`. |
| Automation.ResetLetsSecondRunIn | index.js:762-768 | After Reset during a run, a GO click enters a second run. |
| Automation.Runner.Leave | index.js:1339-1341 | The handlers' `finally`: clears `busy` and keeps the pause state. |
| Automation.GateReadsItem | index.js:408-409 | The login gate of an unpaused hop opens exactly when the app was ready, `canCheck` holds for the item in storage and no check is in flight, whether that item is the one found at the start of the run or a time a hop of the run scheduled. |
| Automation.SetActsAsItem | index.js:348-354 | A time a hop stored reads back in the next hop as the item holding it: the next guard step reports, logs and stores the same. |
| Automation.GuardOverLength | index.js:1277-1297 | The login guard's fold over n hops holds one report per hop. |
| Automation.GuardOverReport | index.js:406-452 | Hop i's login report is the guard's step from the stored time the hops before it left; later hops do not change it. |
| Automation.NoSecondCheckInCooldown | index.js:406-413 | After a hop whose guard got past its gate, storage holds the time it scheduled, `canCheck` is false for the next hop while its clock is before that time, and that hop's guard reports nothing clicked. |
| Automation.InflightGuardStaysShut | index.js:406-411 | A guard found with a check in flight reports nothing clicked in every hop of a run, keeps the stored time and logs nothing. |
| Automation.GuardActsAsHop | index.js:406-452 | What the login guard's own contract says of one call is one step of the guard's fold: same report, same stored item, same log, in-flight flag unchanged. |
| Automation.Hop | index.js:1288 | One hop: the result is `runOne`'s for the page it met and the guard's report. The report, the stored time and the guard's log are one step of the guard's fold from what storage held, and the in-flight flag is unchanged. A hop that goes on did not meet the payment page. |
| Automation.HopAt | index.js:1277-1297 | Hop n runs with the login guard where hops 0 to n - 1 left it, and extends the guard's fold by one hop. |
| Automation.ClickDuringHop | index.js:754-768 | The user's click during hop n moves the pause state on by that click: a Pause click flips it, other clicks leave it. |
| Automation.GoHop | index.js:1277-1297 | One pass of the loop on an unpaused runner: hop n is traced and folded into the guard's run, and the user's click during it moves the pause state on. It ends the run exactly when the hop stopped or threw, with that reason or failure; otherwise the hop went on. |
| Automation.RunGo | index.js:1272-1301 | At most 12 hops. Hop i's result is `runOne`'s for what hop i met and what the login guard reported there, and those reports, the stored time and the guard's log are the guard's fold over the hops, in-flight flag unchanged. The runner was unpaused at the top of every hop made, and the pause state afterwards is the start state moved on by the user's click during each hop made, the last one included. Only the last hop may STOP or throw, and none before it met the payment page. The run ends after 12 hops exactly when all 12 went on, at the top of a hop exactly when the clicks so far paused it and every hop made went on, and by a throw exactly when the last hop threw. A pause at the start means no hop and nothing changed; otherwise at least one hop. |
| Automation.GoBody | index.js:1333-1341 | The GO handler after it entered: 1 to 12 hops with `runGo`'s trace and guard fold, the runner unpaused at the top of each, the pause state moved on by the click during each hop, `busy` released. It ends Completed or Errored, Errored exactly when the last hop threw and with that failure; Completed means no hop threw. |
| Automation.OnGo | index.js:1321-1343 | Ignored while busy, refused while paused, with nothing changed. Otherwise `runGo` makes 1 to 12 hops with its trace and the login guard's fold, the pause state ends moved on by the click during each hop, and `busy` is released however it ends. The outcome is then Completed or Errored, Errored exactly when the last hop threw; Completed means none did. |
| Automation.OnNext | index.js:1345-1369 | Ignored while busy, refused while paused, with nothing changed. Otherwise one `runOne` runs on what it met and its result is returned; the guard is reached exactly when the app was ready, and its report, stored time and log are one step of the guard's fold. `busy` is released however it ends and the pause state is kept. The outcome is then Completed or Errored, Errored exactly when `runOne` threw. |
| Options.TimeLabel | index.js:546 | An hour's label. `Options.TimeLabelReadsBack` and `Options.TimeLabelsDistinct` state its shape. |
| Options.TimeOptions | index.js:544-548 | Exactly 24 options, hour h's label at position h. |
| Options.TimeLabelReadsBack | index.js:544-548 | Each label is five characters, two digits then ".00", and reads back as its hour. |
| Options.TimeLabelsDistinct | index.js:544-548 | No two hours share a label. |
| Options.DefaultTimesOffered | index.js:51-56 | The default times "07.00" and "17.00" are the labels of hours 7 and 17. |
| Options.DefaultStopsOffered | index.js:34-56 | The default stops are among the offered ones. |
| Options.NumberOptions | index.js:641-645 | `mkNumber` lists `String(i)` for each i from min to max, in order. |
| Options.DayOptionReadsBack | index.js:712 | Each day option reads back as its day. |
| Options.GetSettings | index.js:550-558 | A present control's value is taken as it is, even when empty; a missing one yields its default. The day is `parseInt` of the day control's value, and today's date when that control is missing. |
| Options.PickedDayIsRead | index.js:550-558 | A day picked from the options is the day the settings carry. |

## Left out

- Panel construction, styling, logging and notifications (`ensureUI`, `notify`, `panelLog` and the rest): presentation only.
- DOM watching and re-mounting (`MutationObserver` callbacks, `watchSPA`, `observeMount`, `mount`): browser event plumbing. The overlay guard keeps a count of installed observers instead.
- CSS selector queries and `visible()`: each finder's result and each visibility test is an input.
- Mouse-event coordinates in `clickHumanPaced`: floating point. A click is reduced to whether it throws.
- Real time: `setTimeout`, `requestAnimationFrame` and the sleeps are not modelled. `Date.now()` is a clock reading passed in, and `Math.random` draws are bounded parameters.
- Full Unicode `\s` and `toLowerCase`: the model uses ASCII white space plus no-break space, and ASCII case folding.
- The step handlers `step_type` … `step_details` (index.js:872-1200): each is reduced to whether it throws. Their effect on the search form is modelled by `SearchPage.AfterStep`.
- `step_passengers_searchpage` (index.js:980-1044): not modelled beyond `readStepperValue`. As written it declares `const controls` (index.js:988, 1026) and `const doneBtn` (index.js:1007, 1033) twice in one scope, which is an early `SyntaxError` in JavaScript, so the script does not load as written. It also reads `adultLi` and `list` before declaring them.
- Automation.UserClicks: a GO click after Reset starts a second `runGo` beside the first (index.js:762-768, 1324). The model shows that second run entering (`Automation.ResetLetsSecondRunIn`) but does not interleave the two loops.
- Finders.SelectAt: `sel.value = opt.value` selects the first option with that value. The model assumes option values are distinct, so that this is the option found.
- `waitAppReady` (index.js:507-537): reduced to its boolean result.
- The waits between hops in `runGo` (index.js:1292-1293): they only pass time.
- `WV` and `findButtonContainingSvg`: selector helpers.
- Login.LoginGuard.GuardLoginIfPresent: storage writes are taken to succeed. In the source `scheduleNext` (index.js:413) runs after the in-flight flag is set (index.js:411) and outside the `try` (index.js:415), so a `localStorage.setItem` that throws skips the `finally` (index.js:449-451): the flag stays set and the login check never runs again on that page. `Automation.InflightGuardStaysShut` states what every later hop of a run then does.
- Login.Scan: its log records clicks that completed (`MenuOpened`, `LoginClicked`). The source logs "Mobile menu button detected" (index.js:398) and "Login detected … clicking" (index.js:422, 433, 442) before clicking, so where that click throws the source has logged a line and the model's log has nothing for it.
- Numbers.ParseIntRoundTrip: JavaScript numbers are IEEE doubles and the model's are unbounded integers. `String` and `parseInt` agree with the model only for safe integers (magnitude at most 2^53 - 1). From 1e21 up `String` prints exponent notation, so `parseInt(String(1e21), 10)` is 1, and a longer run of digits is rounded when read. Every number the core prints or reads is a safe integer: clock readings plus the cooldown (about 1.8e12), hours, days and passenger counts.
- Numbers.NatToDecimal: agrees with JavaScript's `String` only for safe integers, for the reason given for `Numbers.ParseIntRoundTrip`.
- Numbers.IntToString: agrees with JavaScript's `String` only for safe integers, for the same reason.
- Typing.TypeLikeUser: a string is a sequence of characters, where JavaScript's is a sequence of UTF-16 code units. `value.length`, `value[i]` and the caret positions of `typeLikeUser` (index.js:313-324) count code units, so a character outside the Basic Multilingual Plane is typed as two halves there and as one character here.
- Automation.OnNext: the user's clicks while a Next run is under way are not modelled; the handler leaves the pause state as it found it.
- Automation.RunGo: a throw from `runOne` ends the run as `Threw`. Exceptions other than the four modelled failures are not distinguished.
- Timing.Poll: the bound on probes is stated through `Waited`; `Timing.WaitedIsProduct` turns it into `(probes - 1) * pollMs < timeoutMs`.
