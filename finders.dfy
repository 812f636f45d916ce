/**
 * The text tests that the site finders of index.js apply to candidate
 * elements: the calendar-day match of `findFlatpickrDay`, the "Continue"
 * button match of the results page, the exact "login" label of the login
 * guard and the "Single/Return" trip-type option. Elements are reduced to
 * the attributes these tests read; how they are located is not modelled.
 */
module Finders {
  import opened Wrappers
  import opened Text
  import Numbers

  /** `Array.prototype.find`, as the index of the first element satisfying `p`. */
  function FindFirst<T>(s: seq<T>, p: T -> bool): (r: Option<nat>)
    ensures r.Some? ==> r.value < |s| && p(s[r.value])
    ensures r.Some? ==> forall j | 0 <= j < r.value :: !p(s[j])
    ensures r.None? ==> forall j | 0 <= j < |s| :: !p(s[j])
  {
    if s == [] then None
    else if p(s[0]) then Some(0)
    else match FindFirst(s[1..], p)
      case None => None
      case Some(k) => Some(k + 1)
  }

  /** One `.flatpickr-day` cell of the date picker. */
  datatype DayCell = DayCell(classes: set<string>, visible: bool, text: string)

  /** `String(dayNum)`; a day that failed to parse is NaN and prints as "NaN". */
  function DayLabel(day: Option<int>): string {
    match day
    case None => "NaN"
    case Some(d) => Numbers.IntToString(d)
  }

  /** The test `findFlatpickrDay` applies to each cell (index.js:815-818). */
  predicate IsPickableDay(cell: DayCell, day: Option<int>) {
    && "disabled" !in cell.classes
    && "prevMonthDay" !in cell.classes
    && "nextMonthDay" !in cell.classes
    && cell.visible
    && Norm(cell.text) == DayLabel(day)
  }

  /** `findFlatpickrDay` (index.js:812-821): the first pickable cell, in document order. */
  function FindCalendarDay(cells: seq<DayCell>, day: Option<int>): Option<nat> {
    FindFirst(cells, c => IsPickableDay(c, day))
  }

  /**
   * The cell `findFlatpickrDay` returns is enabled, belongs to the shown
   * month, is visible, and its text reads back as the requested day; every
   * earlier cell fails one of these.
   */
  lemma CalendarDayFound(cells: seq<DayCell>, d: int)
    ensures var r := FindCalendarDay(cells, Some(d));
      && (r.Some? ==>
            && r.value < |cells|
            && cells[r.value].visible
            && "disabled" !in cells[r.value].classes
            && "prevMonthDay" !in cells[r.value].classes
            && "nextMonthDay" !in cells[r.value].classes
            && Numbers.ParseInt(Norm(cells[r.value].text)) == Some(d))
      && (r.Some? ==> forall j | 0 <= j < r.value :: !IsPickableDay(cells[j], Some(d)))
      && (r.None? ==> forall j | 0 <= j < |cells| :: !IsPickableDay(cells[j], Some(d)))
  {
    Numbers.ParseIntRoundTrip(d);
  }

  /**
   * A visible, enabled, current-month cell rendering the day's numeral with
   * layout white space around it is picked for that day.
   */
  lemma RenderedDayIsPickable(classes: set<string>, pre: string, d: nat, post: string)
    requires "disabled" !in classes && "prevMonthDay" !in classes && "nextMonthDay" !in classes
    requires IsAllSpace(pre) && IsAllSpace(post)
    ensures IsPickableDay(DayCell(classes, true, pre + Numbers.NatToDecimal(d) + post), Some(d))
  {
    var x := Numbers.NatToDecimal(d);
    assert NoSpace(x) by {
      forall i | 0 <= i < |x| ensures !IsSpace(x[i]) {
        assert Numbers.IsDigit(x[i]);
      }
    }
    NormOfPadded(pre, x, post);
  }

  /** The Continue-button test of the results step (index.js:1116-1117). */
  predicate IsContinueLabel(text: string) {
    var t := Lower(Norm(text));
    t == "continue" || (Contains(t, "continue") && !Contains(t, "billing"))
  }

  /**
   * The exact-match disjunct is subsumed: a label is a Continue label exactly
   * when its normal form mentions "continue" and does not mention "billing".
   */
  lemma ContinueLabelMeaning(text: string)
    ensures IsContinueLabel(text)
      <==> Contains(Lower(Norm(text)), "continue") && !Contains(Lower(Norm(text)), "billing")
  {
    var w := "continue";
    assert OccursAt(w, w, 0);
    assert !Contains(w, "billing") by {
      forall i | 0 <= i <= |w| - 7 ensures !OccursAt(w, "billing", i) {
        assert w[i..i + 7][0] == w[i] != 'b';
      }
    }
  }

  /** One element the login guard looks at, with `textOf(el)` and `visible(el)`. */
  datatype Candidate = Candidate(text: string, visible: bool)

  /** The label test of the login guard (index.js:375, index.js:387). */
  predicate IsLoginLabel(text: string) {
    Lower(Norm(text)) == "login"
  }

  /** The login label test is `eq(text, "login")`. */
  lemma LoginLabelIsEq(text: string)
    ensures IsLoginLabel(text) <==> Eq(text, "login")
  {
    LoginWordIsNormal("login");
  }

  /** "login" is its own normal form, in lower case already. */
  lemma LoginWordIsNormal(w: string)
    requires w == "login"
    ensures Lower(Norm(w)) == w
  {
    assert NoSpace(w) by {
      forall i | 0 <= i < |w| ensures !IsSpace(w[i]) {
        assert w[i] in {'l', 'o', 'g', 'i', 'n'};
      }
    }
    NormOfWord(w);
    assert Lower(w) == w;
  }

  /** `findLoginInHeader` (index.js:370-376): the first header link labelled "login". */
  function FindHeaderLogin(links: seq<Candidate>): Option<nat> {
    FindFirst(links, (a: Candidate) => IsLoginLabel(a.text))
  }

  /** `findVisibleLoginAnywhere` (index.js:382-390): the first visible element labelled "login". */
  function FindVisibleLogin(elements: seq<Candidate>): Option<nat> {
    FindFirst(elements, (e: Candidate) => e.visible && IsLoginLabel(e.text))
  }

  /** One `<option>` of the trip-type select. */
  datatype SelectOption = SelectOption(text: string, selected: bool)

  /** The type condition of `inferSearchStep` (index.js:1067-1069). */
  predicate SingleReturnSelected(options: seq<SelectOption>) {
    exists i | 0 <= i < |options| :: options[i].selected && Eq(options[i].text, "Single/Return")
  }

  /** `step_type`'s `find` (index.js:879): the first option whose text `eq`s "Single/Return". */
  function FindSingleReturn(options: seq<SelectOption>): Option<nat> {
    FindFirst(options, (o: SelectOption) => Eq(o.text, "Single/Return"))
  }

  /**
   * `sel.value = opt.value` (index.js:883): option `k` becomes the selected
   * one and every other option is deselected; the list itself is kept.
   */
  function SelectAt(options: seq<SelectOption>, k: nat): (r: seq<SelectOption>)
    requires k < |options|
    ensures |r| == |options|
    ensures forall i | 0 <= i < |r| :: r[i].text == options[i].text
    ensures forall i | 0 <= i < |r| :: r[i].selected <==> i == k
  {
    seq(|options|, i requires 0 <= i < |options| => SelectOption(options[i].text, i == k))
  }

  /**
   * Selecting the option `step_type` finds meets the trip-type condition of
   * `inferSearchStep`, whatever else the list holds.
   */
  lemma ChosenTypeSelected(options: seq<SelectOption>)
    requires FindSingleReturn(options).Some?
    ensures SingleReturnSelected(SelectAt(options, FindSingleReturn(options).value))
  {
    var k := FindSingleReturn(options).value;
    var r := SelectAt(options, k);
    assert r[k].selected && Eq(r[k].text, "Single/Return");
  }

  /**
   * When `step_type` finds no "Single/Return" option it fails, and no
   * selection in that list could have met the trip-type condition.
   */
  lemma NoOptionNoType(options: seq<SelectOption>)
    requires FindSingleReturn(options).None?
    ensures !SingleReturnSelected(options)
  {
  }
}
