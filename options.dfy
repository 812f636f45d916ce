/**
 * The choices of the settings panel and how they are read back:
 * `timeOptions` (index.js:544-548), the numeric options of `mkNumber`
 * (index.js:641-645) used for the day of travel (index.js:712), the
 * defaults (index.js:34-56) and `getSettings` (index.js:550-558).
 */
module Options {
  import opened Wrappers
  import opened Numbers
  import opened SearchPage

  /** `OPTIONS.from` and `OPTIONS.to` (index.js:34-48): the same five stops. */
  const Stops: seq<string> := [
    "Dunblane Newton Loan",
    "Grangemouth Inchyra Rd",
    "Grangemouth",
    "Edinburgh Princes Street",
    "Edinburgh Shandwick Place"
  ]

  /** `DEFAULTS` (index.js:51-56). */
  const DefaultFrom: string := "Grangemouth Inchyra Rd"
  const DefaultTo: string := "Edinburgh Princes Street"
  const DefaultDepartTime: string := "07.00"
  const DefaultReturnTime: string := "17.00"

  /** `String(h).padStart(2, "0") + ".00"`. */
  function TimeLabel(h: nat): string {
    PadStart(NatToDecimal(h), 2, '0') + ".00"
  }

  /** `timeOptions`: the 24 hours of the day, in order. */
  method TimeOptions() returns (out: seq<string>)
    ensures |out| == 24
    ensures forall h | 0 <= h < 24 :: out[h] == TimeLabel(h)
  {
    out := [];
    var h := 0;
    while h <= 23
      invariant 0 <= h <= 24 && |out| == h
      invariant forall k | 0 <= k < h :: out[k] == TimeLabel(k)
    {
      out := out + [TimeLabel(h)];
      h := h + 1;
    }
  }

  /** The two digits of an hour label. */
  lemma HourDigits(h: nat)
    requires h < 24
    ensures var d := PadStart(NatToDecimal(h), 2, '0');
      |d| == 2 && AllDigits(d) && DigitsValue(d) == h
  {
    var x := NatToDecimal(h);
    DecimalRoundTrip(h);
    if h < 10 {
      assert PadStart(x, 2, '0') == "0" + x;
      LeadingZero(x);
    } else {
      assert h / 10 < 10;
      assert |x| == 2;
    }
  }

  /**
   * Every hour label is five characters, two digits then ".00", and
   * `parseInt` reads it back as its hour.
   */
  lemma TimeLabelReadsBack(h: nat)
    requires h < 24
    ensures |TimeLabel(h)| == 5 && TimeLabel(h)[2..] == ".00"
    ensures ParseInt(TimeLabel(h)) == Some(h)
  {
    TimeLabelShape(h);
    TimeLabelParses(h);
  }

  lemma TimeLabelShape(h: nat)
    requires h < 24
    ensures |TimeLabel(h)| == 5 && TimeLabel(h)[2..] == ".00"
  {
    HourDigits(h);
    var d := PadStart(NatToDecimal(h), 2, '0');
    assert TimeLabel(h)[2..] == (d + ".00")[|d|..];
  }

  lemma TimeLabelParses(h: nat)
    requires h < 24
    ensures ParseInt(TimeLabel(h)) == Some(h)
  {
    HourDigits(h);
    ParseIntPrefix(PadStart(NatToDecimal(h), 2, '0'), ".00");
  }

  /** No two hours share a label. */
  lemma TimeLabelsDistinct(h1: nat, h2: nat)
    requires h1 < 24 && h2 < 24 && h1 != h2
    ensures TimeLabel(h1) != TimeLabel(h2)
  {
    TimeLabelReadsBack(h1);
    TimeLabelReadsBack(h2);
  }

  /** The default times are the labels of hours 7 and 17, so both are offered. */
  lemma DefaultTimesOffered()
    ensures TimeLabel(7) == DefaultDepartTime
    ensures TimeLabel(17) == DefaultReturnTime
  {
    assert NatToDecimal(7) == "7";
    assert PadStart("7", 2, '0') == "07";
    assert NatToDecimal(1) == "1";
    assert NatToDecimal(17) == "17";
  }

  /** The default stops are among the offered ones. */
  lemma DefaultStopsOffered()
    ensures DefaultFrom in Stops && DefaultTo in Stops
  {
    assert Stops[1] == DefaultFrom && Stops[3] == DefaultTo;
  }

  /** `mkNumber`'s option list: `String(i)` for every `i` from `min` to `max`. */
  method NumberOptions(min: int, max: int) returns (out: seq<string>)
    ensures |out| == if max < min then 0 else max - min + 1
    ensures forall k | 0 <= k < |out| :: out[k] == IntToString(min + k)
  {
    out := [];
    var i := min;
    while i <= max
      invariant min <= i && (i <= max + 1 || (max < min && i == min))
      invariant |out| == i - min
      invariant forall k | 0 <= k < |out| :: out[k] == IntToString(min + k)
    {
      out := out + [IntToString(i)];
      i := i + 1;
    }
  }

  /** The day options of the panel (index.js:712) read back as the day they show. */
  lemma DayOptionReadsBack(day: int)
    requires 1 <= day <= 31
    ensures ParseInt(IntToString(day)) == Some(day)
    ensures IntToString(day) == NatToDecimal(day)
  {
    ParseIntRoundTrip(day);
  }

  /**
   * `getSettings`: each control's value, or the default when the control is
   * missing; the day is `parseInt` of the day control's value, or of today's
   * date when it is missing.
   */
  function GetSettings(from: Option<string>, to: Option<string>, day: Option<string>,
                       dep: Option<string>, ret: Option<string>, today: nat): (st: Settings)
    ensures st.from == if from.Some? then from.value else DefaultFrom
    ensures st.to == if to.Some? then to.value else DefaultTo
    ensures st.departTime == if dep.Some? then dep.value else DefaultDepartTime
    ensures st.returnTime == if ret.Some? then ret.value else DefaultReturnTime
    ensures day.Some? ==> st.day == ParseInt(day.value)
    ensures day.None? ==> st.day == Some(today)
  {
    ParseIntRoundTrip(today);
    Settings(
      from.GetOr(DefaultFrom),
      to.GetOr(DefaultTo),
      ParseInt(day.GetOr(IntToString(today))),
      dep.GetOr(DefaultDepartTime),
      ret.GetOr(DefaultReturnTime))
  }

  /** A day picked from the panel's options is the day the settings carry. */
  lemma PickedDayIsRead(from: Option<string>, to: Option<string>, dep: Option<string>, ret: Option<string>,
                        day: int, today: nat)
    requires 1 <= day <= 31
    ensures GetSettings(from, to, Some(IntToString(day)), dep, ret, today).day == Some(day)
  {
    DayOptionReadsBack(day);
  }
}
