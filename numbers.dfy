/**
 * Decimal numerals as index.js prints and reads them: `String(n)`,
 * `padStart(2, "0")` and `parseInt(s, 10)`, with NaN as `None`.
 */
module Numbers {
  import opened Wrappers
  import Text

  predicate IsDigit(c: char) {
    '0' <= c <= '9'
  }

  predicate AllDigits(s: string) {
    forall i | 0 <= i < |s| :: IsDigit(s[i])
  }

  function DigitChar(d: nat): (c: char)
    requires d < 10
    ensures IsDigit(c)
  {
    ('0' as int + d) as char
  }

  function DigitValue(c: char): (d: nat)
    requires IsDigit(c)
    ensures d < 10 && DigitChar(d) == c
  {
    c as int - '0' as int
  }

  /** `String(n)` for a non-negative integer: digits only, no leading zero. */
  function NatToDecimal(n: nat): (s: string)
    ensures |s| >= 1 && AllDigits(s)
    ensures |s| > 1 ==> s[0] != '0'
    ensures n < 10 <==> |s| == 1
  {
    if n < 10 then [DigitChar(n)]
    else NatToDecimal(n / 10) + [DigitChar(n % 10)]
  }

  /** The value of a string of digits read in base 10. */
  function DigitsValue(s: string): nat
    requires AllDigits(s)
  {
    if s == [] then 0
    else 10 * DigitsValue(s[..|s| - 1]) + DigitValue(s[|s| - 1])
  }

  /** Reading back what `String(n)` printed gives `n`. */
  lemma {:induction false} DecimalRoundTrip(n: nat)
    ensures DigitsValue(NatToDecimal(n)) == n
  {
    if n >= 10 {
      var s := NatToDecimal(n);
      assert s[..|s| - 1] == NatToDecimal(n / 10);
      DecimalRoundTrip(n / 10);
    }
  }

  /** Leading zeros do not change the value of a digit string. */
  lemma {:induction false} LeadingZero(s: string)
    requires AllDigits(s)
    ensures DigitsValue("0" + s) == DigitsValue(s)
  {
    if s != [] {
      assert ("0" + s)[..|s|] == "0" + s[..|s| - 1];
      LeadingZero(s[..|s| - 1]);
    }
  }

  /** `String(i)` for any integer. */
  function IntToString(i: int): (s: string)
    ensures s != []
  {
    if i < 0 then "-" + NatToDecimal(-i) else NatToDecimal(i)
  }

  /** The longest prefix of `s` made of digits. */
  function LeadingDigits(s: string): (r: string)
    ensures |r| <= |s| && r == s[..|r|] && AllDigits(r)
    ensures |r| == |s| || !IsDigit(s[|r|])
  {
    if s == [] || !IsDigit(s[0]) then []
    else [s[0]] + LeadingDigits(s[1..])
  }

  /** A digit string followed by anything that does not start with a digit. */
  lemma {:induction false} LeadingDigitsOf(d: string, rest: string)
    requires AllDigits(d)
    requires rest == [] || !IsDigit(rest[0])
    ensures LeadingDigits(d + rest) == d
  {
    if d == [] {
      assert d + rest == rest;
    } else {
      assert (d + rest)[1..] == d[1..] + rest;
      LeadingDigitsOf(d[1..], rest);
    }
  }

  /**
   * `parseInt(s, 10)`: skip leading white space, take one optional sign, then
   * the longest run of digits; no digits gives NaN (`None`).
   */
  function ParseInt(s: string): Option<int> {
    ParseTrimmed(Text.TrimStart(s))
  }

  /** `parseInt` once the leading white space is gone. */
  function ParseTrimmed(t: string): Option<int> {
    var z := LeadingDigits(Unsigned(t));
    if z == [] then None
    else if t[0] == '-' then Some(-(DigitsValue(z) as int))
    else Some(DigitsValue(z))
  }

  /** `t` without its leading `+` or `-`, if any. */
  function Unsigned(t: string): string {
    if t != [] && (t[0] == '-' || t[0] == '+') then t[1..] else t
  }

  /** `parseInt` reads the leading numeral of a string and ignores the rest. */
  lemma ParseIntPrefix(d: string, rest: string)
    requires d != [] && AllDigits(d)
    requires rest == [] || !IsDigit(rest[0])
    ensures ParseInt(d + rest) == Some(DigitsValue(d))
  {
    var s := d + rest;
    assert s[0] == d[0] && !Text.IsSpace(s[0]);
    assert Text.TrimStart(s) == s;
    assert Unsigned(s) == s;
    LeadingDigitsOf(d, rest);
  }

  /** Text that starts with neither white space, a sign nor a digit is NaN. */
  lemma ParseIntNoNumeral(s: string)
    requires s != [] && !Text.IsSpace(s[0]) && s[0] != '-' && s[0] != '+' && !IsDigit(s[0])
    ensures ParseInt(s) == None
  {
    assert Text.TrimStart(s) == s;
    assert Unsigned(s) == s;
    assert LeadingDigits(s) == [];
  }

  /** A plain digit string reads as its value. */
  lemma ParseIntOfDigits(d: string)
    requires d != [] && AllDigits(d)
    ensures ParseInt(d) == Some(DigitsValue(d))
  {
    ParseIntPrefix(d, []);
    assert d + [] == d;
  }

  /** A string of digits is its own leading numeral. */
  lemma LeadingDigitsAll(d: string)
    requires AllDigits(d)
    ensures LeadingDigits(d) == d
  {
    LeadingDigitsOf(d, []);
    assert d + [] == d;
  }

  /** A minus sign and a digit string read as the negated value. */
  lemma ParseIntOfNegative(d: string, n: int)
    requires d != [] && AllDigits(d) && n == DigitsValue(d)
    ensures ParseInt("-" + d) == Some(-n)
  {
    var t := "-" + d;
    SignedAt(d);
    assert t[1..] == d;
    ParseTrimmedNegative(t, d, n);
  }

  lemma ParseTrimmedNegative(t: string, d: string, n: int)
    requires d != [] && AllDigits(d) && n == DigitsValue(d)
    requires t != [] && t[0] == '-' && t[1..] == d
    ensures ParseTrimmed(t) == Some(-n)
  {
    LeadingDigitsAll(d);
  }

  lemma SignedAt(d: string)
    ensures Text.TrimStart("-" + d) == "-" + d
  {
    Text.TrimStartAt("-" + d);
  }

  /** `parseInt("0")`, what an empty or missing stored time falls back to. */
  lemma ParseIntZero()
    ensures ParseInt("0") == Some(0)
  {
    ParseIntOfDigit('0');
  }

  lemma ParseIntOfDigit(c: char)
    requires IsDigit(c)
    ensures ParseInt([c]) == Some(DigitValue(c))
  {
    var d := [c];
    assert d[..|d| - 1] == [];
    assert DigitsValue(d) == DigitValue(c);
    ParseIntOfDigits(d);
  }

  /** `parseInt(String(i), 10) == i` for every integer. */
  lemma ParseIntRoundTrip(i: int)
    ensures ParseInt(IntToString(i)) == Some(i)
  {
    var n: nat := if i < 0 then -i else i;
    DecimalRoundTrip(n);
    if i < 0 {
      ParseIntOfNegative(NatToDecimal(n), n);
    } else {
      ParseIntOfDigits(NatToDecimal(n));
    }
  }

  /** `s.padStart(n, c)`. */
  function PadStart(s: string, n: nat, c: char): (r: string)
    ensures |r| == if |s| >= n then |s| else n
    ensures r[|r| - |s|..] == s
    ensures forall i | 0 <= i < |r| - |s| :: r[i] == c
  {
    if |s| >= n then s else seq(n - |s|, _ => c) + s
  }
}
