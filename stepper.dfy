/**
 * `readStepperValue` (index.js:963-978): the passenger count shown between
 * the minus and plus buttons of a stepper, read as the first whole number
 * (`/\b\d+\b/`) of its text nodes, or failing that of its whole text.
 */
module Stepper {
  import opened Wrappers
  import opened Text
  import opened Numbers

  /** A character that `\w` matches: `[A-Za-z0-9_]`. */
  predicate IsWordChar(c: char) {
    IsDigit(c) || ('a' <= c <= 'z') || ('A' <= c <= 'Z') || c == '_'
  }

  /** The end of the run of digits that starts at `i`. */
  function RunEnd(s: string, i: nat): (j: nat)
    requires i <= |s|
    ensures i <= j <= |s|
    ensures forall k | i <= k < j :: IsDigit(s[k])
    ensures j == |s| || !IsDigit(s[j])
    decreases |s| - i
  {
    if i == |s| || !IsDigit(s[i]) then i else RunEnd(s, i + 1)
  }

  /**
   * `/\b\d+\b/` matches at `i`: a digit with no word character before it,
   * whose run of digits is not followed by a word character. (A shorter run
   * never ends on a word boundary, since a digit follows it.)
   */
  predicate MatchAt(s: string, i: nat)
    requires i < |s|
  {
    && IsDigit(s[i])
    && (i == 0 || !IsWordChar(s[i - 1]))
    && (RunEnd(s, i) == |s| || !IsWordChar(s[RunEnd(s, i)]))
  }

  /** The leftmost match at or after `i`. */
  function FirstMatchFrom(s: string, i: nat): (r: Option<nat>)
    requires i <= |s|
    ensures r.Some? ==> i <= r.value < |s| && MatchAt(s, r.value)
    ensures r.Some? ==> forall k | i <= k < r.value :: !MatchAt(s, k)
    ensures r.None? ==> forall k | i <= k < |s| :: !MatchAt(s, k)
    decreases |s| - i
  {
    if i == |s| then None
    else if MatchAt(s, i) then Some(i)
    else FirstMatchFrom(s, i + 1)
  }

  /** The pattern matches nowhere in `s`. */
  predicate NoMatch(s: string) {
    forall k | 0 <= k < |s| :: !MatchAt(s, k)
  }

  /** `parseInt(s.match(/\b\d+\b/)[0], 10)`, or `None` when there is no match. */
  function MatchNumber(s: string): (r: Option<nat>)
    ensures r.None? <==> NoMatch(s)
    ensures r.Some? ==> exists k | 0 <= k < |s| && MatchAt(s, k) ::
      && (forall j | 0 <= j < k :: !MatchAt(s, j))
      && r.value == DigitsValue(s[k..RunEnd(s, k)])
  {
    match FirstMatchFrom(s, 0)
    case None => None
    case Some(k) => Some(DigitsValue(s[k..RunEnd(s, k)]))
  }

  /** A child of the stepper: a text node, or an element with its `textContent`. */
  datatype ChildNode = TextNode(text: string) | ElementNode(content: string)

  function NodeText(n: ChildNode): string {
    match n
    case TextNode(t) => t
    case ElementNode(t) => t
  }

  /** The trimmed texts of the text-node children, in order. */
  function TextNodeTexts(cs: seq<ChildNode>): (r: seq<string>)
    ensures |r| <= |cs|
  {
    if cs == [] then []
    else if cs[0].TextNode? then [Trim(cs[0].text)] + TextNodeTexts(cs[1..])
    else TextNodeTexts(cs[1..])
  }

  /** The `textContent` of the stepper: all its children's text, concatenated. */
  function FullText(cs: seq<ChildNode>): string {
    if cs == [] then [] else NodeText(cs[0]) + FullText(cs[1..])
  }

  /** `readStepperValue`; `None` is NaN, and also stands for a missing stepper. */
  function ReadStepperValue(controls: Option<seq<ChildNode>>): (r: Option<nat>)
    ensures controls.None? ==> r.None?
    ensures controls.Some? ==>
      (r.None? <==> NoMatch(Join(TextNodeTexts(controls.value), " ")) && NoMatch(FullText(controls.value)))
    ensures controls.Some? && !NoMatch(Join(TextNodeTexts(controls.value), " ")) ==>
      r == MatchNumber(Join(TextNodeTexts(controls.value), " "))
    ensures controls.Some? && NoMatch(Join(TextNodeTexts(controls.value), " ")) ==>
      r == MatchNumber(FullText(controls.value))
  {
    match controls
    case None => None
    case Some(cs) =>
      var m := MatchNumber(Join(TextNodeTexts(cs), " "));
      if m.Some? then m else MatchNumber(FullText(cs))
  }

  predicate NoDigit(s: string) {
    forall k | 0 <= k < |s| :: !IsDigit(s[k])
  }

  /** The digits of `d` run from `|pre|` to the end of `d`. */
  lemma RunOfNumeral(pre: string, d: string, post: string)
    requires d != [] && AllDigits(d)
    requires post == [] || !IsWordChar(post[0])
    ensures RunEnd(pre + d + post, |pre|) == |pre| + |d|
  {
    var s := pre + d + post;
    assert forall k | |pre| <= k < |pre| + |d| :: s[k] == d[k - |pre|];
    assert |pre| + |d| < |s| ==> s[|pre| + |d|] == post[0];
  }

  /**
   * A numeral with no digit before it, set off by non-word characters (or
   * the ends of the text), is the number the pattern reads.
   */
  lemma MatchOfNumeral(pre: string, n: nat, post: string)
    requires NoDigit(pre)
    requires pre == [] || !IsWordChar(pre[|pre| - 1])
    requires post == [] || !IsWordChar(post[0])
    ensures MatchNumber(pre + NatToDecimal(n) + post) == Some(n)
  {
    var d := NatToDecimal(n);
    var s := pre + d + post;
    NumeralIsFirstMatch(pre, d, post);
    MiddleSlice(pre, d, post);
    DecimalRoundTrip(n);
  }

  lemma NumeralIsFirstMatch(pre: string, d: string, post: string)
    requires d != [] && AllDigits(d) && NoDigit(pre)
    requires pre == [] || !IsWordChar(pre[|pre| - 1])
    requires post == [] || !IsWordChar(post[0])
    ensures FirstMatchFrom(pre + d + post, 0) == Some(|pre|)
    ensures RunEnd(pre + d + post, |pre|) == |pre| + |d|
  {
    var s := pre + d + post;
    RunOfNumeral(pre, d, post);
    NumeralMatches(pre, d, post);
    NoMatchInPrefix(pre, d, post);
    FirstMatchIs(s, |pre|);
  }

  lemma MiddleSlice(pre: string, d: string, post: string)
    ensures (pre + d + post)[|pre|..|pre| + |d|] == d
  {
  }

  lemma NumeralMatches(pre: string, d: string, post: string)
    requires d != [] && AllDigits(d)
    requires pre == [] || !IsWordChar(pre[|pre| - 1])
    requires post == [] || !IsWordChar(post[0])
    ensures MatchAt(pre + d + post, |pre|)
  {
    var s := pre + d + post;
    var i := |pre|;
    RunOfNumeral(pre, d, post);
    assert s[i] == d[0];
    assert i > 0 ==> s[i - 1] == pre[|pre| - 1];
  }

  /** Text without digits before position `|pre|` holds no match there. */
  lemma NoMatchInPrefix(pre: string, d: string, post: string)
    requires NoDigit(pre)
    ensures forall k | 0 <= k < |pre| :: !MatchAt(pre + d + post, k)
  {
    var s := pre + d + post;
    forall k | 0 <= k < |pre| ensures !MatchAt(s, k) {
      assert s[k] == pre[k];
    }
  }

  /** A match with none before it is the first match. */
  lemma FirstMatchIs(s: string, i: nat)
    requires i < |s| && MatchAt(s, i)
    requires forall k | 0 <= k < i :: !MatchAt(s, k)
    ensures FirstMatchFrom(s, 0) == Some(i)
  {
  }

  /**
   * The usual markup, a minus button, the count as a text node with layout
   * white space around it, and a plus button, reads as the count whatever
   * the buttons contain.
   */
  lemma ReadsCountBetweenButtons(minus: string, pre: string, n: nat, post: string, plus: string)
    requires IsAllSpace(pre) && IsAllSpace(post)
    ensures ReadStepperValue(Some([ElementNode(minus), TextNode(pre + NatToDecimal(n) + post), ElementNode(plus)])) == Some(n)
  {
    var d := NatToDecimal(n);
    var cs := [ElementNode(minus), TextNode(pre + d + post), ElementNode(plus)];
    TrimmedNumeral(pre, n, post);
    OneTextNode(minus, pre + d + post, plus);
    assert Join([d], " ") == d;
    NumeralAlone(n);
  }

  /** White space around a numeral is trimmed away. */
  lemma TrimmedNumeral(pre: string, n: nat, post: string)
    requires IsAllSpace(pre) && IsAllSpace(post)
    ensures Trim(pre + NatToDecimal(n) + post) == NatToDecimal(n)
  {
    var d := NatToDecimal(n);
    assert NoSpace(d) by {
      forall k | 0 <= k < |d| ensures !IsSpace(d[k]) {
        assert IsDigit(d[k]);
      }
    }
    TrimPadded(pre, d, post);
  }

  /** Between two elements, the one text node is the only text read. */
  lemma OneTextNode(minus: string, t: string, plus: string)
    ensures TextNodeTexts([ElementNode(minus), TextNode(t), ElementNode(plus)]) == [Trim(t)]
  {
    var cs := [ElementNode(minus), TextNode(t), ElementNode(plus)];
    assert cs[1..][1..][1..] == [];
    assert TextNodeTexts(cs[1..][1..]) == [];
  }

  /** A numeral on its own reads as its value. */
  lemma NumeralAlone(n: nat)
    ensures MatchNumber(NatToDecimal(n)) == Some(n)
  {
    MatchOfNumeral([], n, []);
    assert [] + NatToDecimal(n) + [] == NatToDecimal(n);
  }

  /**
   * When the count is not in a text node of its own (it sits inside a span,
   * say, and the text nodes hold only layout white space), the reading falls
   * back to the stepper's whole text.
   */
  lemma FallsBackToWholeText(cs: seq<ChildNode>)
    requires forall k | 0 <= k < |cs| && cs[k].TextNode? :: IsAllSpace(cs[k].text)
    ensures ReadStepperValue(Some(cs)) == MatchNumber(FullText(cs))
  {
    BlankTextNodes(cs);
    JoinOfBlanks(TextNodeTexts(cs));
    BlankHasNoMatch(Join(TextNodeTexts(cs), " "));
  }

  /** Text nodes holding only white space trim to nothing. */
  lemma {:induction false} BlankTextNodes(cs: seq<ChildNode>)
    requires forall k | 0 <= k < |cs| && cs[k].TextNode? :: IsAllSpace(cs[k].text)
    ensures forall k | 0 <= k < |TextNodeTexts(cs)| :: IsAllSpace(TextNodeTexts(cs)[k])
  {
    if cs != [] {
      BlankTextNodes(cs[1..]);
      if cs[0].TextNode? {
        TrimBlank(cs[0].text);
      }
    }
  }

  lemma TrimBlank(x: string)
    requires IsAllSpace(x)
    ensures Trim(x) == []
  {
  }

  /** White space holds no number. */
  lemma BlankHasNoMatch(s: string)
    requires IsAllSpace(s)
    ensures NoMatch(s)
  {
  }

  /** A stepper showing "- 2 +" as three spans reads 2 through the fallback. */
  lemma ReadsCountInSpan()
    ensures ReadStepperValue(Some([ElementNode("-"), ElementNode("2"), ElementNode("+")])) == Some(2)
  {
    var cs := [ElementNode("-"), ElementNode("2"), ElementNode("+")];
    FallsBackToWholeText(cs);
    ThreeElementsText("-", "2", "+");
    assert NatToDecimal(2) == "2";
    MatchOfNumeral("-", 2, "+");
  }

  /** The text of three elements is their texts in order. */
  lemma ThreeElementsText(a: string, b: string, c: string)
    ensures FullText([ElementNode(a), ElementNode(b), ElementNode(c)]) == a + b + c
  {
    var cs := [ElementNode(a), ElementNode(b), ElementNode(c)];
    assert cs[1..][1..][1..] == [];
    assert FullText(cs[1..][1..]) == c + [];
  }

  /** A number glued to a letter is not a whole number: "x1" reads nothing. */
  lemma GluedDigitsAreNotRead()
    ensures MatchNumber("x1") == None
  {
    var s := "x1";
    assert !MatchAt(s, 0);
    assert !MatchAt(s, 1) by {
      assert IsWordChar(s[0]);
    }
  }
}
