/**
 * The string helpers of index.js: `norm` (collapse white space, trim),
 * `eq` (case-insensitive comparison after normalising), `includes` and
 * `join`, over an explicit white-space set and ASCII case folding.
 */
module Text {
  import Seqs

  /** The white space that `\s` and `trim()` remove, restricted to ASCII and NBSP. */
  predicate IsSpace(c: char) {
    c == ' ' || c == '\t' || c == '\n' || c == '\r' || c == '\U{0B}' || c == '\U{0C}' || c == '\U{A0}'
  }

  predicate IsAllSpace(s: string) {
    forall i | 0 <= i < |s| :: IsSpace(s[i])
  }

  /** Neither the first nor the last character is white space. */
  predicate NoEdgeSpace(s: string) {
    s == [] || (!IsSpace(s[0]) && !IsSpace(s[|s| - 1]))
  }

  /** Every white-space character is a plain space and no two are adjacent. */
  predicate IsCollapsed(s: string) {
    && (forall i | 0 <= i < |s| && IsSpace(s[i]) :: s[i] == ' ')
    && (forall i | 0 <= i < |s| - 1 :: !(IsSpace(s[i]) && IsSpace(s[i + 1])))
  }

  /** The characters of `s` that are not white space, in order. */
  function Visible(s: string): string {
    if s == [] then []
    else if IsSpace(s[0]) then Visible(s[1..])
    else [s[0]] + Visible(s[1..])
  }

  lemma {:induction false} VisibleAppend(a: string, b: string)
    ensures Visible(a + b) == Visible(a) + Visible(b)
  {
    if a == [] {
      assert a + b == b;
    } else {
      assert (a + b)[0] == a[0];
      assert (a + b)[1..] == a[1..] + b;
      VisibleAppend(a[1..], b);
    }
  }

  lemma {:induction false} VisibleAllSpace(s: string)
    requires IsAllSpace(s)
    ensures Visible(s) == []
  {
    if s != [] {
      VisibleAllSpace(s[1..]);
    }
  }

  /** The leading-white-space half of `trim()`. */
  function TrimStart(s: string): (r: string)
    ensures |r| <= |s| && r == s[|s| - |r|..]
    ensures forall i | 0 <= i < |s| - |r| :: IsSpace(s[i])
    ensures r == [] || !IsSpace(r[0])
  {
    if s == [] || !IsSpace(s[0]) then s
    else
      var r := TrimStart(s[1..]);
      assert forall i | 1 <= i < |s| - |r| :: s[i] == s[1..][i - 1];
      r
  }

  /** Text that starts with a visible character has no leading white space to strip. */
  lemma TrimStartAt(s: string)
    requires s != [] && !IsSpace(s[0])
    ensures TrimStart(s) == s
  {
  }

  /** The trailing-white-space half of `trim()`. */
  function TrimEnd(s: string): (r: string)
    ensures |r| <= |s| && r == s[..|r|]
    ensures forall i | |r| <= i < |s| :: IsSpace(s[i])
    ensures r == [] || !IsSpace(r[|r| - 1])
  {
    if s == [] || !IsSpace(s[|s| - 1]) then s
    else TrimEnd(s[..|s| - 1])
  }

  /** `String.prototype.trim`: strip white space at both ends, keep the rest. */
  function Trim(s: string): (r: string)
    ensures NoEdgeSpace(r)
    ensures Visible(r) == Visible(s)
    ensures exists a, b | 0 <= a <= b <= |s| :: r == s[a..b] && IsAllSpace(s[..a]) && IsAllSpace(s[b..])
  {
    TrimKeepsVisible(s);
    var t := TrimStart(s);
    var r := TrimEnd(t);
    TrimIsSlice(s, t, r);
    r
  }

  /** What the two halves of `trim()` drop is white space at the two ends. */
  lemma TrimIsSlice(s: string, t: string, r: string)
    requires t == TrimStart(s) && r == TrimEnd(t)
    ensures var a := |s| - |t|; r == s[a..a + |r|] && IsAllSpace(s[..a]) && IsAllSpace(s[a + |r|..])
  {
    var a := |s| - |t|;
    SliceOfSuffix(s, a, |r|);
    LeadDropped(s, t);
    TailDropped(s, t, r);
  }

  lemma SliceOfSuffix(s: string, a: nat, n: nat)
    requires a + n <= |s|
    ensures s[a..][..n] == s[a..a + n]
  {
  }

  lemma LeadDropped(s: string, t: string)
    requires t == TrimStart(s)
    ensures IsAllSpace(s[..|s| - |t|])
  {
    var p := s[..|s| - |t|];
    assert forall i | 0 <= i < |p| :: p[i] == s[i];
  }

  lemma TailDropped(s: string, t: string, r: string)
    requires t == TrimStart(s) && r == TrimEnd(t)
    ensures IsAllSpace(s[|s| - |t| + |r|..])
  {
    EndDropped(t, r);
    SuffixIsTail(s, t, |r|);
  }

  lemma SuffixIsTail(s: string, t: string, n: nat)
    requires |t| <= |s| && t == s[|s| - |t|..] && n <= |t|
    ensures s[|s| - |t| + n..] == t[n..]
  {
  }


  lemma EndDropped(t: string, r: string)
    requires r == TrimEnd(t)
    ensures IsAllSpace(t[|r|..])
  {
    var q := t[|r|..];
    assert forall i | 0 <= i < |q| :: q[i] == t[|r| + i];
  }


  lemma TrimKeepsVisible(s: string)
    ensures Visible(TrimEnd(TrimStart(s))) == Visible(s)
  {
    TrimStartKeepsVisible(s);
    TrimEndKeepsVisible(TrimStart(s));
  }

  lemma TrimStartKeepsVisible(s: string)
    ensures Visible(TrimStart(s)) == Visible(s)
  {
    var t := TrimStart(s);
    var pre := s[..|s| - |t|];
    assert s == pre + t;
    assert IsAllSpace(pre);
    VisibleAppend(pre, t);
    VisibleAllSpace(pre);
  }

  lemma TrimEndKeepsVisible(s: string)
    ensures Visible(TrimEnd(s)) == Visible(s)
  {
    var r := TrimEnd(s);
    var post := s[|r|..];
    assert s == r + post;
    assert IsAllSpace(post);
    VisibleAppend(r, post);
    VisibleAllSpace(post);
  }

  /** `s.replace(/\s+/g, " ")`: each maximal run of white space becomes one space. */
  function Collapse(s: string): (r: string)
    ensures |r| <= |s|
    ensures r == [] <==> s == []
    ensures r != [] ==> (IsSpace(r[0]) <==> IsSpace(s[0]))
    ensures IsCollapsed(r)
    decreases |s|
  {
    if s == [] then []
    else if IsSpace(s[0]) then
      var t := TrimStart(s[1..]);
      var r := Collapse(t);
      CollapsedCons(' ', r);
      [' '] + r
    else
      var r := Collapse(s[1..]);
      CollapsedCons(s[0], r);
      [s[0]] + r
  }

  /** A character put in front of a collapsed string keeps it collapsed unless it makes two spaces. */
  lemma CollapsedCons(c: char, r: string)
    requires IsCollapsed(r)
    requires IsSpace(c) ==> c == ' ' && (r == [] || !IsSpace(r[0]))
    ensures IsCollapsed([c] + r)
  {
    var t := [c] + r;
    forall i | 0 <= i < |t| - 1 ensures !(IsSpace(t[i]) && IsSpace(t[i + 1])) {
      if i > 0 {
        assert t[i] == r[i - 1] && t[i + 1] == r[i];
      }
    }
  }

  lemma {:induction false} CollapseKeepsVisible(s: string)
    ensures Visible(Collapse(s)) == Visible(s)
    decreases |s|
  {
    if s == [] {
    } else if IsSpace(s[0]) {
      var t := TrimStart(s[1..]);
      CollapseKeepsVisible(t);
      VisibleAppend([' '], Collapse(t));
      TrimStartKeepsVisible(s[1..]);
    } else {
      CollapseKeepsVisible(s[1..]);
      VisibleAppend([s[0]], Collapse(s[1..]));
    }
  }

  lemma CollapsedSlice(s: string, a: nat, b: nat)
    requires IsCollapsed(s) && a <= b <= |s|
    ensures IsCollapsed(s[a..b])
  {
    var t := s[a..b];
    forall i | 0 <= i < |t| - 1 ensures !(IsSpace(t[i]) && IsSpace(t[i + 1])) {
      assert t[i] == s[a + i] && t[i + 1] == s[a + i + 1];
    }
  }

  /**
   * `norm` (index.js:66): collapse every white-space run to one space, then
   * trim. The result keeps every non-space character of the input in order,
   * starts and ends with a non-space and never has two spaces in a row.
   */
  function Norm(s: string): (r: string)
    ensures NoEdgeSpace(r) && IsCollapsed(r)
    ensures Visible(r) == Visible(s)
  {
    NormShape(s);
    Trim(Collapse(s))
  }

  lemma NormShape(s: string)
    ensures IsCollapsed(Trim(Collapse(s)))
    ensures Visible(Trim(Collapse(s))) == Visible(s)
  {
    var c := Collapse(s);
    var t := TrimStart(c);
    var r := TrimEnd(t);
    CollapseKeepsVisible(s);
    CollapsedSlice(c, |c| - |t|, |c|);
    assert IsCollapsed(t);
    CollapsedSlice(t, 0, |r|);
    assert IsCollapsed(r);
    assert Trim(c) == r;
  }

  lemma {:induction false} CollapseFixed(s: string)
    requires IsCollapsed(s)
    ensures Collapse(s) == s
    decreases |s|
  {
    if s != [] {
      CollapsedSlice(s, 1, |s|);
      CollapseFixed(s[1..]);
      CollapseStep(s);
      assert s == [s[0]] + s[1..];
    }
  }

  /** On collapsed text, `Collapse` keeps the first character and moves on. */
  lemma CollapseStep(s: string)
    requires IsCollapsed(s) && s != []
    ensures Collapse(s) == [s[0]] + Collapse(s[1..])
  {
    if IsSpace(s[0]) {
      CollapsedSpaceHead(s);
    }
  }

  /** In collapsed text a space is a plain one and what follows it is not white space. */
  lemma CollapsedSpaceHead(s: string)
    requires IsCollapsed(s) && s != [] && IsSpace(s[0])
    ensures s[0] == ' ' && TrimStart(s[1..]) == s[1..]
  {
    if |s| > 1 {
      assert !IsSpace(s[1]);
      assert s[1..][0] == s[1];
    }
  }

  /** `norm` is idempotent: normalising twice changes nothing. */
  lemma NormIdempotent(s: string)
    ensures Norm(Norm(s)) == Norm(s)
  {
    var n := Norm(s);
    CollapseFixed(n);
    assert TrimStart(n) == n;
    assert TrimEnd(n) == n;
  }

  /** No character of `s` is white space. */
  predicate NoSpace(s: string) {
    forall i | 0 <= i < |s| :: !IsSpace(s[i])
  }

  lemma {:induction false} TrimStartPast(pre: string, rest: string)
    requires IsAllSpace(pre) && (rest == [] || !IsSpace(rest[0]))
    ensures TrimStart(pre + rest) == rest
  {
    if pre == [] {
      assert pre + rest == rest;
    } else {
      assert (pre + rest)[0] == pre[0];
      assert (pre + rest)[1..] == pre[1..] + rest;
      TrimStartPast(pre[1..], rest);
    }
  }

  lemma {:induction false} TrimEndPast(rest: string, post: string)
    requires IsAllSpace(post) && (rest == [] || !IsSpace(rest[|rest| - 1]))
    ensures TrimEnd(rest + post) == rest
  {
    if post == [] {
      assert rest + post == rest;
    } else {
      var s := rest + post;
      assert s[|s| - 1] == post[|post| - 1];
      assert s[..|s| - 1] == rest + post[..|post| - 1];
      TrimEndPast(rest, post[..|post| - 1]);
    }
  }

  lemma {:induction false} CollapseWord(x: string, post: string)
    requires NoSpace(x)
    ensures Collapse(x + post) == x + Collapse(post)
  {
    if x == [] {
      assert x + post == post;
    } else {
      assert (x + post)[0] == x[0];
      assert (x + post)[1..] == x[1..] + post;
      CollapseWord(x[1..], post);
    }
  }

  lemma CollapseRun(pre: string, rest: string)
    requires pre != [] && IsAllSpace(pre) && (rest == [] || !IsSpace(rest[0]))
    ensures Collapse(pre + rest) == [' '] + Collapse(rest)
  {
    assert (pre + rest)[0] == pre[0];
    assert (pre + rest)[1..] == pre[1..] + rest;
    TrimStartPast(pre[1..], rest);
  }

  /** What `Collapse` leaves of a run of white space: one space, or nothing. */
  function Pad(s: string): string {
    if s == [] then [] else [' ']
  }

  /**
   * A word laid out with white space around it (a rendered label or numeral)
   * normalises to the bare word.
   */
  lemma NormOfPadded(pre: string, x: string, post: string)
    requires IsAllSpace(pre) && IsAllSpace(post)
    requires x != [] && NoSpace(x)
    ensures Norm(pre + x + post) == x
  {
    CollapsePadded(pre, x, post);
    TrimPadded(Pad(pre), x, Pad(post));
  }

  lemma CollapsePadded(pre: string, x: string, post: string)
    requires IsAllSpace(pre) && IsAllSpace(post)
    requires x != [] && NoSpace(x)
    ensures Collapse(pre + x + post) == Pad(pre) + x + Pad(post)
  {
    if pre == [] {
      assert pre + x + post == x + post;
      assert Pad(pre) + x == x;
      CollapseWordPadded(x, post);
    } else {
      CollapseLeadPadded(pre, x, post);
    }
  }

  lemma CollapseLeadPadded(pre: string, x: string, post: string)
    requires pre != [] && IsAllSpace(pre) && IsAllSpace(post)
    requires x != [] && NoSpace(x)
    ensures Collapse(pre + x + post) == [' '] + x + Pad(post)
  {
    var xs := x + post;
    CollapseWordPadded(x, post);
    Seqs.ConcatAssoc(pre, x, post);
    assert xs[0] == x[0] && !IsSpace(x[0]);
    CollapseRun(pre, xs);
    Seqs.ConcatAssoc([' '], x, Pad(post));
  }

  lemma CollapseWordPadded(x: string, post: string)
    requires IsAllSpace(post)
    requires NoSpace(x)
    ensures Collapse(x + post) == x + Pad(post)
  {
    CollapseTail(post);
    CollapseWord(x, post);
  }

  lemma CollapseTail(post: string)
    requires IsAllSpace(post)
    ensures Collapse(post) == Pad(post)
  {
    if post != [] {
      CollapseRun(post, []);
      assert post + [] == post;
    }
  }

  lemma TrimPadded(lead: string, x: string, tail: string)
    requires IsAllSpace(lead) && IsAllSpace(tail)
    requires x != [] && NoSpace(x)
    ensures Trim(lead + x + tail) == x
  {
    assert lead + x + tail == lead + (x + tail);
    TrimStartPast(lead, x + tail);
    TrimEndPast(x, tail);
  }

  /** A word without white space is its own normal form. */
  lemma NormOfWord(x: string)
    requires x != [] && NoSpace(x)
    ensures Norm(x) == x
  {
    NormOfPadded([], x, []);
    assert [] + x + [] == x;
  }

  /** The leading run of non-space characters of `s`. */
  function LeadWord(s: string): (w: string)
    ensures |w| <= |s| && w == s[..|w|] && NoSpace(w)
    ensures |w| == |s| || IsSpace(s[|w|])
  {
    if s == [] || IsSpace(s[0]) then []
    else
      var w := LeadWord(s[1..]);
      assert [s[0]] + w == s[..|w| + 1];
      [s[0]] + w
  }

  /** The words of `s`: its maximal runs of non-space characters, in order. */
  function Words(s: string): seq<string>
    decreases |s|
  {
    var t := TrimStart(s);
    if t == [] then []
    else
      var w := LeadWord(t);
      WordAhead(t);
      [w] + Words(t[|w|..])
  }

  /** Text that starts with a visible character starts with a word. */
  lemma WordAhead(t: string)
    requires t != [] && !IsSpace(t[0])
    ensures LeadWord(t) != []
  {
  }

  /** Each of `ws` is non-empty and holds no white space. */
  predicate AllWords(ws: seq<string>) {
    forall k | 0 <= k < |ws| :: ws[k] != [] && NoSpace(ws[k])
  }

  /** Every word is non-empty and holds no white space. */
  lemma {:induction false} WordsAreWords(s: string)
    ensures AllWords(Words(s))
    decreases |s|
  {
    var t := TrimStart(s);
    if t != [] {
      var w := LeadWord(t);
      WordAhead(t);
      WordsAreWords(t[|w|..]);
      WordsStep(s, t, w);
      AllWordsCons(w, Words(t[|w|..]));
    }
  }

  lemma WordsStep(s: string, t: string, w: string)
    requires t == TrimStart(s) && t != [] && w == LeadWord(t)
    ensures Words(s) == [w] + Words(t[|w|..])
  {
  }

  lemma AllWordsCons(w: string, ws: seq<string>)
    requires w != [] && NoSpace(w) && AllWords(ws)
    ensures AllWords([w] + ws)
  {
    assert forall k | 1 <= k < |ws| + 1 :: ([w] + ws)[k] == ws[k - 1];
  }

  /** A word followed by nothing or by white space is the leading word. */
  lemma {:induction false} LeadWordOf(w: string, c: string)
    requires NoSpace(w) && (c == [] || IsSpace(c[0]))
    ensures LeadWord(w + c) == w
  {
    if w == [] {
      assert w + c == c;
    } else {
      assert (w + c)[0] == w[0];
      assert (w + c)[1..] == w[1..] + c;
      LeadWordOf(w[1..], c);
    }
  }

  /** White space, a word, then nothing or white space: the word comes first. */
  lemma WordsAfterPad(p: string, w: string, c: string)
    requires IsAllSpace(p) && w != [] && NoSpace(w) && (c == [] || IsSpace(c[0]))
    ensures Words(p + w + c) == [w] + Words(c)
  {
    Seqs.ConcatAssoc(p, w, c);
    TrimStartPast(p, w + c);
    LeadWordOf(w, c);
    assert (w + c)[|w|..] == c;
  }

  /** The first word of `s`, with the white space before it and the rest after it. */
  lemma FirstWordShape(s: string, pre: string, w: string, rest: string)
    requires TrimStart(s) != []
    requires pre == s[..|s| - |TrimStart(s)|] && w == LeadWord(TrimStart(s)) && rest == TrimStart(s)[|w|..]
    ensures s == pre + w + rest && IsAllSpace(pre)
    ensures w != [] && NoSpace(w) && (rest == [] || IsSpace(rest[0]))
  {
    var t := TrimStart(s);
    LeadDropped(s, t);
    Seqs.SplitAt(s, |s| - |t|);
    Seqs.SplitAt(t, |w|);
    WordAhead(t);
    if rest != [] {
      assert rest[0] == t[|w|];
    }
    Seqs.ConcatAssoc(pre, w, rest);
  }

  /** Collapsing white space, a word and the rest: one space at most, the word, the collapsed rest. */
  lemma CollapseFirstWord(pre: string, w: string, rest: string)
    requires IsAllSpace(pre) && w != [] && NoSpace(w)
    ensures Collapse(pre + w + rest) == Pad(pre) + w + Collapse(rest)
  {
    CollapseWord(w, rest);
    Seqs.ConcatAssoc(pre, w, rest);
    if pre == [] {
      assert pre + (w + rest) == w + rest;
      assert Pad(pre) + w == w;
    } else {
      assert (w + rest)[0] == w[0];
      CollapseRun(pre, w + rest);
      Seqs.ConcatAssoc([' '], w, Collapse(rest));
    }
  }

  /** Text that is all white space has no words and collapses to at most one space. */
  lemma NoWordsInBlank(s: string)
    requires TrimStart(s) == []
    ensures IsAllSpace(s) && Words(s) == [] && Words(Collapse(s)) == []
  {
    CollapseTail(s);
    PadHasNoWords(s);
  }

  lemma PadHasNoWords(s: string)
    ensures Words(Pad(s)) == []
  {
    if s != [] {
      assert TrimStart([' ']) == TrimStart([' '][1..]);
    }
  }

  /** Collapsing keeps the words of the text, in order. */
  lemma {:induction false} CollapseKeepsWords(s: string)
    ensures Words(Collapse(s)) == Words(s)
    decreases |s|
  {
    var t := TrimStart(s);
    if t == [] {
      NoWordsInBlank(s);
    } else {
      var w := LeadWord(t);
      var pre, rest := s[..|s| - |t|], t[|w|..];
      FirstWordShape(s, pre, w, rest);
      CollapseKeepsWords(rest);
      CollapseFirstWord(pre, w, rest);
      PadIsSpace(pre);
      WordsAfterPad(Pad(pre), w, Collapse(rest));
    }
  }

  lemma PadIsSpace(s: string)
    ensures IsAllSpace(Pad(s)) && |Pad(s)| <= 1
  {
  }

  /** Stripping the end of a text that starts with a visible character keeps what comes before it. */
  lemma {:induction false} TrimEndKeepsHead(a: string, b: string)
    requires b != [] && !IsSpace(b[0])
    ensures TrimEnd(a + b) == a + TrimEnd(b)
    decreases |b|
  {
    var s := a + b;
    assert s[|s| - 1] == b[|b| - 1];
    if IsSpace(b[|b| - 1]) {
      assert |b| >= 2;
      var b' := b[..|b| - 1];
      assert s[..|s| - 1] == a + b';
      assert b'[0] == b[0];
      TrimEndKeepsHead(a, b');
    }
  }

  /** A collapsed run that starts with white space and then has a word is a space and a word. */
  lemma CollapseSpacedRest(rest: string)
    requires rest != [] && IsSpace(rest[0]) && TrimStart(rest) != []
    ensures var x := Collapse(TrimStart(rest[1..]));
      Collapse(rest) == [' '] + x && x != [] && !IsSpace(x[0])
  {
    assert TrimStart(rest) == TrimStart(rest[1..]);
  }

  /** Trimming white space, a word, a space and more words. */
  lemma TrimSpaced(p: string, w: string, x: string)
    requires IsAllSpace(p) && w != [] && NoSpace(w) && x != [] && !IsSpace(x[0])
    ensures Trim(p + w + ([' '] + x)) == w + " " + Trim([' '] + x)
  {
    Seqs.ConcatAssoc(p, w, [' '] + x);
    TrimStartPast(p, w + ([' '] + x));
    TrimStartPast([' '], x);
    assert w + ([' '] + x) == (w + [' ']) + x;
    TrimEndKeepsHead(w + [' '], x);
  }

  /** The words after the first, when there are some, follow one space. */
  lemma NormOfSpacedRest(pre: string, w: string, rest: string)
    requires IsAllSpace(pre) && w != [] && NoSpace(w)
    requires rest != [] && IsSpace(rest[0]) && TrimStart(rest) != []
    ensures Trim(Pad(pre) + w + Collapse(rest)) == w + " " + Norm(rest)
  {
    CollapseSpacedRest(rest);
    PadIsSpace(pre);
    TrimSpaced(Pad(pre), w, Collapse(TrimStart(rest[1..])));
  }

  /** Joining a first word and more words puts one space between them. */
  lemma JoinFirst(w: string, ws: seq<string>)
    requires ws != []
    ensures Join([w] + ws, " ") == w + " " + Join(ws, " ")
  {
    assert ([w] + ws)[1..] == ws;
  }

  /**
   * `norm` is the words of the text joined by single spaces: runs of white
   * space shrink to one space but still keep words apart.
   */
  lemma {:induction false} NormIsJoinedWords(s: string)
    ensures Norm(s) == Join(Words(s), " ")
    decreases |s|
  {
    var t := TrimStart(s);
    if t == [] {
      NoWordsInBlank(s);
      CollapseTail(s);
      assert TrimStart(Pad(s)) == [];
    } else {
      var w := LeadWord(t);
      var pre, rest := s[..|s| - |t|], t[|w|..];
      FirstWordShape(s, pre, w, rest);
      CollapseFirstWord(pre, w, rest);
      PadIsSpace(pre);
      WordsAfterPad(pre, w, rest);
      if TrimStart(rest) == [] {
        NoWordsInBlank(rest);
        CollapseTail(rest);
        PadIsSpace(rest);
        TrimPadded(Pad(pre), w, Pad(rest));
      } else {
        NormIsJoinedWords(rest);
        NormOfSpacedRest(pre, w, rest);
        JoinFirst(w, Words(rest));
      }
    }
  }

  /** Collapsed text without white space at its ends is its own normal form. */
  lemma NormOfNormal(s: string)
    requires IsCollapsed(s) && NoEdgeSpace(s)
    ensures Norm(s) == s
  {
    CollapseFixed(s);
    if s != [] {
      TrimStartAt(s);
    }
  }

  /** White space inside a label counts: "log in" is not "login". */
  lemma SpaceSeparatesWords()
    ensures !Eq("log in", "login")
  {
    assert "log in" == "log" + " " + "in";
    TwoWordsNormal("log", "in");
    NormOfWord("login");
  }

  /** Two words with one space between them are in normal form. */
  lemma TwoWordsNormal(a: string, b: string)
    requires a != [] && b != [] && NoSpace(a) && NoSpace(b)
    ensures Norm(a + " " + b) == a + " " + b
  {
    var s := a + " " + b;
    forall i | 0 <= i < |s| - 1 ensures !(IsSpace(s[i]) && IsSpace(s[i + 1])) {
      if i < |a| {
        assert s[i] == a[i];
      } else {
        assert s[i + 1] == b[i - |a|];
      }
    }
    assert forall i | 0 <= i < |s| && IsSpace(s[i]) :: s[i] == ' ';
    assert s[0] == a[0] && s[|s| - 1] == b[|b| - 1];
    NormOfNormal(s);
  }

  /** ASCII `toLowerCase` of one character. */
  function LowerChar(c: char): char {
    if 'A' <= c <= 'Z' then (c as int + 32) as char else c
  }

  predicate IsUpper(c: char) {
    'A' <= c <= 'Z'
  }

  /**
   * `toLowerCase`: no upper-case letter is left, each upper-case letter
   * becomes its lower-case partner, and every other character is kept.
   */
  function Lower(s: string): (r: string)
    ensures |r| == |s|
    ensures forall i | 0 <= i < |r| :: !IsUpper(r[i])
    ensures forall i | 0 <= i < |s| && !IsUpper(s[i]) :: r[i] == s[i]
    ensures forall i | 0 <= i < |s| && IsUpper(s[i]) ::
      'a' <= r[i] <= 'z' && r[i] as int - 'a' as int == s[i] as int - 'A' as int
  {
    seq(|s|, i requires 0 <= i < |s| => LowerChar(s[i]))
  }

  /** Lower-casing twice is lower-casing once. */
  lemma LowerIdempotent(s: string)
    ensures Lower(Lower(s)) == Lower(s)
  {
  }

  /** Lower-casing keeps white space where it is, so it keeps words apart. */
  lemma LowerKeepsSpace(s: string, i: nat)
    requires i < |s|
    ensures IsSpace(Lower(s)[i]) <==> IsSpace(s[i])
  {
  }

  /** `eq` (index.js:67): equal after normalising and lower-casing both sides. */
  predicate Eq(a: string, b: string) {
    Lower(Norm(a)) == Lower(Norm(b))
  }

  /** `eq` is an equivalence relation. */
  lemma EqIsEquivalence(a: string, b: string, c: string)
    ensures Eq(a, a)
    ensures Eq(a, b) <==> Eq(b, a)
    ensures Eq(a, b) && Eq(b, c) ==> Eq(a, c)
  {
  }

  /** Normalising an argument first never changes the outcome of `eq`. */
  lemma EqIgnoresNorm(a: string, b: string)
    ensures Eq(Norm(a), b) <==> Eq(a, b)
  {
    NormIdempotent(a);
  }

  predicate OccursAt(s: string, sub: string, i: int) {
    0 <= i && i + |sub| <= |s| && s[i..i + |sub|] == sub
  }

  /** `String.prototype.includes`. */
  predicate Contains(s: string, sub: string) {
    exists i | 0 <= i <= |s| - |sub| :: OccursAt(s, sub, i)
  }

  /** `Array.prototype.join(sep)`: no parts give "", and one part is itself. */
  function Join(parts: seq<string>, sep: string): (r: string)
    ensures parts == [] ==> r == ""
    ensures |parts| == 1 ==> r == parts[0]
  {
    if parts == [] then ""
    else if |parts| == 1 then parts[0]
    else parts[0] + sep + Join(parts[1..], sep)
  }

  /** The last of several parts comes after the join of the others and a separator. */
  lemma {:induction false} JoinSnoc(parts: seq<string>, sep: string)
    requires |parts| >= 2
    ensures Join(parts, sep) == Join(parts[..|parts| - 1], sep) + sep + parts[|parts| - 1]
    decreases |parts|
  {
    var init, last := parts[..|parts| - 1], parts[|parts| - 1];
    if |parts| == 2 {
      assert init == [parts[0]];
    } else {
      JoinSnoc(parts[1..], sep);
      assert parts[1..][..|parts| - 2] == init[1..];
      var mid := Join(init[1..], sep);
      assert Join(init, sep) == init[0] + sep + mid;
      Seqs.ConcatAssoc(parts[0] + sep, mid + sep, last);
      Seqs.ConcatAssoc(parts[0] + sep, mid, sep);
    }
  }

  /** Parts that are all white space join, with a space, into white space. */
  lemma {:induction false} JoinOfBlanks(parts: seq<string>)
    requires forall k | 0 <= k < |parts| :: IsAllSpace(parts[k])
    ensures IsAllSpace(Join(parts, " "))
  {
    if |parts| >= 2 {
      JoinOfBlanks(parts[1..]);
      var r := Join(parts, " ");
      var rest := Join(parts[1..], " ");
      assert r == parts[0] + " " + rest;
      assert forall i | 0 <= i < |r| :: r[i] == (if i < |parts[0]| then parts[0][i] else if i == |parts[0]| then ' ' else rest[i - |parts[0]| - 1]);
    }
  }
}
