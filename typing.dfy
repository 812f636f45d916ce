/**
 * `typeLikeUser` (index.js:304-329): fill an autocomplete input the way a
 * person types, clearing it first and then setting it to each longer prefix
 * with a keyboard event group per character. The input is a `Field` whose
 * `trace` records what the script did to it, in order.
 */
module Typing {
  import Seqs

  /** What `typeLikeUser` does to the element: value writes and dispatched events. */
  datatype FieldEvent =
    | Focus
    | SetValue(v: string)      // setNativeValue(el, v)
    | InputEv
    | KeyDown(key: char)
    | KeyPress(key: char)
    | KeyUp(key: char)
    | ChangeEv
    | SelectRange(at: nat)     // setSelectionRange(at, at)

  class Field {
    /** Whether the element has `setSelectionRange`. */
    const selectable: bool
    var value: string
    var trace: seq<FieldEvent>

    constructor (selectable: bool, value: string)
      ensures this.selectable == selectable && this.value == value && trace == []
    {
      this.selectable := selectable;
      this.value := value;
      trace := [];
    }
  }

  /** The caret move after a write, present only when the element supports it. */
  function Caret(selectable: bool, at: nat): seq<FieldEvent> {
    if selectable then [SelectRange(at)] else []
  }

  /** What the loop does for character `i` (index.js:313-323). */
  function Group(s: string, i: nat, selectable: bool): seq<FieldEvent>
    requires i < |s|
  {
    [SetValue(s[..i + 1]), KeyDown(s[i]), KeyPress(s[i]), InputEv, KeyUp(s[i])] + Caret(selectable, i + 1)
  }

  /** The groups of the first `n` characters, in order. */
  function Groups(s: string, n: nat, selectable: bool): seq<FieldEvent>
    requires n <= |s|
  {
    if n == 0 then [] else Groups(s, n - 1, selectable) + Group(s, n - 1, selectable)
  }

  /** Focus, clear, `input` (index.js:308-311). */
  function Opening(): seq<FieldEvent> {
    [Focus, SetValue(""), InputEv]
  }

  /** `change` and the final caret move (index.js:325-327). */
  function Closing(s: string, selectable: bool): seq<FieldEvent> {
    [ChangeEv] + Caret(selectable, |s|)
  }

  /** Everything `typeLikeUser(el, s)` does to an element. */
  function TypingTrace(s: string, selectable: bool): seq<FieldEvent> {
    Opening() + Groups(s, |s|, selectable) + Closing(s, selectable)
  }

  /**
   * `typeLikeUser`: nothing happens without an element; otherwise the value
   * ends as `s` and the element has seen exactly `TypingTrace(s, ...)`.
   */
  method TypeLikeUser(el: Field?, s: string)
    modifies el
    ensures el != null ==> el.value == s && el.trace == old(el.trace) + TypingTrace(s, el.selectable)
  {
    if el == null {
      return;
    }
    el.value := "";
    el.trace := el.trace + Opening();
    var i := 0;
    while i < |s|
      invariant 0 <= i <= |s|
      invariant el.value == s[..i]
      invariant el.trace == old(el.trace) + Opening() + Groups(s, i, el.selectable)
    {
      el.value := s[..i + 1];
      Seqs.ConcatAssoc(old(el.trace) + Opening(), Groups(s, i, el.selectable), Group(s, i, el.selectable));
      el.trace := el.trace + Group(s, i, el.selectable);
      i := i + 1;
    }
    Seqs.ConcatAssoc(old(el.trace) + Opening(), Groups(s, |s|, el.selectable), Closing(s, el.selectable));
    Seqs.ConcatAssoc(old(el.trace), Opening(), Groups(s, |s|, el.selectable));
    Seqs.ConcatAssoc(old(el.trace), Opening() + Groups(s, |s|, el.selectable), Closing(s, el.selectable));
    assert s[..|s|] == s;
    el.trace := el.trace + Closing(s, el.selectable);
  }

  /** The events of `t` mapped through `pick` and concatenated. */
  function Collect<X>(t: seq<FieldEvent>, pick: FieldEvent -> seq<X>): seq<X> {
    if t == [] then [] else pick(t[0]) + Collect(t[1..], pick)
  }

  lemma {:induction false} CollectAppend<X>(a: seq<FieldEvent>, b: seq<FieldEvent>, pick: FieldEvent -> seq<X>)
    ensures Collect(a + b, pick) == Collect(a, pick) + Collect(b, pick)
  {
    if a == [] {
      assert a + b == b;
    } else {
      assert (a + b)[1..] == a[1..] + b;
      CollectAppend(a[1..], b, pick);
    }
  }

  function KeyDowns(e: FieldEvent): string {
    if e.KeyDown? then [e.key] else []
  }

  function ValuesSet(e: FieldEvent): seq<string> {
    if e.SetValue? then [e.v] else []
  }

  function Changes(e: FieldEvent): seq<FieldEvent> {
    if e.ChangeEv? then [e] else []
  }

  lemma {:induction false} CollectNone<X>(t: seq<FieldEvent>, pick: FieldEvent -> seq<X>)
    requires forall k | 0 <= k < |t| :: pick(t[k]) == []
    ensures Collect(t, pick) == []
  {
    if t != [] {
      CollectNone(t[1..], pick);
    }
  }

  /** Only the event at `j` contributes. */
  lemma CollectOne<X>(t: seq<FieldEvent>, j: nat, pick: FieldEvent -> seq<X>)
    requires j < |t|
    requires forall k | 0 <= k < |t| && k != j :: pick(t[k]) == []
    ensures Collect(t, pick) == pick(t[j])
  {
    CollectAround(t, j, pick);
    CollectNoneSlice(t, 0, j, pick);
    CollectNoneSlice(t, j + 1, |t|, pick);
  }

  lemma {:induction false} CollectAround<X>(t: seq<FieldEvent>, j: nat, pick: FieldEvent -> seq<X>)
    requires j < |t|
    ensures Collect(t, pick) == Collect(t[0..j], pick) + pick(t[j]) + Collect(t[j + 1..|t|], pick)
  {
    if j == 0 {
      assert t[1..|t|] == t[1..];
      assert Collect(t[0..0], pick) == [];
    } else {
      var u := t[1..];
      CollectAround(u, j - 1, pick);
      assert u[j..|u|] == t[j + 1..|t|];
      var pre := t[0..j];
      assert pre[0] == t[0] && pre[1..] == u[0..j - 1];
      assert Collect(pre, pick) == pick(t[0]) + Collect(u[0..j - 1], pick);
      assert u[j - 1] == t[j];
      Seqs.ConcatAssoc(pick(t[0]), Collect(u[0..j - 1], pick), pick(t[j]));
    }
  }

  lemma CollectNoneSlice<X>(t: seq<FieldEvent>, a: nat, b: nat, pick: FieldEvent -> seq<X>)
    requires a <= b <= |t|
    requires forall k | a <= k < b :: pick(t[k]) == []
    ensures Collect(t[a..b], pick) == []
  {
    var u := t[a..b];
    assert forall k | 0 <= k < |u| :: u[k] == t[a + k];
    CollectNone(u, pick);
  }

  /** `Collect` over a trace made of three parts. */
  lemma CollectThree<X>(a: seq<FieldEvent>, b: seq<FieldEvent>, c: seq<FieldEvent>, pick: FieldEvent -> seq<X>)
    ensures Collect(a + b + c, pick) == Collect(a, pick) + Collect(b, pick) + Collect(c, pick)
  {
    CollectAppend(a + b, c, pick);
    CollectAppend(a, b, pick);
  }

  lemma CollectOpening<X>(pick: FieldEvent -> seq<X>)
    ensures Collect(Opening(), pick) == pick(Focus) + pick(SetValue("")) + pick(InputEv)
  {
    var t := Opening();
    assert t == [Focus] + ([SetValue("")] + [InputEv]);
    CollectAppend([Focus], [SetValue("")] + [InputEv], pick);
    CollectAppend([SetValue("")], [InputEv], pick);
    CollectSingle(Focus, pick);
    CollectSingle(SetValue(""), pick);
    CollectSingle(InputEv, pick);
  }

  lemma CollectClosing<X>(s: string, selectable: bool, pick: FieldEvent -> seq<X>)
    ensures Collect(Closing(s, selectable), pick)
      == pick(ChangeEv) + (if selectable then pick(SelectRange(|s|)) else [])
  {
    CollectAppend([ChangeEv], Caret(selectable, |s|), pick);
    CollectSingle(ChangeEv, pick);
    if selectable {
      CollectSingle(SelectRange(|s|), pick);
    }
  }

  lemma CollectSingle<X>(e: FieldEvent, pick: FieldEvent -> seq<X>)
    ensures Collect([e], pick) == pick(e)
  {
    assert [e][1..] == [];
  }

  lemma {:induction false} GroupsKeys(s: string, n: nat, selectable: bool)
    requires n <= |s|
    ensures Collect(Groups(s, n, selectable), KeyDowns) == s[..n]
  {
    if n > 0 {
      var i := n - 1;
      GroupsKeys(s, i, selectable);
      CollectAppend(Groups(s, i, selectable), Group(s, i, selectable), KeyDowns);
      CollectOne(Group(s, i, selectable), 1, KeyDowns);
      PrefixSnoc(s, i);
    }
  }

  lemma PrefixSnoc<T>(s: seq<T>, i: nat)
    requires i < |s|
    ensures s[..i + 1] == s[..i] + [s[i]]
  {
  }

  /** The keys pressed, in order, spell exactly the typed value: one group per character. */
  lemma TypedKeysSpellValue(s: string, selectable: bool)
    ensures Collect(TypingTrace(s, selectable), KeyDowns) == s
  {
    var g := Groups(s, |s|, selectable);
    CollectThree(Opening(), g, Closing(s, selectable), KeyDowns);
    CollectOpening(KeyDowns);
    CollectClosing(s, selectable, KeyDowns);
    GroupsKeys(s, |s|, selectable);
    assert s[..|s|] == s;
  }

  /** The value written by the group of character `k`: the prefix ending with it. */
  function Prefixes(s: string, n: nat): seq<string>
    requires n <= |s|
  {
    seq(n, k requires 0 <= k < n => s[..k + 1])
  }

  lemma PrefixesSnoc(s: string, n: nat)
    requires n < |s|
    ensures Prefixes(s, n + 1) == Prefixes(s, n) + [s[..n + 1]]
  {
  }

  lemma AllPrefixes(s: string)
    ensures [""] + Prefixes(s, |s|) == seq(|s| + 1, k requires 0 <= k <= |s| => s[..k])
  {
  }

  lemma {:induction false} GroupsValues(s: string, n: nat, selectable: bool)
    requires n <= |s|
    ensures Collect(Groups(s, n, selectable), ValuesSet) == Prefixes(s, n)
  {
    if n > 0 {
      var i := n - 1;
      GroupsValues(s, i, selectable);
      CollectAppend(Groups(s, i, selectable), Group(s, i, selectable), ValuesSet);
      CollectOne(Group(s, i, selectable), 0, ValuesSet);
      PrefixesSnoc(s, i);
    }
  }

  /**
   * The value is written first as "" and then as each longer prefix of the
   * typed text, the last write being the whole text.
   */
  lemma ValueWritesArePrefixes(s: string, selectable: bool)
    ensures Collect(TypingTrace(s, selectable), ValuesSet) == seq(|s| + 1, k requires 0 <= k <= |s| => s[..k])
  {
    var g := Groups(s, |s|, selectable);
    CollectThree(Opening(), g, Closing(s, selectable), ValuesSet);
    OpeningValues();
    ClosingValues(s, selectable);
    GroupsValues(s, |s|, selectable);
    AllPrefixes(s);
    Seqs.ConcatEmpty([""] + Prefixes(s, |s|));
  }

  lemma OpeningValues()
    ensures Collect(Opening(), ValuesSet) == [""]
  {
    CollectOpening(ValuesSet);
  }

  lemma ClosingValues(s: string, selectable: bool)
    ensures Collect(Closing(s, selectable), ValuesSet) == []
  {
    CollectClosing(s, selectable, ValuesSet);
  }

  lemma {:induction false} GroupsNoChange(s: string, n: nat, selectable: bool)
    requires n <= |s|
    ensures Collect(Groups(s, n, selectable), Changes) == []
  {
    if n > 0 {
      var i := n - 1;
      GroupsNoChange(s, i, selectable);
      GroupNoChange(s, i, selectable);
      CollectAppendNone(Groups(s, i, selectable), Group(s, i, selectable), Changes);
    }
  }

  lemma CollectAppendNone<X>(a: seq<FieldEvent>, b: seq<FieldEvent>, pick: FieldEvent -> seq<X>)
    requires Collect(a, pick) == [] && Collect(b, pick) == []
    ensures Collect(a + b, pick) == []
  {
    CollectAppend(a, b, pick);
  }

  lemma GroupNoChange(s: string, i: nat, selectable: bool)
    requires i < |s|
    ensures Collect(Group(s, i, selectable), Changes) == []
  {
    var g := Group(s, i, selectable);
    assert forall k | 0 <= k < |g| :: !g[k].ChangeEv?;
    CollectNone(g, Changes);
  }

  /** Exactly one `change` event is dispatched, after every character's group. */
  lemma OneChangeAtTheEnd(s: string, selectable: bool)
    ensures Collect(TypingTrace(s, selectable), Changes) == [ChangeEv]
    ensures Collect(TypingTrace(s, selectable)[..3 + |Groups(s, |s|, selectable)|], Changes) == []
  {
    var g := Groups(s, |s|, selectable);
    var t := TypingTrace(s, selectable);
    CollectThree(Opening(), g, Closing(s, selectable), Changes);
    CollectOpening(Changes);
    CollectClosing(s, selectable, Changes);
    GroupsNoChange(s, |s|, selectable);
    assert t[..3 + |g|] == Opening() + g;
    CollectAppend(Opening(), g, Changes);
  }
}
