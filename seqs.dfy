/** Small facts about sequence concatenation, kept apart so proofs can cite them cheaply. */
module Seqs {

  lemma ConcatAssoc<T>(a: seq<T>, b: seq<T>, c: seq<T>)
    ensures a + b + c == a + (b + c)
  {
  }

  lemma ConcatEmpty<T>(a: seq<T>)
    ensures a + [] == a && [] + a == a
  {
  }

  lemma AppendOne<T>(a: seq<T>, x: T)
    ensures |a + [x]| == |a| + 1 && (a + [x])[..|a|] == a && (a + [x])[|a|] == x
  {
  }

  lemma SplitAt<T>(s: seq<T>, k: nat)
    requires k <= |s|
    ensures s == s[..k] + s[k..]
  {
  }
}
