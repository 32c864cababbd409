/**
 * Facts about sequences that several parts of the model lean on.
 */
module Seqs {
  /** `max(map(len, ss))`, with 0 for no sequences. */
  function Longest<T>(ss: seq<seq<T>>): (n: nat)
    ensures forall k :: 0 <= k < |ss| ==> |ss[k]| <= n
    ensures ss != [] ==> exists k :: 0 <= k < |ss| && |ss[k]| == n
  {
    if ss == [] then 0
    else
      var rest := Longest(ss[1..]);
      assert forall k :: 1 <= k < |ss| ==> ss[k] == ss[1..][k - 1];
      if |ss[0]| >= rest then |ss[0]| else rest
  }

  /** Appending keeps every earlier element in place. */
  lemma Snoc<T>(s: seq<T>, x: T)
    ensures |s + [x]| == |s| + 1 && (s + [x])[|s|] == x
    ensures forall i :: 0 <= i < |s| ==> (s + [x])[i] == s[i]
  {
  }

  lemma AppendAssoc<T>(a: seq<T>, b: seq<T>, c: seq<T>)
    ensures (a + b) + c == a + (b + c)
  {
  }

  /** A non-empty sequence is its front followed by its last element. */
  lemma LastSplit<T>(s: seq<T>)
    requires s != []
    ensures s == s[..|s| - 1] + [s[|s| - 1]]
  {
  }
}
