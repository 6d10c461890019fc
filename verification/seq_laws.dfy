/** Small facts about sequences, stated generically so that proofs about
    strings and result lists use them without unfolding anything else. */
module SeqLaws {
  /** A prefix is the shorter prefix and one more element. */
  lemma TakeSnoc<T>(s: seq<T>, n: nat)
    requires 0 < n <= |s|
    ensures s[..n] == s[..n - 1] + [s[n - 1]]
  {
  }

  /** Concatenation seen from its first element. */
  lemma ConcatCons<T>(a: seq<T>, b: seq<T>)
    requires |a| > 0
    ensures (a + b)[0] == a[0] && (a + b)[1..] == a[1..] + b
    ensures [a[0]] + (a[1..] + b) == a + b
  {
  }
}
