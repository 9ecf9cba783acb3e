/** Two ways of taking a nonempty sequence apart, stated once so that proofs about sequences
    of large values do not have to rebuild them element by element. */
module SeqFacts {
  lemma HeadTail<T>(s: seq<T>)
    requires |s| > 0
    ensures [s[0]] + s[1..] == s
  {
  }

  lemma InitLast<T>(s: seq<T>)
    requires |s| > 0
    ensures s[..|s| - 1] + [s[|s| - 1]] == s
  {
  }
}
