/** Small facts about sequences, kept apart so that proofs can use them
    without reasoning about concatenation in a large context. */
module SeqFacts {

  lemma AppendSnoc<T>(a: seq<T>, xs: seq<T>)
    requires xs != []
    ensures a + xs == a + xs[..|xs| - 1] + [xs[|xs| - 1]]
  {
  }

  lemma AppendEmpty<T>(a: seq<T>)
    ensures a + [] == a && [] + a == a
  {
  }

  lemma SplitEnds<T>(s: seq<T>)
    requires |s| >= 2
    ensures s == [s[0]] + s[1..|s| - 1] + [s[|s| - 1]]
  {
  }

  lemma AppendAssoc<T>(a: seq<T>, b: seq<T>, c: seq<T>)
    ensures a + b + c == a + (b + c)
  {
  }
}
