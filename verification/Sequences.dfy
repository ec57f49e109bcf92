/** Two facts about concatenation that proofs ask for by name. */
module Sequences {
  lemma PrefixOfConcat<X>(a: seq<X>, b: seq<X>)
    requires b != []
    ensures (a + b)[..|a + b| - 1] == a + b[..|b| - 1] && (a + b)[|a + b| - 1] == b[|b| - 1]
  {
  }

  lemma Regroup<X>(a: seq<X>, b: seq<X>, c: seq<X>)
    ensures a + b + c == a + (b + c)
  {
  }
}
