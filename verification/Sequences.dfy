/** Two facts about concatenation that the prover has to be reminded of. */
module Sequences {
  lemma Associates<T>(a: seq<T>, b: seq<T>, c: seq<T>)
    ensures a + (b + c) == (a + b) + c
  {}

  lemma Trimmed<T>(s: seq<T>)
    ensures [] + s == s && s + [] == s
  {}
}
