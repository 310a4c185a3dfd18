/** Concatenation. */
module Sequences {
  lemma {:induction false} Concat<T>(a: seq<T>, b: seq<T>, c: seq<T>)
    ensures a + (b + c) == (a + b) + c
  {
  }
}
