/** Concatenation in the order in which the loops of the program build their lists. */
module Sequences {
  lemma {:induction false} Joined<T>(a: seq<T>, b: seq<T>, c: seq<T>, d: seq<T>)
    ensures a + b + c + d == a + (b + c + d)
  {
  }
}
