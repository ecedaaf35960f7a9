/** Concatenation, regrouped. */
module Sequences {
  lemma Regroup<T>(a: seq<T>, b: seq<T>, c: seq<T>, d: seq<T>)
    ensures a + b + c + d == a + b + (c + d) == a + (b + (c + d)) == a + (b + c + d)
    ensures d == [] ==> a + b + c == a + (b + c)
  {
  }
}
