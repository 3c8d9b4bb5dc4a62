/** Concatenation, for proofs that would otherwise regroup it by search. */
module Sequences {
  lemma Assoc<T>(a: seq<T>, b: seq<T>, c: seq<T>)
    ensures (a + b) + c == a + (b + c)
  {
  }

  lemma Tail<T>(x: T, a: seq<T>, b: seq<T>)
    ensures ([x] + a)[0] == x && ([x] + a)[1..] == a
    ensures ([x] + a) + b == [x] + (a + b)
  {
  }

  /** The two ends of a concatenation whose first part is not empty. */
  lemma HeadOfConcat<T>(a: seq<T>, b: seq<T>)
    requires a != []
    ensures (a + b)[0] == a[0] && (a + b)[1..] == a[1..] + b
  {
  }

  lemma LastOfSnoc<T>(a: seq<T>, x: T)
    ensures (a + [x])[|a|] == x && (a + [x])[..|a|] == a
  {
  }
}
