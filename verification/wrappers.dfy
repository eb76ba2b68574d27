/** Small generic helpers shared by the chess modules. */
module Wrappers {

  /** A value that may be missing: Kotlin's nullable types. */
  datatype Option<+T> = None | Some(value: T)

  /** `xs` can be obtained from `ys` by deleting elements, keeping the order of the rest. */
  predicate IsSubsequence<T(==)>(xs: seq<T>, ys: seq<T>)
    decreases |ys|
  {
    if ys == [] then xs == []
    else (xs != [] && xs[0] == ys[0] && IsSubsequence(xs[1..], ys[1..])) || IsSubsequence(xs, ys[1..])
  }

  /** Every element of a subsequence occurs in the sequence it was taken from. */
  lemma {:induction false} SubsequenceElements<T>(xs: seq<T>, ys: seq<T>)
    requires IsSubsequence(xs, ys)
    ensures |xs| <= |ys|
    ensures forall x :: x in xs ==> x in ys
    decreases |ys|
  {
    if ys == [] {
    } else if xs != [] && xs[0] == ys[0] && IsSubsequence(xs[1..], ys[1..]) {
      SubsequenceElements(xs[1..], ys[1..]);
      forall x | x in xs
        ensures x in ys
      {
        if x != xs[0] {
          assert x in xs[1..];
        }
      }
    } else {
      SubsequenceElements(xs, ys[1..]);
    }
  }
}
