/** Facts about sequences shared by the models of lists and dicts. */
module Seqs {

  /** No element occurs twice. */
  predicate NoDuplicates<T(==)>(s: seq<T>)
  {
    forall i, j :: 0 <= i < j < |s| ==> s[i] != s[j]
  }

  /** `xs` is `ys` with some elements deleted: what remains keeps its order. */
  predicate IsSubsequence<T(==)>(xs: seq<T>, ys: seq<T>)
    decreases |ys|
  {
    if xs == [] then true
    else if ys == [] then false
    else
      (xs[|xs| - 1] == ys[|ys| - 1] && IsSubsequence(xs[..|xs| - 1], ys[..|ys| - 1]))
      || IsSubsequence(xs, ys[..|ys| - 1])
  }

  /** `a` occurs in `s` at some index before which, and at which, `b` has not yet occurred. */
  predicate OccursFirst<T(==)>(s: seq<T>, a: T, b: T)
  {
    exists p :: 0 <= p < |s| && s[p] == a && b !in s[..p + 1]
  }
}
