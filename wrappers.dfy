/** Small shared helpers: an optional value and a subsequence relation. */
module Wrappers {

  datatype Option<+T> = None | Some(value: T)
}

module Sequences {

  /** `a` is obtained from `b` by deleting some elements, keeping the rest in order. */
  ghost predicate IsSubsequence<T>(a: seq<T>, b: seq<T>)
    decreases |b|
  {
    if a == [] then true
    else if b == [] then false
    else (a[0] == b[0] && IsSubsequence(a[1..], b[1..])) || IsSubsequence(a, b[1..])
  }
}
