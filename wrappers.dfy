/** Shared building blocks: the absent-or-present value that stands for JavaScript's `null`, and one sequence fact. */
module Wrappers {
  datatype Option<+T> = None | Some(value: T)

  /** Regrouping a concatenation of three sequences. */
  lemma ConcatAssoc<T>(a: seq<T>, b: seq<T>, c: seq<T>)
    ensures (a + b) + c == a + (b + c)
  {
  }
}
