/** The optional value used throughout the model. */
module Wrappers {
  datatype Option<+T> = None | Some(value: T)

  /** `Option<i64>` compared as the standard library does: `None` is below every `Some`. */
  predicate Leq(a: Option<int>, b: Option<int>) {
    a.None? || (b.Some? && a.value <= b.value)
  }

  function Max(a: Option<int>, b: Option<int>): Option<int> {
    if Leq(a, b) then b else a
  }

  function Min(a: Option<int>, b: Option<int>): Option<int> {
    if Leq(a, b) then a else b
  }
}
