/** Optional values and the JavaScript truthiness test the game code applies to them. */
module Wrappers {

  /** A value that may be absent (`undefined`, `null` or a missing field). */
  datatype Option<+T> = None | Some(value: T)

  /** `if (n)` on an optional number: an absent number and 0 are both falsy. */
  predicate Truthy(n: Option<int>)
  {
    n.Some? && n.value != 0
  }
}
