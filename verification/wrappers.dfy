/** Optional values: JavaScript's `undefined`/`null` next to a present value. */
module Wrappers {

  datatype Option<+T> = None | Some(value: T) {

    /** The value, or `default` when absent (the `x ?? default` idiom). */
    function GetOr(default: T): T {
      match this
      case Some(v) => v
      case None => default
    }
  }

  /** JavaScript truthiness of a number that may be missing: `undefined`, `NaN`
      (both modelled as `None`) and `0` are falsy, every other number is truthy. */
  predicate Truthy(n: Option<int>) {
    n.Some? && n.value != 0
  }
}
