/** The Option datatype used for values that may be absent (a missing
    storage slot, a missing `categoriesData`, a `null` selection). */
module Wrappers {

  datatype Option<+T> = None | Some(value: T) {

    /** The wrapped value, or `default` when absent (JavaScript's `x || default`
        for values that are either absent or an object/array). */
    function GetOr(default: T): T {
      match this
      case Some(v) => v
      case None => default
    }
  }
}
