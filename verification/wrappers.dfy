/** Optional values: JavaScript's `undefined`/`null` versus a present value. */
module Wrappers {

  datatype Option<+T> = None | Some(value: T) {

    /** The value, or `fallback` when absent (JavaScript's `x ?? fallback`). */
    function UnwrapOr(fallback: T): T {
      match this
      case Some(v) => v
      case None => fallback
    }
  }
}
