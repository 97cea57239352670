/** Optional values and results, standing in for JavaScript's `undefined`
    and for the exceptions the modelled code lets escape. */
module Wrappers {

  /** A value that may be absent: `None` is an `undefined` property. */
  datatype Option<+T> = None | Some(value: T) {

    /** The value, or `fallback` when absent: JavaScript's `x ?? fallback`
        (and `x || fallback` for values that are never falsy). */
    function GetOr(fallback: T): T {
      match this
      case Some(v) => v
      case None => fallback
    }
  }

  /** The outcome of an operation that can throw. */
  datatype Result<+R, +E> = Ok(value: R) | Err(error: E)
}
