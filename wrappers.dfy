/** Optional values and results with an error, as the rest of the model uses them. */
module Wrappers {

  /** A value that may be missing: Python's `None`, SQL's NULL. */
  datatype Option<+T> = None | Some(value: T) {
    /** The value, or `default` when there is none: Python's `x or default` on an optional. */
    function GetOr(default: T): T {
      match this
      case Some(v) => v
      case None => default
    }
  }

  /** The outcome of an operation that can fail with an error of type E. */
  datatype Result<+R, +E> = Success(value: R) | Failure(error: E)
}
