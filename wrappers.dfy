/** Optional values and results, the stand-ins for Python's None and for raised exceptions. */
module Wrappers {

  /** A value that may be absent: Python's `None`, a SQL NULL, a pandas NaN. */
  datatype Option<+T> = None | Some(value: T) {

    /** The value, or `default` when absent. */
    function GetOr(default: T): T {
      match this
      case Some(v) => v
      case None => default
    }
  }

  /** The outcome of a call that can fail: a fetch, a parse, a transaction. */
  datatype Result<+R, +E> = Success(value: R) | Failure(error: E)
}
