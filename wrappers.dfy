/** Optional values and error-carrying results shared by every module. */
module Wrappers {

  /** A value that may be absent (Python `None`, JavaScript `null`/`undefined`). */
  datatype Option<+T> = None | Some(value: T) {
    function GetOr(default: T): T {
      match this
      case Some(v) => v
      case None => default
    }
  }

  /** The outcome of an operation that either succeeds or raises. */
  datatype Result<+T, +E> = Ok(value: T) | Err(error: E)
}
