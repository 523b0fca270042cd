/** Optional values and outcomes that either succeed or carry an error. */
module Wrappers {

  /** A value that may be absent: JavaScript's `null`/`undefined` or a missing property. */
  datatype Option<+T> = None | Some(value: T) {

    /** The value if present, otherwise `default`. */
    function GetOr(default: T): T {
      match this
      case Some(v) => v
      case None => default
    }
  }

  /** The outcome of an operation that either returns a value or throws. */
  datatype Result<+T, +E> = Success(value: T) | Failure(error: E)
}
