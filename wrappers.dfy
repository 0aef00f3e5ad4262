/** Optional values and success-or-error results, shared by every module. */
module Wrappers {

  /** A value that may be absent: C#'s `T?` / `null`, JavaScript's `undefined`. */
  datatype Option<+T> = None | Some(value: T) {
    function GetOr(default: T): T {
      match this
      case Some(v) => v
      case None => default
    }
  }

  /** The outcome of an operation that can throw: `Err` carries the exception's message. */
  datatype Result<+R> = Ok(value: R) | Err(error: string)
}
