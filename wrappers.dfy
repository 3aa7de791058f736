/** Optional values and failure-carrying results shared by the other modules. */
module Wrappers {

  /** A JavaScript value that may be `null`/`undefined`. */
  datatype Option<+T> = None | Some(value: T) {
    function GetOr(default: T): T {
      match this
      case Some(v) => v
      case None => default
    }
  }

  /** The outcome of an awaited call that may throw. */
  datatype Result<+T, +E> = Ok(value: T) | Err(error: E)
}
