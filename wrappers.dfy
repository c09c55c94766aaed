/** Optional values and results with an error, shared by every module of the model. */
module Wrappers {

  /** A value that may be absent: an unset document field, `undefined`, `null`. */
  datatype Option<+T> = None | Some(value: T) {
    function GetOr(default: T): T {
      match this
      case Some(v) => v
      case None => default
    }
  }

  /** The outcome of a store call: its value, or the error the call rejects with. */
  datatype Result<+R, +E> = Success(value: R) | Failure(error: E)
}
