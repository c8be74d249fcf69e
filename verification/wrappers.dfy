/** Failure-compatible wrappers shared by the order model: `Option` for the
    store's "document or null" answers and `Result` for operations that can
    reject their input or fail at run time. */
module Wrappers {

  datatype Option<+T> = None | Some(value: T) {

    /** The wrapped value, or `default` when there is none. */
    function GetOr(default: T): T {
      match this
      case Some(v) => v
      case None => default
    }
  }

  datatype Result<+R, +E> = Success(value: R) | Failure(error: E)
}
