/** Absence and failure values shared by every component of the model. */
module Wrappers {

  /** A value that may be absent (Python's None, JavaScript's null/undefined). */
  datatype Option<+T> = None | Some(value: T) {

    /** The wrapped value, or `default` when absent. */
    function GetOr(default: T): T {
      match this
      case Some(v) => v
      case None => default
    }
  }

  /** The outcome of an operation that may raise: a value or an error. */
  datatype Result<+R, +E> = Ok(value: R) | Err(error: E)
}
