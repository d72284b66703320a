/** Failure-carrying values used where the source returns None or catches an exception. */
module Wrappers {

  /** A value that may be absent, as Python's `Optional[T]`. */
  datatype Option<+T> = None | Some(value: T) {

    /** Returns the value, or `default` when absent (Python's `x or default` on a dict). */
    function GetOr(default: T): T {
      match this
      case Some(v) => v
      case None => default
    }
  }

  /** The outcome of a call into a collaborator that may raise: a value or the exception text. */
  datatype Result<+R, +E> = Success(value: R) | Failure(error: E)
}
