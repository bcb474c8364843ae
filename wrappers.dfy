/** The optional-value and result types shared by the profile model. */
module Wrappers {

  /** A value that may be absent. */
  datatype Option<+T> = None | Some(value: T) {

    /** The wrapped value, or `default` when there is none. */
    function GetOr(default: T): T {
      match this
      case Some(v) => v
      case None => default
    }
  }

  /** The outcome of a handler: a value, or the error the handler answers with. */
  datatype Result<+R, +E> = Success(value: R) | Failure(error: E)
}
