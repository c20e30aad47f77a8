/** Optional values and results, shared by the whole model. */
module Wrappers {

  /** A value that may be absent: a missing request field or column. */
  datatype Option<+T> = None | Some(value: T) {

    /** The wrapped value, or `default` when there is none. */
    function GetOr(default: T): T {
      match this
      case Some(v) => v
      case None => default
    }
  }

  /** The outcome of a computation that can raise: the value or the error. */
  datatype Result<+R, +E> = Success(value: R) | Failure(error: E)
}
