/** Option and Result types shared by the client and the cleanup script. */
module Wrappers {

  /** A value that may be absent, as a key missing from a settings dictionary. */
  datatype Option<+T> = None | Some(value: T) {

    /** The wrapped value, or `default` when absent (Python's `dict.get(key, default)`). */
    function GetOr(default: T): T
    {
      match this
      case Some(v) => v
      case None => default
    }
  }

  /** The result of an operation that can raise. */
  datatype Result<+T, +E> = Success(value: T) | Failure(error: E)
}
