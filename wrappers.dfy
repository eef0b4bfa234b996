/** Optional values and results, standing in for Python's `None` and exceptions. */
module Wrappers {

  datatype Option<+T> = None | Some(value: T) {

    /** The value if there is one, `default` otherwise (Python's `dict.get(key, default)`). */
    function GetOr(default: T): T {
      match this
      case Some(v) => v
      case None => default
    }
  }

  /** Either a value or the error that the source would have raised. */
  datatype Result<+R, +E> = Success(value: R) | Failure(error: E)
}
