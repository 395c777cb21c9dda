/** Option and Result, for Python's absent dictionary keys and raised exceptions. */
module Wrappers {

  datatype Option<+T> = None | Some(value: T) {
    /** Python's `d.get(key, default)` once the lookup has produced an Option. */
    function GetOr(default: T): T {
      match this
      case Some(v) => v
      case None => default
    }
  }

  datatype Result<+T, +E> = Success(value: T) | Failure(error: E)
}
