/** Optional values and error returns shared by the stores and the endpoint. */
module Wrappers {

  /** A value that may be absent (Python's `Optional[...]`, `None`). */
  datatype Option<+T> = None | Some(value: T) {
    function GetOr(default: T): T {
      match this
      case Some(v) => v
      case None => default
    }
  }

  /** The outcome of an operation that can fail (a raised exception in the source). */
  datatype Result<+T, +E> = Ok(value: T) | Err(error: E)
}
