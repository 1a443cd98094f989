/** Optional values and results with an error channel. */
module Wrappers {

  /** A value that may be absent (Python's `None`). */
  datatype Option<+T> = None | Some(value: T)

  /** Either a value or the error that was raised instead. */
  datatype Result<+T, +E> = Ok(value: T) | Err(error: E)
}
