/** Failure-compatible helper datatypes shared by the other modules. */
module Wrappers {

  /** A value that may be absent (Python's `None`). */
  datatype Option<+T> = None | Some(value: T)

  /** Either a value or the error that a Python exception would carry. */
  datatype Result<+T, +E> = Ok(value: T) | Err(error: E)
}
