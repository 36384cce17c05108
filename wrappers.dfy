/** Failure-carrying wrappers used across the model: Python's `None` and its exceptions. */
module Wrappers {

  /** A value that may be absent (Python's `Optional`, a key missing from a dict). */
  datatype Option<+T> = None | Some(value: T)

  /** The outcome of a step that may raise: the value it returns, or the text of the
      exception it raises (`str(e)` in the source). */
  datatype Result<+T, +E> = Ok(value: T) | Err(error: E)
}
