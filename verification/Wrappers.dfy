/** The two result shapes the models share. */
module Wrappers {
  /** A value that may be absent (the source's `None`). */
  datatype Option<+T> = None | Some(value: T)

  /** A returned value, or the exception that was raised instead. */
  datatype Result<+T, +E> = Ok(value: T) | Err(error: E)
}
