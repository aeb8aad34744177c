/** The two wrapper types the models share. */
module Wrappers {
  /** A value that may be absent, such as a nil pointer. */
  datatype Option<+T> = None | Some(value: T)

  /** A result or the error the source returns. */
  datatype Result<+T, +E> = Ok(value: T) | Err(error: E)
}
