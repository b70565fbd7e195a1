/** A value that may be absent, such as a row looked up by key, and a value or the error that prevented it. */
module Wrappers {
  datatype Option<+T> = None | Some(value: T)

  datatype Result<+T, +E> = Ok(value: T) | Err(error: E)
}
