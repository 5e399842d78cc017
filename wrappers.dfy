/** Option and Result values used across the model. */
module Wrappers {

  /** An optional value: Swift's `T?`. */
  datatype Option<+T> = None | Some(value: T)

  /** A value or the description of the error that was thrown instead. */
  datatype Result<+T, +E> = Ok(value: T) | Err(error: E)
}
