/** `Option` and `Result`, shared by the audit model. */
module Wrappers {

  /** A value that may be absent; stands for a nullable column or an optional argument. */
  datatype Option<+T> = None | Some(value: T)

  /** The outcome of an operation that may raise. */
  datatype Result<+T, +E> = Ok(value: T) | Err(error: E)
}
