/** Option and Result, the two failure-carrying shapes the model uses. */
module Wrappers {

  datatype Option<+T> = None | Some(value: T)

  /** The result of an operation that either yields a value or fails with an error. */
  datatype Result<+T, +E> = Ok(value: T) | Err(error: E)
}
