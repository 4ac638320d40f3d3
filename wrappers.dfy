/** Failure-carrying values used across the model. */
module Wrappers {

  /** A value that may be absent; `None` stands for the exception the source would raise. */
  datatype Option<+T> = None | Some(value: T)

  /** A computed value, or the error that stopped the computation. */
  datatype Result<+T, +E> = Ok(value: T) | Err(error: E)
}
