/** Optional values and error-carrying results used across the model. */
module Wrappers {

  /** A value that may be missing: Python's `None`, or pandas' NaN. */
  datatype Option<+T> = None | Some(value: T)

  /** The outcome of an operation that can raise: `Err` stands for the exception. */
  datatype Result<+T, +E> = Ok(value: T) | Err(error: E)
}
