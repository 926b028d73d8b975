/** Small failure-carrying datatypes shared by the model. */
module Wrappers {

  /** A value that may be absent: `null`/`undefined` in the application. */
  datatype Option<+T> = None | Some(value: T)

  /** The outcome of a validation: the accepted value or the reason for rejection. */
  datatype Result<+T, +E> = Ok(value: T) | Err(error: E)

  /** The outcome of an operation that returns nothing but may throw. */
  datatype Outcome<+E> = Pass | Fail(error: E)
}
