/** Small failure-carrying datatypes shared by the whole model. */
module Wrappers {

  datatype Option<+T> = None | Some(value: T)

  /** The value of a computation that may raise, with the raised error. */
  datatype Result<+T, +E> = Ok(value: T) | Err(error: E)

  /** The outcome of a procedure that returns nothing but may raise. */
  datatype Outcome<+E> = Pass | Fail(error: E)
}
