/** Option and Result, the two failure-carrying datatypes the model uses. */
module Wrappers {

  /** A value that may be missing: Python's `None` or a present value. */
  datatype Option<+T> = None | Some(value: T)

  /** The outcome of a step that may raise: its value, or the exception's text. */
  datatype Result<+T> = Ok(value: T) | Err(message: string)
}
