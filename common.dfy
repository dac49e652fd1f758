/** Failure-compatible wrappers shared by every module of the model. */
module Common {

  /** An optional value: Python's `None` or a present value. */
  datatype Option<+T> = None | Some(value: T)

  /** The outcome of a call that may raise: its value, or the exception it raises. */
  datatype Result<+T, +E> = Ok(value: T) | Err(error: E)
}
