/** Failure-carrying wrappers shared by every module of the model. */
module Base {

  /** A value that may be absent: Python's `None` or an object. */
  datatype Option<+T> = None | Some(value: T)

  /** The outcome of an operation that raises a Python exception on failure. */
  datatype Result<+T, +E> = Ok(value: T) | Err(error: E)
}
