/** Option and Result values shared by the modules of this project. */
module Wrappers {

  /** A value that may be missing: Python's `None` or an actual value. */
  datatype Option<+T> = None | Some(value: T)

  /** The outcome of an operation that may raise: a value, or the exception it raises. */
  datatype Result<+T, +E> = Ok(value: T) | Err(error: E)
}
