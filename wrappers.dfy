/** Option and Result, for Python's `None` and for the exceptions the core can raise. */
module Wrappers {

  /** A value that may be Python's `None`. */
  datatype Option<+T> = None | Some(value: T)

  /** An outcome that is either a value or a raised error. */
  datatype Result<+T, +E> = Ok(value: T) | Err(error: E)
}
