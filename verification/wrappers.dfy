/** Failure-carrying datatypes shared by the whole model. */
module Wrappers {

  /** An optional value: Python's `None` versus a present value. */
  datatype Option<T> = None | Some(value: T)

  /** A value or an error, used where the source raises an exception. */
  datatype Result<T, E> = Ok(value: T) | Err(error: E)
}
