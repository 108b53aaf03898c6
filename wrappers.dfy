/** Option and Result wrappers shared by the modules of the model. */
module Wrappers {

  /** An optional value: `None` plays the part of Python's `None` argument. */
  datatype Option<+T> = None | Some(value: T)

  /** The outcome of an operation that can raise: `Failure` carries the exception. */
  datatype Result<+R, +E> = Success(value: R) | Failure(error: E)
}
