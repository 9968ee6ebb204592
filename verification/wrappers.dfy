/** Failure-carrying datatypes shared by the whole model. */
module Wrappers {

  /** An optional value: `None` plays the part of JavaScript's `undefined` or `NaN`. */
  datatype Option<+T> = None | Some(value: T)

  /** The outcome of a computation that may throw. */
  datatype Result<+R, +E> = Success(value: R) | Failure(error: E)
}
