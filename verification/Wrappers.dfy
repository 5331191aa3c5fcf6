/** The failure-compatible result types used by the model in place of None and exceptions. */
module Wrappers {

  datatype Option<+T> = None | Some(value: T)

  /** `Failure` stands for a raised exception. */
  datatype Result<+T, +E> = Success(value: T) | Failure(error: E)
}
