/** The Option and Result datatypes used by the unparser model. */
module Wrappers {

  /** An optional value: `None` stands for an absent or `undefined` property. */
  datatype Option<+T> = None | Some(value: T)

  /** The outcome of an operation that may throw. */
  datatype Result<+T, +E> = Success(value: T) | Failure(error: E)
}
