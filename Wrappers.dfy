/** Small failure-carrying datatypes used across the model. */
module Wrappers {

  /** A value that may be absent; stands for a C# nullable reference or string. */
  datatype Option<+T> = None | Some(value: T)

  /** The outcome of an operation that returns nothing but may throw. */
  datatype Outcome<+E> = Pass | Fail(error: E)

  /** The outcome of an operation that returns a value or throws. */
  datatype Result<+R, +E> = Success(value: R) | Failure(error: E)
}
