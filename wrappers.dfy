/** The failure-carrying result type used for the errors the engine raises. */
module Wrappers {

  /** Either the value an operation produced or the error it raised. */
  datatype Result<+T, +E> = Success(value: T) | Failure(error: E)
}
