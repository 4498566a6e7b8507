/** The outcome of an operation that can raise instead of returning. */
module Wrappers {

  datatype Result<+T, +E> = Success(value: T) | Failure(error: E)
}
