/** The failure-carrying result used where reading a descriptor can fail. */
module Wrappers {

  datatype Result<+T, +E> = Success(value: T) | Failure(error: E)
}
