/** Value wrappers shared by the reactors: Swift's `Optional` and `Result`. */
module Basics {

  /** Swift's `T?`: `nil` or a wrapped value. */
  datatype Option<+T> = None | Some(value: T)

  /** Swift's `Result<Success, Failure>`: the outcome of a network request and its decoding. */
  datatype Result<+T, +E> = Success(value: T) | Failure(error: E)
}
