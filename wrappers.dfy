/** Java's `null` and its checked exceptions, as values. */
module Wrappers {

  /** A reference that may be `null`, such as the result of `HashMap.get`. */
  datatype Option<+T> = None | Some(value: T)

  /** A computation that either produces a value or throws `error`. */
  datatype Result<+R, +E> = Success(value: R) | Failure(error: E)
}
