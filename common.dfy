/**
 * Value wrappers shared by every module: a nullable reference becomes an
 * `Option`, and a call that either returns or throws becomes a `Result`.
 */
module Common {

  /** A Kotlin `T?` / a Java reference that may be null. */
  datatype Option<+T> = None | Some(value: T)

  /** The value a call returns, or the exception it throws. */
  datatype Result<+T, +E> = Success(value: T) | Failure(error: E)
}
