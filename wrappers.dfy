/** Optional values and error-carrying results, used where the Java code returns
    Optional/null or throws a checked or runtime exception. */
module Wrappers {

  datatype Option<+T> = None | Some(value: T)

  /** A result with a value, or the kind of failure that the Java code throws. */
  datatype Result<+T, +E> = Ok(value: T) | Err(error: E)

  /** The outcome of a `void` Java method that may throw. */
  datatype Outcome<+E> = Pass | Fail(error: E)
}
