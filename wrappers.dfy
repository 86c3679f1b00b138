/** Optional values and results, standing for Java's `null` and thrown exceptions. */
module Wrappers {

  /** `None` plays the role of a Java `null` reference. */
  datatype Option<+T> = None | Some(value: T)

  /** The outcome of a Java call that returns a value or throws `error`. */
  datatype Result<+T, +E> = Success(value: T) | Failure(error: E)

  /** The outcome of a Java `void` call that returns normally or throws `error`. */
  datatype Outcome<+E> = Pass | Fail(error: E)
}
