/** Failure-carrying datatypes used in place of Java's `null` returns and
    checked exceptions. */
module Wrappers {

  /** An optional value: `None` stands for a Java `null`. */
  datatype Option<+T> = None | Some(value: T)

  /** Either a value or the error that a Java method would have thrown. */
  datatype Result<+R, +E> = Success(value: R) | Failure(error: E)

  /** The outcome of a `void` Java method: it returned, or it threw. */
  datatype Outcome<+E> = Pass | Fail(error: E)
}
