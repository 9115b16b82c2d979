/** Failure-carrying results: the Java methods throw, the model returns. */
module Wrappers {

  datatype Option<+T> = None | Some(value: T)

  /** The outcome of a `void` Java method: it returns normally or throws `error`. */
  datatype Outcome<+E> = Pass | Fail(error: E)

  /** The outcome of a value-returning Java method: a value or a thrown `error`. */
  datatype Result<+T, +E> = Success(value: T) | Failure(error: E)
}
