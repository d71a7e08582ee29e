/** Option and Result values standing in for PHP's `null`/`false` returns and
    for thrown exceptions (the error carries the exception message). */
module Wrappers {

  datatype Option<+T> = None | Some(value: T)

  datatype Result<+T, +E> = Success(value: T) | Failure(error: E)

  /** A step that either completes or throws. */
  datatype Outcome<+E> = Pass | Fail(error: E)
}
