/** Option, Result and Outcome: null-or-value, value-or-thrown-error and
    completed-or-thrown-error, the three shapes the JavaScript code returns. */
module Wrappers {

  datatype Option<+T> = None | Some(value: T)

  datatype Result<+R, +E> = Success(value: R) | Failure(error: E)

  datatype Outcome<+E> = Pass | Fail(error: E)
}
