/** Option and Result values used for Python's `None` returns and for
    exceptions that end an operation early. */
module Wrappers {

  datatype Option<+T> = None | Some(value: T)

  datatype Result<+R, +E> = Success(value: R) | Failure(error: E)
}
