/** Failure-carrying wrappers used throughout the model: `Option` for Python's
    `None`-or-value results and `Result` for a value or a raised exception. */
module Wrappers {

  datatype Option<+T> = None | Some(value: T)

  datatype Result<+T, +E> = Success(value: T) | Failure(error: E)
}
