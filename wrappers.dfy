/** The wrappers used across the model: an optional value
    (JavaScript's `undefined`/`null` versus a value) and a result that
    either carries a value or the error a call would throw. */
module Wrappers {

  datatype Option<+T> = None | Some(value: T)

  datatype Result<+R, +E> = Success(value: R) | Failure(error: E)
}
