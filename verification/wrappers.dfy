/** Option and Result: JavaScript's `null`/`undefined` and a rejected promise, as values. */
module Wrappers {

  datatype Option<+T> = None | Some(value: T)

  datatype Result<+T, +E> = Success(value: T) | Failure(error: E)
}
