/** Option and Result: the optional value of a parsed field, and the outcome of
    an operation that the source may abort with an exception. */
module Wrappers {

  datatype Option<+T> = None | Some(value: T)

  datatype Result<+R, +E> = Success(value: R) | Failure(error: E)
}
