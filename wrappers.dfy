/**
 * Optional values and results, used wherever the Python code has an attribute
 * that may be unset, a value that may be None, or an operation that reports an
 * error instead of returning a value.
 */
module Wrappers {

  datatype Option<+T> = None | Some(value: T)

  datatype Result<+T, +E> = Success(value: T) | Failure(error: E)

}
