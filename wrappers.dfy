/** Option and Result values, used where the Python code returns None or
    raises / exits instead of producing a value. */
module Wrappers {

  datatype Option<+T> = None | Some(value: T)

  datatype Result<+R, +E> = Success(value: R) | Failure(error: E)
}
