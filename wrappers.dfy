/** Optional values and success/failure results, used wherever the console
    either produces a value or raises an error with a message. */
module Wrappers {

  datatype Option<+T> = None | Some(value: T)

  datatype Result<+R, +E> = Success(value: R) | Failure(error: E)
}
