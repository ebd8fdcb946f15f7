/** Optional values and error-carrying results, used wherever the source
    returns `None` or raises an HTTP error instead of a value. */
module Wrappers {

  datatype Option<+T> = None | Some(value: T)

  datatype Result<+R, +E> = Success(value: R) | Failure(error: E)
}
