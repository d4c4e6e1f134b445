/** Optional values and success/failure results, used for records that may be
    missing and for operations that fail instead of throwing. */
module Wrappers {

  datatype Option<+T> = None | Some(value: T)

  datatype Result<+R, +E> = Success(value: R) | Failure(error: E)
}
