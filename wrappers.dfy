/** Optional values and success/failure results, used for JavaScript's
    `null`/`undefined` and for the errors the delivery handler catches. */
module Wrappers {

  datatype Option<+T> = None | Some(value: T)

  datatype Result<+R, +E> = Success(value: R) | Failure(error: E)
}
