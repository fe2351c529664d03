/** Optional values and success-or-failure results, standing in for C#'s
    nullable `decimal?` and for the exceptions the service throws. */
module Wrappers {

  datatype Option<+T> = None | Some(value: T)

  datatype Result<+T, +E> = Success(value: T) | Failure(error: E)
}
