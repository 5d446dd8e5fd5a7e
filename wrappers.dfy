/** Optional values and results with an error, used for absent avatars, lookups and fallible downloads. */
module Wrappers {

  datatype Option<+T> = None | Some(value: T)

  datatype Result<+R, +E> = Success(value: R) | Failure(error: E)
}
