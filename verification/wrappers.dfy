/** Optional values and success-or-error results, used for the source's
    optional record fields and for the errors it raises. */
module Wrappers {

  datatype Option<+T> = None | Some(value: T)

  datatype Result<+R, +E> = Success(value: R) | Failure(error: E)
}
