/** Optional values and error-carrying results, used where the source
    has an `undefined` field, a falsy value or a thrown error. */
module Wrappers {

  datatype Option<+T> = None | Some(value: T)

  datatype Result<+R, +E> = Success(value: R) | Failure(error: E)
}
