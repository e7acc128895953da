/** Optional values (a JavaScript value that may be `undefined`) and
    results that either succeed or carry the reason a step failed. */
module Wrappers {

  datatype Option<+T> = None | Some(value: T)

  datatype Result<+T, +E> = Success(value: T) | Failure(error: E)
}
