/** Option and Result, the shapes used for JavaScript's `null` and for
    error-first callbacks (`cb(err)` versus `cb(null, value)`). */
module Wrappers {

  datatype Option<+T> = None | Some(value: T)

  datatype Result<+R, +E> = Success(value: R) | Failure(error: E)
}
