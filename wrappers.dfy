/** Optional values and results with an error, used wherever the Go code can
    miss (an index past the end of a slice, a rejected configuration). */
module Wrappers {

  datatype Option<+T> = None | Some(value: T)

  datatype Result<+R, +E> = Success(value: R) | Failure(error: E)

  datatype Outcome<+E> = Pass | Fail(error: E)
}
