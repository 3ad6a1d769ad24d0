/** Optional values and success/failure results, standing for Python's `None`
    returns and for exceptions raised to a caller. */
module Wrappers {

  datatype Option<+T> = None | Some(value: T)

  datatype Result<+R, +E> = Success(value: R) | Failure(error: E)
}
