/** Optional values and error-carrying results, used for Python's `None`
    defaults and for the exceptions the data source code raises. */
module Wrappers {

  datatype Option<+T> = None | Some(value: T)

  datatype Result<+R, +E> = Success(value: R) | Failure(error: E)
}
