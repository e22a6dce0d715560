/** Optional values and results with an error, used for the inputs the
    dashboard may omit and for the operations that raise on malformed tables. */
module Wrappers {

  datatype Option<+T> = None | Some(value: T)

  datatype Result<+R, +E> = Success(value: R) | Failure(error: E)
}
