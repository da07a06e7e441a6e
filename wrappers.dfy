/** Option and Result, the two outcome shapes the patterns need:
    a lookup that may find nothing, a factory call that may fail. */
module Wrappers {

  datatype Option<+T> = None | Some(value: T)

  datatype Result<+R, +E> = Success(value: R) | Failure(error: E)
}
