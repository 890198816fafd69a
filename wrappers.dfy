/** Option and Result values standing for Python's None and for the exceptions
    and process exits of the reporting script. */
module Wrappers {

  datatype Option<+T> = None | Some(value: T)

  datatype Result<+R, +E> = Success(value: R) | Failure(error: E)
}
