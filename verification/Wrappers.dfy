/** Failure-carrying results, standing for the exceptions of the Python and C++ sources. */
module Wrappers {
  datatype Option<+T> = None | Some(value: T)

  datatype Result<+T, +E> = Ok(value: T) | Err(error: E)
}
