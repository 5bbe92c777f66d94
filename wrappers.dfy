/** Option and Result, used for the source's error paths (exceptions and fatal exits). */
module Wrappers {
  datatype Option<+T> = None | Some(value: T)

  datatype Result<+T, +E> = Success(value: T) | Failure(error: E)
}
