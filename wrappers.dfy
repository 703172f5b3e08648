/** Optional values and results shared by the rate resolver and the converter. */
module Wrappers {

  /** A value that may be absent: an empty amount field, a failed foreign call. */
  datatype Option<+T> = None | Some(value: T)

  /** The outcome of an operation that can be refused. */
  datatype Result<+R, +E> = Ok(value: R) | Err(error: E)
}
