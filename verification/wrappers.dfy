/** Optional values and results with an error, shared by the other modules. */
module Wrappers {

  /** A value that may be absent, used where the platform hands back a possibly-null handle. */
  datatype Option<+T> = None | Some(value: T)

  /** Either a value or the error that prevented computing it. */
  datatype Result<+T, +E> = Ok(value: T) | Err(error: E)
}
