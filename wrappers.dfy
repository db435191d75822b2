/** Optional values and success/failure results shared by every module. */
module Wrappers {

  /** A value that may be absent: TypeScript's optional property or `undefined`. */
  datatype Option<+T> = None | Some(value: T)

  /** The outcome of a validator or a template load: a value or the reason it failed. */
  datatype Result<+T, +E> = Ok(value: T) | Err(error: E)
}
