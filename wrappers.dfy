/** Optional values and outcomes that may carry an error message. */
module Wrappers {

  datatype Option<+T> = None | Some(value: T)

  /** An operation that either yields a value or raises with a message. */
  datatype Result<+T> = Ok(value: T) | Err(message: string)
}
