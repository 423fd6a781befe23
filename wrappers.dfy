/** Optional values and results that carry an error text, as returned by the pipeline's collaborators. */
module Wrappers {

  datatype Option<+T> = None | Some(value: T)

  /** An operation that either produced a value or raised an exception with the given message. */
  datatype Result<+T> = Ok(value: T) | Err(error: string)
}
