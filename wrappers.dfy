/** Option and Result, the two ways the model reports "no answer" and "raised". */
module Wrappers {
  datatype Option<T> = None | Some(value: T)

  /** The outcome of an operation that the source can abandon with an exception. */
  datatype Result<T> = Ok(value: T) | Err(error: string)
}
