/** Option and Result values shared by every module of the model. */
module Wrappers {
  datatype Option<T> = None | Some(value: T)

  /** An operation that either yields a value or raises; `Err` carries the kind of failure. */
  datatype Result<T> = Ok(value: T) | Err(error: string)
}
