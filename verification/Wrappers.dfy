/** Result types shared by the component models. */
module Wrappers {
  datatype Option<+T> = None | Some(value: T)

  /** A call that either returns a value or raises an error of the source. */
  datatype Result<+T, +E> = Ok(value: T) | Err(error: E)
}
