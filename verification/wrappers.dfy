/** Failure-carrying values shared by the modules of this project. */
module Wrappers {

  /** A value that may be absent; also stands for "this call raised" where
      the raised exception carries nothing the model needs. */
  datatype Option<+T> = None | Some(value: T)

  /** The value a Python call returns, or the exception it raises. */
  datatype Result<+T, +E> = Ok(value: T) | Err(error: E)
}
