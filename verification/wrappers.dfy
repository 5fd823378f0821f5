/** Small failure-carrying datatypes shared by the other modules. */
module Wrappers {

  /** Python's `Optional[T]`: `None` or a value. */
  datatype Option<+T> = None | Some(value: T)

  /** The exceptions the modelled code can raise, by Python class. */
  datatype Error =
    | ValueError(message: string)
    | FileNotFound(path: string)

  /** A call that either returns a value or raises one of the errors above. */
  datatype Result<+T> = Ok(value: T) | Err(error: Error)
}
