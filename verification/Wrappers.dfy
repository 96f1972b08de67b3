/** Results and optional values shared by every module. */
module Wrappers {

  datatype Option<+T> = None | Some(value: T)

  /** The source's `Result`: an error is data, never a failed precondition. */
  datatype Result<+T, +E> = Ok(value: T) | Err(error: E)
}
