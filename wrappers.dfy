/** Option and Result, the two wrappers the model is written with. */
module Wrappers {

  /** A C# reference that may be null: `None` is null. */
  datatype Option<+T> = None | Some(value: T)

  /** The value of a call, or the exception it throws. */
  datatype Result<+T, +E> = Ok(value: T) | Err(error: E)
}
