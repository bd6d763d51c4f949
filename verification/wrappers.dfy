/** Small value types shared by every module of the model. */
module Wrappers {

  /** A value that may be absent: C#'s `null` for a reference, or an unset optional field. */
  datatype Option<+T> = None | Some(value: T)

  /** What a call into code outside the model gave back: its value, or the message of the exception it threw. */
  datatype Outcome<+T> = Ok(value: T) | Throws(message: string)
}
