/** Absence and failure values shared by the other modules. */
module Wrappers {

  /** `undefined` (None) or a defined value (Some). */
  datatype Option<+T> = None | Some(value: T)

  /** A normal return (Ok) or a thrown `Error` carrying its message (Err). */
  datatype Result<+T> = Ok(value: T) | Err(message: string)
}
