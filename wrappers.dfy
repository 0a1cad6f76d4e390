/** Option and Result, used where the Kotlin code returns null or throws. */
module Wrappers {

  datatype Option<+T> = None | Some(value: T)

  /** `Err` stands for a thrown exception, carrying its message. */
  datatype Result<+T> = Ok(value: T) | Err(message: string)
}
