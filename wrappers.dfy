/** Failure-carrying results: PHP exceptions of the engine become explicit values. */
module Wrappers {

  datatype Option<+T> = None | Some(value: T)

  /** A value, or the message of the exception that replaced it. */
  datatype Result<+T> = Ok(value: T) | Err(error: string)

  /** Normal completion, or the message of the exception raised. */
  datatype Outcome = Pass | Fail(error: string)
}
