/** Failure-carrying values shared by every module of the model. */
module Wrappers {

  datatype Option<+T> = None | Some(value: T)

  /** The outcome of a call that can fail with a message (a format decoder,
      a directory listing, the report generator): the value it produced, or
      the message of the error it raised. */
  datatype Result<+T> = Success(value: T) | Failure(error: string)
}
