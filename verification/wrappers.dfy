/** Failure-carrying datatypes shared by the whole model. */
module Wrappers {

  /** A value that may be absent, as `None` is in Python. */
  datatype Option<+T> = None | Some(value: T)

  /** The `ValueError`s the program raises, told apart by their cause. */
  datatype Error =
    | InvalidUrl            // host or path does not have the blob-URL shape
    | ConfigurationMissing  // the settings cannot produce an account name
    | AccountMismatch       // URL account differs from the configured one
    | ContainerMismatch     // URL container differs from the configured one
    | InvalidArgumentType   // an executable argument of an unsupported type
    | FileExists            // `mkdir` on a path that holds a regular file
    | IsADirectory          // `open(..., "wb")` on a path that holds a directory

  /** Either a value or the error that was raised instead. */
  datatype Result<+T> = Ok(value: T) | Err(error: Error)
}
