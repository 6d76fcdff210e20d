/** Option and Result, standing for Java's nullable references and thrown exceptions. */
module Wrappers {

  /** A Java reference that may be null: `None` is null. */
  datatype Option<+T> = None | Some(value: T)

  /** The outcome of a Java call that may throw: `Failure` carries the exception. */
  datatype Result<+T, +E> = Success(value: T) | Failure(error: E)

  /** The Java exceptions that the modelled code throws or lets propagate. */
  datatype Exception =
    | NullPointerException
    | NumberFormatException
    | IOException(reason: IOReason)

  /** Why an IOException was raised. */
  datatype IOReason =
    | CannotCreateDirectory
    | TooManyRequests
    | UnsupportedContentType
}
