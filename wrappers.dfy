/** Values shared by every module: the optional value of a Java reference or
    `OptionalInt`, and the outcome of a Java call that may throw. */
module Wrappers {

  /** A Java reference that may be null, or an `OptionalInt` that may be empty. */
  datatype Option<+T> = None | Some(value: T)

  /** The unchecked exceptions the modelled code throws. */
  datatype Exception =
    | IllegalArgument   // java.lang.IllegalArgumentException
    | IllegalState      // java.lang.IllegalStateException
    | NumberFormat      // java.lang.NumberFormatException from Long.parseLong / Float.parseFloat
    | DateTime          // java.time.DateTimeException

  /** The outcome of a call: the returned value, or the exception it throws. */
  datatype Result<+T> = Success(value: T) | Failure(error: Exception)
}
