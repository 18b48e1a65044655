/** Optional values (Java's nullable references), results (a value or the
    exception the Java code would throw) and the Java value types the
    services share. */
module Wrappers {

  /** Java's 32-bit `int`. */
  newtype int32 = x: int | -0x8000_0000 <= x < 0x8000_0000

  /** A `java.time.Instant`, as milliseconds since the epoch. */
  type Instant = int

  /** A `java.time.LocalDate`, as days since the epoch. */
  type LocalDate = int

  /** A nullable reference: `None` stands for Java's `null`. */
  datatype Option<+T> = None | Some(value: T) {
    function GetOr(default: T): T {
      match this
      case Some(v) => v
      case None => default
    }
  }

  /** Either the value a Java method returns or the exception it throws. */
  datatype Result<+T, +E> = Success(value: T) | Failure(error: E)

  /** The exceptions the modelled services throw, by Java class. */
  datatype Exception =
    /** `Optional.orElseThrow()` on an empty optional. */
    | NoSuchElement
    /** `new RuntimeException(message)`. */
    | Runtime(message: string)
    /** `String.substring` with an end index past the string's length. */
    | StringIndexOutOfBounds
    /** `new IllegalArgumentException(message)` thrown by a library call. */
    | IllegalArgument(message: string)
    /** `new RuntimeException(cause)`, wrapping another exception. */
    | Wrapped(cause: Exception)
    /** Any exception thrown by the payment gateway client. */
    | GatewayFailure
}
