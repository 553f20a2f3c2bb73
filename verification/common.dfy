/** Shared vocabulary of the model: optional values, the exceptions the app
    distinguishes, and the two ways a Kotlin call can end (return or throw). */
module Common {

  datatype Option<+T> = None | Some(value: T) {
    /** Kotlin's elvis operator `x ?: default`. */
    function GetOr(default: T): T {
      match this
      case Some(v) => v
      case None => default
    }
  }

  /** The exception classes whose identity the core inspects. */
  datatype ExceptionClass =
    | CancellationException
    | IOException
    | SocketTimeoutException   // a subclass of IOException
    | OtherException

  datatype Exception = Exception(cls: ExceptionClass, message: Option<string>)

  /** `e is C` on the JVM: every class is an instance of itself, and a socket
      timeout is also an I/O exception. */
  predicate IsInstance(cls: ExceptionClass, of: ExceptionClass) {
    cls == of || (cls == SocketTimeoutException && of == IOException)
  }

  predicate IsCancellation(e: Exception) {
    IsInstance(e.cls, CancellationException)
  }

  /** How a call ends: it returns a value or it throws. */
  datatype Outcome<+T> = Returned(value: T) | Thrown(error: Exception)

  /** `kotlin.Result<Unit>`. */
  datatype UnitResult = Success | Failure(exception: Exception)

  function Min(a: int, b: int): int {
    if a <= b then a else b
  }
}
