/** The exceptions the modelled Java code throws or catches. A call that
    throws returns `Err(e)` with one of these. */
module Exceptions {
  import opened Wrappers

  datatype Exception =
    | NullPointer
      /** `IllegalArgumentException(message)`. */
    | IllegalArgument(message: string)
      /** `RuntimeException(message)`. */
    | Runtime(message: string)
      /** `BusinessException` with its numeric code. */
    | Business(code: int, message: string)
      /** `MonitoringException(errorCode, message, cause)`. */
    | Monitoring(errorCode: string, message: string, cause: Exception)
      /** Any exception raised by a collaborator outside the model
          (a database or logging failure), with its message. */
    | Failure(message: string)

  /** `Throwable.getMessage()`; a bare NullPointerException has none. */
  function GetMessage(e: Exception): Option<string> {
    match e
    case NullPointer => None
    case IllegalArgument(m) => Some(m)
    case Runtime(m) => Some(m)
    case Business(_, m) => Some(m)
    case Monitoring(_, m, _) => Some(m)
    case Failure(m) => Some(m)
  }

  /** Java string concatenation of a possibly-null string. */
  function Show(s: Option<string>): string {
    match s
    case Some(v) => v
    case None => "null"
  }
}
