/** Shared vocabulary of the model: optional values, results, the HTTP
    exceptions the services throw, and the database error codes they inspect. */
module Common {

  datatype Option<T> = None | Some(value: T)

  /** The outcome of a service call: a value, or the exception it throws. */
  datatype Result<T> = Ok(value: T) | Err(error: Exception)

  /** Prisma's known request error codes (kajix-api/src/prisma/prisma.constants.ts).
      Any other code a driver may report is `OtherCode`. */
  datatype PrismaCode =
    | UniqueConstraintViolation      // P2002
    | RecordNotFound                 // P2025
    | ForeignKeyConstraintViolation  // P2003
    | RequiredRelationViolation      // P2014
    | RecordDoesNotExist             // P2001
    | OtherCode(code: string)

  /** A failure raised by the database client: a known request error carrying a
      code, or any other error (connection lost, timeout, ...). */
  datatype DbError = KnownRequest(code: PrismaCode) | OtherDbError(message: string)

  /** What a service call throws. The first six are the framework's HTTP
      exceptions; `Unhandled` is a database error the service rethrows as it
      got it; `PlainError` is an `Error` that is not an HTTP exception. */
  datatype Exception =
    | BadRequest(message: string)
    | Unauthorized(message: string)
    | NotFound(message: string)
    | RequestTimeout(message: string)
    | Conflict(message: string)
    | InternalServerError(message: string)
    | Unhandled(cause: DbError)
    | PlainError(message: string)
  {
    /** The message the exception carries (what `error.message` reads). */
    function Message(): string {
      match this
      case BadRequest(m) => m
      case Unauthorized(m) => m
      case NotFound(m) => m
      case RequestTimeout(m) => m
      case Conflict(m) => m
      case InternalServerError(m) => m
      case Unhandled(c) => if c.OtherDbError? then c.message else "Prisma known request error"
      case PlainError(m) => m
    }
  }

  function DigitChar(d: nat): (c: char)
    requires d < 10
    ensures '0' <= c <= '9'
  {
    "0123456789"[d]
  }

  /** Decimal rendering of a natural number, as a template literal shows it. */
  function NatToString(n: nat): (s: string)
    ensures |s| >= 1
    ensures forall i :: 0 <= i < |s| ==> '0' <= s[i] <= '9'
  {
    if n < 10 then [DigitChar(n)] else NatToString(n / 10) + [DigitChar(n % 10)]
  }

  /** Decimal rendering of an integer id interpolated into a message. */
  function IntToString(i: int): (s: string)
    ensures |s| >= 1
    ensures i >= 0 ==> s == NatToString(i)
    ensures i < 0 ==> s[0] == '-'
  {
    if i < 0 then "-" + NatToString(-i) else NatToString(i)
  }

  /** JavaScript truthiness of an optional string: present and non-empty. */
  predicate Truthy(s: Option<string>) {
    s.Some? && s.value != ""
  }
}
