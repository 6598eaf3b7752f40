/** Failure-compatible wrappers, the exception kinds the services throw, and
    the decimal rendering of identifiers used in error messages. */
module Common {

  datatype Option<T> = None | Some(value: T)

  /** Kotlin's `x ?: default` on a nullable value. */
  function GetOr<T>(o: Option<T>, default: T): (r: T)
    ensures o.Some? ==> r == o.value
    ensures o.None? ==> r == default
  {
    match o
    case Some(v) => v
    case None => default
  }

  /** One field error of a failed bean validation: the field name and its
      (nullable) default message. */
  datatype FieldError = FieldError(field: string, defaultMessage: Option<string>)

  /** The exceptions that reach the global exception handler. Each carries
      the nullable message of the Java exception. `Other` is any exception
      type without a dedicated handler. */
  datatype Exception =
    | NoSuchElement(message: Option<string>)
    | EntityNotFound(message: Option<string>)
    | IllegalArgument(message: Option<string>)
    | IllegalState(message: Option<string>)
    | AccessDenied(message: Option<string>)
    | ArgumentNotValid(fieldErrors: seq<FieldError>)
    | Other(message: Option<string>)

  /** The outcome of a service call: a value, or the exception it throws. */
  datatype Result<T> = Ok(value: T) | Err(error: Exception)

  /** Void service calls. */
  datatype Unit = Unit

  function DigitChar(d: nat): (c: char)
    requires d < 10
    ensures '0' <= c <= '9'
    ensures c as int - '0' as int == d
  {
    "0123456789"[d]
  }

  /** The number a string of decimal digits denotes, most significant
      digit first. */
  function DigitsValue(s: string): int
  {
    if s == [] then 0 else 10 * DigitsValue(s[..|s| - 1]) + (s[|s| - 1] as int - '0' as int)
  }

  /** Decimal rendering of a non-negative identifier, as Kotlin's string
      templates print a `Long`: digits only, denoting `n`, with no leading
      zero. */
  function Decimal(n: nat): (s: string)
    ensures 1 <= |s|
    ensures forall i :: 0 <= i < |s| ==> '0' <= s[i] <= '9'
    ensures DigitsValue(s) == n
    ensures s[0] == '0' <==> n == 0
  {
    if n < 10 then [DigitChar(n)]
    else
      var p := Decimal(n / 10);
      var s := p + [DigitChar(n % 10)];
      assert s[..|s| - 1] == p;
      s
  }
}
