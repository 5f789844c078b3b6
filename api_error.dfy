/** `ApiError` (an `Error` subclass with `statusCode`, `errors` and `stack`) and
    the other errors a handler can throw. Every caller writes
    `new ApiError(code, text)`, while the constructor's first parameter is the
    message and its second the status code: the HTTP code becomes the message
    and the text the `statusCode`. No `ApiError` ever has a `code` property. */
module ApiErrors {
  import opened Common
  import opened JsStrings

  /** The JavaScript values that reach the constructor's parameters. */
  datatype JsValue = Undefined | Null | Bool(b: bool) | Num(n: int) | Str(s: string)

  /** `String(v)`, which `Error` stores as the message; an undefined message
      leaves the inherited empty message. */
  function ToJsString(v: JsValue): string
  {
    match v
    case Undefined => ""
    case Null => "null"
    case Bool(b) => if b then "true" else "false"
    case Num(n) => if n < 0 then "-" + DecimalString(-n) else DecimalString(n)
    case Str(s) => s
  }

  datatype ApiError = ApiError(message: string, statusCode: JsValue, errors: seq<JsValue>, stack: JsValue)

  /** `new ApiError(message, statusCode, errors, stack)`: an undefined argument
      takes its default ("Some error occurred", `[]`, `""`); `stack` replaces
      the trace `Error` would have recorded. */
  function NewApiError(message: JsValue, statusCode: JsValue, errors: Option<seq<JsValue>>, stack: JsValue): ApiError
  {
    ApiError(
      ToJsString(message),
      if statusCode.Undefined? then Str("Some error occurred") else statusCode,
      if errors.None? then [] else errors.value,
      if stack.Undefined? then Str("") else stack)
  }

  /** What a handler can throw. */
  datatype JsError =
    | ApiErr(error: ApiError)
      /** using a name that was never imported */
    | ReferenceError(name: string)
      /** reading a property of `undefined` or `null` */
    | TypeError(message: string)
      /** a Mongoose schema validator refused the document */
    | ValidationFailed(model: string)
      /** the database server refused the operation, with its error code */
    | MongoError(code: int, message: string)

  /** The error code the database server gives a duplicate key. */
  const DuplicateKey: int := 11000
  /** The code used here for a query stage the server refuses (a negative or
      non-numeric skip, a limit that is not positive). */
  const BadValue: int := 2
  const BadValueMessage: string := "BadValue"
  /** The codes the server gives a field path with an empty piece, with a
      piece starting with `$`, and with a piece holding a NUL character. */
  const EmptyFieldName: int := 15998
  const DollarFieldName: int := 16410
  const NulFieldName: int := 16411

  /** `error.message`. */
  function MessageOf(e: JsError): string
  {
    match e
    case ApiErr(a) => a.message
    case ReferenceError(name) => name + " is not defined"
    case TypeError(m) => m
    case ValidationFailed(model) => model + " validation failed"
    case MongoError(_, m) => m
  }

  /** `error.code`: only the database server's errors carry one. */
  function CodeOf(e: JsError): JsValue
  {
    match e
    case MongoError(c, _) => Num(c)
    case _ => Undefined
  }

  /** `new ApiError(code, text)` as every handler writes it. */
  function Api(code: nat, text: string): JsError
  {
    ApiErr(NewApiError(Num(code), Str(text), None, Undefined))
  }

  /** The status the author meant: the first constructor argument, which is
      the error's message. */
  function IntendedStatus(e: ApiError): Option<int>
  {
    ParseInt(e.message)
  }

  /** With no arguments after the message, the fields take their defaults. */
  lemma Defaults(message: JsValue)
    ensures var e := NewApiError(message, Undefined, None, Undefined);
      && e.message == ToJsString(message)
      && e.statusCode == Str("Some error occurred")
      && e.errors == []
      && e.stack == Str("")
  {
  }

  /** The handlers' calls store the code's digits as the message and the
      text as the status code; the intended code can be read back from the
      message, and no call produces an error with a `code`. */
  lemma {:induction false} CallerConvention(code: nat, text: string)
    ensures Api(code, text).error.message == DecimalString(code)
    ensures Api(code, text).error.statusCode == Str(text)
    ensures Api(code, text).error.errors == []
    ensures IntendedStatus(Api(code, text).error) == Some(code)
    ensures CodeOf(Api(code, text)) == Undefined
  {
    var e := NewApiError(Num(code), Str(text), None, Undefined);
    assert Api(code, text).error == e;
    assert ToJsString(Num(code)) == DecimalString(code);
    assert e.message == ToJsString(Num(code));
    ParseIntDecimalString(code);
  }

  /** The text the caller meant as the message does not reach `message`
      unless it is itself the code's digits. */
  lemma {:induction false} TextIsNotMessage(code: nat, text: string)
    requires text != DecimalString(code)
    ensures MessageOf(Api(code, text)) != text
  {
  }
}
