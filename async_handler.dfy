/** `asyncHandler(fn)`: runs a handler and turns whatever it throws into a
    `{ success: false, message }` reply with status `error.code || 500`. */
module AsyncHandler {
  import opened Common
  import opened JsStrings
  import opened ApiErrors

  /** How a handler run ends: it wrote a reply itself, or it threw. */
  datatype Completion<T> = Wrote(status: int, data: T) | Threw(error: JsError)

  datatype Body<T> = Data(data: T) | Failure(success: bool, message: string)

  /** What goes out on the wire. `NoReply`: the status the wrapper chose is
      not an HTTP status, so its own `res.status(..).json(..)` throws inside
      the `catch`, the wrapper's promise rejects, and under Express 4 nothing
      is sent (with no `unhandledRejection` handler, Node 15 and later then
      end the process). */
  datatype Reply<T> = Sent(status: int, body: Body<T>) | NoReply

  /** `error.code || 500`: a non-zero numeric code is the status; a missing
      or zero code gives 500. */
  function WireStatus(e: JsError): (s: int)
    ensures CodeOf(e).Num? && CodeOf(e).n != 0 ==> s == CodeOf(e).n
    ensures CodeOf(e) == Num(0) ==> s == 500
    ensures CodeOf(e).Undefined? ==> s == 500
  {
    match CodeOf(e)
    case Num(n) => if n != 0 then n else 500
    case _ => 500
  }

  predicate IsHttpStatus(s: int)
  {
    100 <= s <= 999
  }

  /** The reply of the wrapped handler. */
  function Wrap<T>(c: Completion<T>): (r: Reply<T>)
    ensures c.Wrote? ==> r == Sent(c.status, Data(c.data))
    ensures c.Threw? && r.Sent? ==> r.body == Failure(false, MessageOf(c.error))
    ensures c.Threw? ==> (r.Sent? <==> IsHttpStatus(WireStatus(c.error)))
  {
    match c
    case Wrote(s, d) => Sent(s, Data(d))
    case Threw(e) =>
      var s := WireStatus(e);
      if IsHttpStatus(s) then Sent(s, Failure(false, MessageOf(e))) else NoReply
  }

  /** Every `ApiError` a handler throws goes out as a 500 whose message is
      the digits of the status the handler meant. */
  lemma ApiErrorAlways500<T>(code: nat, text: string)
    ensures Wrap<T>(Threw(Api(code, text))) == Sent(500, Failure(false, DecimalString(code)))
  {
    var e := Api(code, text);
    var m := DecimalString(code);
    assert WireStatus(e) == 500 && MessageOf(e) == m by {
      CallerConvention(code, text);
    }
    WrapAnswered<T>(e);
  }

  /** A thrown error whose wire status is an HTTP status is answered with it. */
  lemma WrapAnswered<T>(e: JsError)
    requires IsHttpStatus(WireStatus(e))
    ensures Wrap<T>(Threw(e)) == Sent(WireStatus(e), Failure(false, MessageOf(e)))
  {
  }

  /** So the wire status equals the intended one only for an intended 500. */
  lemma {:induction false} WireMatchesIntentOnlyFor500(code: nat, text: string)
    ensures WireStatus(Api(code, text)) == code <==> code == 500
    ensures IntendedStatus(Api(code, text).error) == Some(code)
  {
    CallerConvention(code, text);
  }

  /** A duplicate key error carries code 11000, which the wrapper passes to
      `res.status`; that is no HTTP status, so no reply is sent. */
  lemma DuplicateKeyNoReply<T>(message: string)
    ensures Wrap<T>(Threw(MongoError(DuplicateKey, message))) == NoReply
  {
  }

  /** Errors without a code (references to missing names, reads of
      undefined, validation) all become 500 with their own message. */
  lemma CodelessErrorIs500<T>(e: JsError)
    requires !e.MongoError?
    ensures Wrap<T>(Threw(e)) == Sent(500, Failure(false, MessageOf(e)))
  {
  }
}
