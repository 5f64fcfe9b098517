/**
 * The request/response vocabulary of the three Deno edge functions: what
 * `serve` hands a handler, what `fetch` answers, how `new Response` is built,
 * and what a rejected handler promise is.
 */
module Http {
  import opened JsonValue

  /** The statuses `new Response` accepts (it throws a RangeError outside 200-599); `fetch` only reports these. */
  type Status = s: int | 200 <= s <= 599 witness 200

  datatype Body = Text(text: string) | JsonBody(value: Json)

  datatype Response = Response(status: Status, body: Body)

  /** A thrown JavaScript error, reduced to its `message`. */
  datatype JsError = JsError(message: string)

  /** The outcome of awaiting `.json()` on a request or response body. */
  datatype Decoded = DecodeFailed(error: JsError) | Decoded(value: Json)

  /** `req.method` is `verb`; `body` is what `await req.json()` gives. */
  datatype Request = Request(verb: string, body: Decoded)

  /** What the handler's promise settles to: a response, or a rejection nothing in the handler catches. */
  datatype Handled = Responded(response: Response) | Rejected(error: JsError)

  /** What awaiting `fetch(...)` against the Gemini API produced. */
  datatype Upstream = FetchFailed(error: JsError) | Replied(status: Status, body: Decoded)

  /** `response.ok` */
  predicate Ok(status: Status)
  {
    200 <= status <= 299
  }

  /** Statuses (within 200-599) for which `new Response` refuses a body. */
  predicate NullBodyStatus(status: Status)
  {
    status == 204 || status == 205 || status == 304
  }

  const MethodNotAllowed := Response(405, Text("Method Not Allowed"))

  const NullBodyStatusError := JsError("Response with null body status cannot have body")

  /** V8's TypeError for reading property `name` of null. */
  function NullReadError(name: string): JsError
  {
    JsError("Cannot read properties of null (reading '" + name + "')")
  }

  /** V8's TypeError for `const { name } = null`. */
  function NullDestructureError(name: string): JsError
  {
    JsError("Cannot destructure property '" + name + "' of '(intermediate value)' as it is null.")
  }

  function ErrorJson(message: string): Json
  {
    Obj1("error", JStr(message))
  }

  /** The catch block shared by the three handlers: status 500 with the error's message. */
  function Caught(e: JsError): (r: Response)
    ensures r.status == 500 && r.body.JsonBody?
    ensures r.body.value.JObj? && "error" in r.body.value.fields
  {
    Response(500, JsonBody(ErrorJson(e.message)))
  }

  /**
   * `new Response(JSON.stringify(value), { status })` inside the try block:
   * the upstream status is kept, unless it is one that cannot carry a body, in
   * which case the constructor throws and the catch block answers.
   */
  function PassThrough(status: Status, value: Json): (r: Response)
    ensures !NullBodyStatus(status) ==> r == Response(status, JsonBody(value))
    ensures NullBodyStatus(status) ==> r == Caught(NullBodyStatusError)
    // the caller sees the upstream status or the catch block's 500, and an error report stays one
    ensures r.status == status || r.status == 500
    ensures value.JObj? && "error" in value.fields ==> IsErrorJson(r.body)
  {
    if NullBodyStatus(status) then Caught(NullBodyStatusError) else Response(status, JsonBody(value))
  }

  /**
   * The answer a handler gives once its request-body decoding sits inside its
   * try block: a rejection is answered by the catch block instead.
   */
  function Guarded(h: Handled): (r: Response)
    ensures h.Responded? ==> r == h.response
    ensures h.Rejected? ==> r == Caught(h.error)
  {
    match h
    case Responded(resp) => resp
    case Rejected(e) => Caught(e)
  }

  /** A JSON object carrying an `error` member: how every handler reports a JSON failure. */
  predicate IsErrorJson(b: Body)
  {
    b.JsonBody? && b.value.JObj? && "error" in b.value.fields
  }
}
