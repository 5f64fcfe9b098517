/**
 * The `gemini-chat-proxy` edge function: relays a prompt to Gemini's
 * `generateContent` and returns the first candidate's first text part.
 */
module GeminiChatProxy {
  import opened Wrappers
  import opened JsonValue
  import opened Http

  const MissingPromptMessage := "Missing prompt in request body"
  const UpstreamFailedMessage := "Failed to get response from Gemini API"
  const MissingTextMessage := "Gemini response missing text content"

  /** The response (or rejection) together with the JSON POSTed to Gemini, if it was called. */
  datatype Exchange = Exchange(handled: Handled, sent: Option<Json>)

  /** The body sent to `gemini-pro:generateContent`. */
  function GenerateRequest(prompt: Json): Json
  {
    Obj1("contents", JArr([Obj1("parts", JArr([Obj1("text", prompt)]))]))
  }

  /** `data.candidates?.[0]?.content?.parts?.[0]?.text` (`data` is not null). */
  function ReplyText(data: Json): Option<Json>
    requires !data.JNull?
  {
    OptProp(OptElem0(OptProp(OptProp(OptElem0(Prop(data, "candidates")), "content"), "parts")), "text")
  }

  /** A reply of the documented shape whose first candidate's first part holds `text`. */
  function ReplyOf(candidates: seq<Json>, parts: seq<Json>, text: Json): Json
  {
    var part := Obj1("text", text);
    var first := Obj1("content", Obj1("parts", JArr([part] + parts)));
    Obj1("candidates", JArr([first] + candidates))
  }

  /** The text read is the first candidate's first part, whatever follows them. */
  lemma {:induction false} ReplyTextOfReply(candidates: seq<Json>, parts: seq<Json>, text: Json)
    ensures ReplyText(ReplyOf(candidates, parts, text)) == Some(text)
  {
    var part := Obj1("text", text);
    var first := Obj1("content", Obj1("parts", JArr([part] + parts)));
    assert ([first] + candidates)[0] == first;
    assert ([part] + parts)[0] == part;
  }

  /** Without candidates, or with an empty list of them, there is no text. */
  lemma NoCandidatesNoText(data: Json)
    requires !data.JNull?
    requires var c := Prop(data, "candidates"); c.None? || c.value.JNull? || c.value == JArr([])
    ensures ReplyText(data).None?
  {
  }

  /** The answer is usable: `geminiText` is truthy. */
  predicate Usable(upstream: Upstream)
  {
    && upstream.Replied? && Ok(upstream.status) && upstream.body.Decoded?
    && !upstream.body.value.JNull? && Present(ReplyText(upstream.body.value))
  }

  /** The try block after `fetch`, from its outcome to the response. */
  function Classify(upstream: Upstream): (r: Response)
    // 200 exactly on a usable answer, and then with exactly the nested text
    ensures r.status == 200 <==> Usable(upstream)
    ensures Usable(upstream) ==> r.body == JsonBody(Obj1("response", ReplyText(upstream.body.value).value))
    // a refused request keeps the upstream status and reports its body as `details`
    ensures upstream.Replied? && !Ok(upstream.status) && upstream.body.Decoded? && !NullBodyStatus(upstream.status) ==>
      r == Response(upstream.status, JsonBody(Obj2("error", JStr(UpstreamFailedMessage), "details", upstream.body.value)))
    // absent or falsy text is a 500 carrying the raw answer
    ensures upstream.Replied? && Ok(upstream.status) && upstream.body.Decoded? && !upstream.body.value.JNull?
            && !Present(ReplyText(upstream.body.value)) ==>
      r == Response(500, JsonBody(Obj2("error", JStr(MissingTextMessage), "rawResponse", upstream.body.value)))
    ensures upstream.FetchFailed? ==> r == Caught(upstream.error)
    ensures upstream.Replied? && upstream.body.DecodeFailed? ==> r == Caught(upstream.body.error)
    ensures r.status != 200 ==> IsErrorJson(r.body)
  {
    match upstream
    case FetchFailed(e) => Caught(e)
    case Replied(status, body) =>
      match body
      case DecodeFailed(e) => Caught(e)
      case Decoded(data) =>
        if !Ok(status) then
          PassThrough(status, Obj2("error", JStr(UpstreamFailedMessage), "details", data))
        else if data.JNull? then
          Caught(NullReadError("candidates"))
        else
          var text := ReplyText(data);
          if !Present(text) then Response(500, JsonBody(Obj2("error", JStr(MissingTextMessage), "rawResponse", data)))
          else Response(200, JsonBody(Obj1("response", text.value)))
  }

  /** The request passes every check before the try block: a POST whose `prompt` is truthy. */
  predicate Accepted(req: Request)
  {
    req.verb == "POST" && req.body.Decoded? && !req.body.value.JNull? && Present(Prop(req.body.value, "prompt"))
  }

  /** The `serve` handler; `upstream` is what `fetch` would produce. */
  function Handle(req: Request, upstream: Upstream): (x: Exchange)
    ensures req.verb != "POST" ==> x == Exchange(Responded(MethodNotAllowed), None)
    // Gemini is called exactly for accepted requests, with exactly the request's prompt
    ensures x.sent.Some? <==> Accepted(req)
    ensures Accepted(req) ==> x.sent == Some(GenerateRequest(Prop(req.body.value, "prompt").value))
                              && x.handled == Responded(Classify(upstream))
    // a falsy prompt is a plain-text 400
    ensures req.verb == "POST" && req.body.Decoded? && !req.body.value.JNull? && !Accepted(req) ==>
      x.handled == Responded(Response(400, Text(MissingPromptMessage)))
    // decoding the request body happens outside the try block: its failures escape the handler
    ensures x.handled.Rejected? <==> req.verb == "POST" && (req.body.DecodeFailed? || req.body.value.JNull?)
  {
    if req.verb != "POST" then Exchange(Responded(MethodNotAllowed), None)
    else
      match req.body
      case DecodeFailed(e) => Exchange(Rejected(e), None)
      case Decoded(v) =>
        if v.JNull? then Exchange(Rejected(NullDestructureError("prompt")), None)
        else
          var prompt := Prop(v, "prompt");
          if !Present(prompt) then Exchange(Responded(Response(400, Text(MissingPromptMessage))), None)
          else Exchange(Responded(Classify(upstream)), Some(GenerateRequest(prompt.value)))
  }

  /** A well-formed Gemini reply to an accepted prompt is relayed as `{response: text}`. */
  lemma RelaysWellFormedReply(prompt: string, candidates: seq<Json>, parts: seq<Json>, text: string)
    requires prompt != "" && text != ""
    ensures Handle(Request("POST", Decoded(Obj1("prompt", JStr(prompt)))), Replied(200, Decoded(ReplyOf(candidates, parts, JStr(text)))))
            == Exchange(Responded(Response(200, JsonBody(Obj1("response", JStr(text))))), Some(GenerateRequest(JStr(prompt))))
  {
    ReplyTextOfReply(candidates, parts, JStr(text));
  }

  /** `await req.json()` comes before the `try`: a malformed body is never answered by the handler. */
  lemma MalformedBodyEscapes(e: JsError, upstream: Upstream)
    ensures Handle(Request("POST", DecodeFailed(e)), upstream).handled == Rejected(e)
  {
  }

  /** The handler with the decoding inside its try block: every request is answered. */
  function HandleGuarded(req: Request, upstream: Upstream): (x: Exchange)
    ensures x.handled.Responded?
    ensures x.sent == Handle(req, upstream).sent
    ensures Handle(req, upstream).handled.Responded? ==> x.handled == Handle(req, upstream).handled
    ensures req.verb == "POST" && req.body.DecodeFailed? ==> x.handled.response == Caught(req.body.error)
  {
    var y := Handle(req, upstream);
    Exchange(Responded(Guarded(y.handled)), y.sent)
  }
}
