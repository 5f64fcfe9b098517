/**
 * The `generate-embedding` edge function: checks the request, asks the
 * Gemini embedding API for the vector of `text`, and classifies the answer.
 * It keeps no state and stores nothing.
 */
module GenerateEmbedding {
  import opened Wrappers
  import opened JsonValue
  import opened Http

  const InvalidTextMessage := "Missing or invalid \"text\" in request body. Must be a string."
  const UpstreamFailedMessage := "Failed to get embedding from Gemini API"
  const MissingValuesMessage := "Gemini embedding response missing or invalid values"
  const EmbeddingModel := "models/embedding-001"

  /** The response (or rejection) together with the JSON the handler POSTed to the embedding API, if it called it. */
  datatype Exchange = Exchange(handled: Handled, sent: Option<Json>)

  /** The request's `text` when it passes `!text || typeof text !== 'string'`: a non-empty string. */
  function RequestText(body: Json): (t: Option<string>)
    requires !body.JNull?
    ensures t.Some? <==> Prop(body, "text").Some? && Prop(body, "text").value.JStr? && Prop(body, "text").value.s != ""
    ensures t.Some? ==> Prop(body, "text") == Some(JStr(t.value))
  {
    var v := Prop(body, "text");
    if v.Some? && v.value.JStr? && v.value.s != "" then Some(v.value.s) else None
  }

  /** The body sent to `embedding-001:embedContent`. */
  function EmbedRequest(text: string): Json
  {
    Obj2("model", JStr(EmbeddingModel), "content", Obj1("parts", JArr([Obj1("text", JStr(text))])))
  }

  /** `data.embedding?.values` when it is a non-empty array (`data` is not null). */
  function EmbeddingValues(data: Json): (v: Option<seq<Json>>)
    requires !data.JNull?
    ensures var e := OptProp(Prop(data, "embedding"), "values");
      v.Some? <==> (e.Some? && e.value.JArr? && |e.value.items| > 0)
    ensures v.Some? ==> OptProp(Prop(data, "embedding"), "values") == Some(JArr(v.value))
  {
    var e := OptProp(Prop(data, "embedding"), "values");
    if e.Some? && e.value.JArr? && |e.value.items| > 0 then Some(e.value.items) else None
  }

  /** An answer of the documented shape `{embedding: {values}}`. */
  function EmbeddingReply(values: seq<Json>): Json
  {
    Obj1("embedding", Obj1("values", JArr(values)))
  }

  /**
   * The vector read from an answer of the documented shape is its `values`
   * array, whatever its elements, and an empty array is no vector; an answer
   * without an `embedding` member, or one whose `embedding` is null, has none.
   */
  lemma EmbeddingOfReply(values: seq<Json>, other: map<string, Json>)
    ensures EmbeddingValues(EmbeddingReply(values)) == if values == [] then None else Some(values)
    ensures "embedding" !in other ==> EmbeddingValues(JObj(other)).None?
    ensures EmbeddingValues(Obj1("embedding", JNull)).None?
  {
    assert Prop(EmbeddingReply(values), "embedding") == Some(Obj1("values", JArr(values)));
  }

  /** The upstream answer is a usable embedding. */
  predicate Usable(upstream: Upstream)
  {
    && upstream.Replied? && Ok(upstream.status) && upstream.body.Decoded?
    && !upstream.body.value.JNull? && EmbeddingValues(upstream.body.value).Some?
  }

  /** The try block, from the `fetch` outcome to the response. */
  function Classify(upstream: Upstream): (r: Response)
    // 200 exactly on a usable answer, and then with exactly the upstream vector
    ensures r.status == 200 <==> Usable(upstream)
    ensures Usable(upstream) ==>
      r.body == JsonBody(Obj1("embedding", JArr(EmbeddingValues(upstream.body.value).value)))
    // a refused request keeps the upstream status and reports its body as `details`
    ensures upstream.Replied? && !Ok(upstream.status) && upstream.body.Decoded? && !NullBodyStatus(upstream.status) ==>
      r == Response(upstream.status, JsonBody(Obj2("error", JStr(UpstreamFailedMessage), "details", upstream.body.value)))
    // an accepted request whose answer lacks a non-empty `embedding.values` array is a 500 carrying the raw answer
    ensures upstream.Replied? && Ok(upstream.status) && upstream.body.Decoded? && !upstream.body.value.JNull?
            && EmbeddingValues(upstream.body.value).None? ==>
      r == Response(500, JsonBody(Obj2("error", JStr(MissingValuesMessage), "rawResponse", upstream.body.value)))
    // whatever throws inside the try is a 500 with the error's message
    ensures upstream.FetchFailed? ==> r == Caught(upstream.error)
    ensures upstream.Replied? && upstream.body.DecodeFailed? ==> r == Caught(upstream.body.error)
    ensures r.status != 200 ==> IsErrorJson(r.body)
  {
    match upstream
    case FetchFailed(e) => Caught(e)
    case Replied(status, body) =>
      match body
      case DecodeFailed(e) => Caught(e)
      case Decoded(data) =>
        if !Ok(status) then
          PassThrough(status, Obj2("error", JStr(UpstreamFailedMessage), "details", data))
        else if data.JNull? then
          Caught(NullReadError("embedding"))
        else
          match EmbeddingValues(data)
          case Some(values) => Response(200, JsonBody(Obj1("embedding", JArr(values))))
          case None => Response(500, JsonBody(Obj2("error", JStr(MissingValuesMessage), "rawResponse", data)))
  }

  /** The request passes every check before the try block. */
  predicate Accepted(req: Request)
  {
    req.verb == "POST" && req.body.Decoded? && !req.body.value.JNull? && RequestText(req.body.value).Some?
  }

  /**
   * The `serve` handler. `upstream` is what `fetch` would produce; it is
   * consulted only when the handler calls the API.
   */
  function Handle(req: Request, upstream: Upstream): (x: Exchange)
    ensures req.verb != "POST" ==> x == Exchange(Responded(MethodNotAllowed), None)
    // the API is called exactly for accepted requests, with exactly the request's text
    ensures x.sent.Some? <==> Accepted(req)
    ensures Accepted(req) ==> x.sent == Some(EmbedRequest(RequestText(req.body.value).value))
                              && x.handled == Responded(Classify(upstream))
    // a body that is missing, empty or not a string is a 400, before any call
    ensures req.verb == "POST" && req.body.Decoded? && !req.body.value.JNull? && !Accepted(req) ==>
      x.handled == Responded(Response(400, JsonBody(ErrorJson(InvalidTextMessage))))
    // decoding the request body happens outside the try block: its failures escape the handler
    ensures x.handled.Rejected? <==> req.verb == "POST" && (req.body.DecodeFailed? || req.body.value.JNull?)
  {
    if req.verb != "POST" then Exchange(Responded(MethodNotAllowed), None)
    else
      match req.body
      case DecodeFailed(e) => Exchange(Rejected(e), None)
      case Decoded(v) =>
        if v.JNull? then Exchange(Rejected(NullDestructureError("text")), None)
        else
          match RequestText(v)
          case None => Exchange(Responded(Response(400, JsonBody(ErrorJson(InvalidTextMessage)))), None)
          case Some(text) => Exchange(Responded(Classify(upstream)), Some(EmbedRequest(text)))
  }

  /** A handler that does not call the API answers the same whatever the API would have done. */
  lemma NoCallNoDependence(req: Request, u1: Upstream, u2: Upstream)
    requires Handle(req, u1).sent.None?
    ensures Handle(req, u1) == Handle(req, u2)
  {
  }

  /** Only an empty string is refused: a text of spaces goes to the API unchanged. */
  lemma SpacesAreNotRefused(spaces: string, upstream: Upstream)
    requires spaces != [] && forall i :: 0 <= i < |spaces| ==> spaces[i] == ' '
    ensures Handle(Request("POST", Decoded(Obj1("text", JStr(spaces)))), upstream).sent == Some(EmbedRequest(spaces))
  {
    assert RequestText(Obj1("text", JStr(spaces))) == Some(spaces);
  }

  /** Every answer other than 200 and 405 is a JSON object with an `error` member. */
  lemma FailuresCarryError(req: Request, upstream: Upstream)
    requires Handle(req, upstream).handled.Responded?
    ensures var r := Handle(req, upstream).handled.response;
      r.status != 200 && r.status != 405 ==> IsErrorJson(r.body)
  {
  }

  /** `await req.json()` comes before the `try`: a malformed body is never answered by the handler. */
  lemma MalformedBodyEscapes(e: JsError, upstream: Upstream)
    ensures Handle(Request("POST", DecodeFailed(e)), upstream).handled == Rejected(e)
  {
  }

  /** The handler with the decoding inside its try block: every request is answered. */
  function HandleGuarded(req: Request, upstream: Upstream): (x: Exchange)
    ensures x.handled.Responded?
    ensures x.sent == Handle(req, upstream).sent
    ensures Handle(req, upstream).handled.Responded? ==> x.handled == Handle(req, upstream).handled
    ensures req.verb == "POST" && req.body.DecodeFailed? ==> x.handled.response == Caught(req.body.error)
  {
    var y := Handle(req, upstream);
    Exchange(Responded(Guarded(y.handled)), y.sent)
  }
}
