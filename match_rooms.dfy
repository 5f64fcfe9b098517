/**
 * The `match-rooms` edge function: checks the request, reads the seeker's
 * stored embedding, and relays the result of the `match_listings` database
 * function. The similarity search itself runs inside the database and is
 * an input here (`search`), never recomputed.
 */
module MatchRooms {
  import opened Wrappers
  import opened JsonValue
  import opened Http
  import opened Db

  const MatchThreshold: real := 0.5
  const MatchCount: int := 10

  const MissingSeekerMessage := "Missing seeker_id in request body."
  const NoEmbeddingMessage := "Seeker embedding not found or database error."
  const MatchFailedMessage := "Failed to match listings."

  /** `createClient(...)`, which throws when the URL or key is missing from the environment. */
  datatype ClientSetup = ClientReady | ClientThrew(error: JsError)

  /** What `.from('seeker_embeddings').select('embedding').eq('seeker_id', id).single()` returned. */
  datatype EmbeddingLookup = LookupFailed(error: PgError) | LookupRow(embedding: Json)

  /** What `.rpc('match_listings', ...)` returned: an error, or the ranked rows exactly as the database produced them. */
  datatype SearchResult = SearchFailed(error: PgError) | SearchRows(rows: Json)

  /** The arguments of the `match_listings` call. */
  datatype SearchCall = SearchCall(queryEmbedding: Json, matchThreshold: real, matchCount: int)

  /**
   * The response, the `seeker_id` the embedding was looked up by (if the
   * database was read), and the search call (if one was made).
   */
  datatype Exchange = Exchange(handled: Handled, lookedUp: Option<Json>, searched: Option<SearchCall>)

  /** The request passes every check before the try block: a POST whose `seeker_id` is truthy. */
  predicate Accepted(req: Request)
  {
    req.verb == "POST" && req.body.Decoded? && !req.body.value.JNull? && Present(Prop(req.body.value, "seeker_id"))
  }

  /** The try block. */
  function Search(seekerId: Json, client: ClientSetup, lookup: EmbeddingLookup, search: SearchResult): (x: Exchange)
    ensures x.handled.Responded?
    // the database is read exactly when the client could be created, by the given id
    ensures x.lookedUp == if client.ClientReady? then Some(seekerId) else None
    // the search runs exactly when the embedding was found, on that embedding with threshold 0.5 and count 10
    ensures x.searched.Some? <==> client.ClientReady? && lookup.LookupRow?
    ensures x.searched.Some? ==> x.searched.value == SearchCall(lookup.embedding, 0.5, 10)
    ensures var r := x.handled.response;
      && (client.ClientThrew? ==> r == Caught(client.error))
      && (client.ClientReady? && lookup.LookupFailed? ==> r == Response(404, JsonBody(ErrorJson(NoEmbeddingMessage))))
      && (x.searched.Some? && search.SearchFailed? ==>
            r == Response(500, JsonBody(Obj2("error", JStr(MatchFailedMessage), "details", JStr(search.error.message)))))
      // success relays the search rows untouched: no filtering, no reordering
      && (r.status == 200 <==> x.searched.Some? && search.SearchRows?)
      && (r.status == 200 ==> r.body == JsonBody(Obj1("matches", search.rows)))
      && (r.status != 200 ==> IsErrorJson(r.body))
  {
    match client
    case ClientThrew(e) => Exchange(Responded(Caught(e)), None, None)
    case ClientReady =>
      match lookup
      case LookupFailed(_) =>
        Exchange(Responded(Response(404, JsonBody(ErrorJson(NoEmbeddingMessage)))), Some(seekerId), None)
      case LookupRow(embedding) =>
        var call := SearchCall(embedding, MatchThreshold, MatchCount);
        match search
        case SearchFailed(e) =>
          Exchange(Responded(Response(500, JsonBody(Obj2("error", JStr(MatchFailedMessage), "details", JStr(e.message))))),
                   Some(seekerId), Some(call))
        case SearchRows(rows) =>
          Exchange(Responded(Response(200, JsonBody(Obj1("matches", rows)))), Some(seekerId), Some(call))
  }

  /** The `serve` handler; `client`, `lookup` and `search` are what those calls would produce. */
  function Handle(req: Request, client: ClientSetup, lookup: EmbeddingLookup, search: SearchResult): (x: Exchange)
    ensures req.verb != "POST" ==> x == Exchange(Responded(MethodNotAllowed), None, None)
    // a missing or falsy `seeker_id` is a 400, before any database access
    ensures req.verb == "POST" && req.body.Decoded? && !req.body.value.JNull? && !Accepted(req) ==>
      x == Exchange(Responded(Response(400, JsonBody(ErrorJson(MissingSeekerMessage)))), None, None)
    ensures Accepted(req) ==> x == Search(Prop(req.body.value, "seeker_id").value, client, lookup, search)
    ensures x.lookedUp.Some? ==> Accepted(req)
    // decoding the request body happens outside the try block: its failures escape the handler
    ensures x.handled.Rejected? <==> req.verb == "POST" && (req.body.DecodeFailed? || req.body.value.JNull?)
  {
    if req.verb != "POST" then Exchange(Responded(MethodNotAllowed), None, None)
    else
      match req.body
      case DecodeFailed(e) => Exchange(Rejected(e), None, None)
      case Decoded(v) =>
        if v.JNull? then Exchange(Rejected(NullDestructureError("seeker_id")), None, None)
        else
          var id := Prop(v, "seeker_id");
          if !Present(id) then Exchange(Responded(Response(400, JsonBody(ErrorJson(MissingSeekerMessage)))), None, None)
          else Search(id.value, client, lookup, search)
  }

  /**
   * `.eq('seeker_id', id).single()` on a `seeker_embeddings` table holding one
   * embedding per key. In this model a string id present in the table finds
   * its row and any other id gets the no-rows error; the database's own
   * coercion of non-string ids and its other errors are not modelled.
   */
  function LookupIn(table: map<string, Json>, seekerId: Json): (l: EmbeddingLookup)
    ensures l.LookupRow? <==> seekerId.JStr? && seekerId.s in table
    ensures l.LookupRow? ==> l.embedding == table[seekerId.s]
    ensures l.LookupFailed? ==> l.error.code == NoRowsCode
  {
    if seekerId.JStr? && seekerId.s in table then LookupRow(table[seekerId.s]) else LookupFailed(NoRows)
  }

  /** The request body the dashboard sends. */
  function RequestFor(seekerId: string): Request
  {
    Request("POST", Decoded(Obj1("seeker_id", JStr(seekerId))))
  }

  /**
   * A seeker id with a stored embedding reaches the search with that
   * embedding, and the response carries the database's rows as they are; an
   * id without one is a 404 and no search.
   */
  lemma {:induction false} MatchesFollowTheTable(table: map<string, Json>, seekerId: string, search: SearchResult)
    requires seekerId != ""
    ensures var x := Handle(RequestFor(seekerId), ClientReady, LookupIn(table, JStr(seekerId)), search);
      && x.lookedUp == Some(JStr(seekerId))
      && (seekerId in table ==> x.searched == Some(SearchCall(table[seekerId], MatchThreshold, MatchCount)))
      && (seekerId in table && search.SearchRows? ==> x.handled == Responded(Response(200, JsonBody(Obj1("matches", search.rows)))))
      && (seekerId !in table ==> x.searched.None? && x.handled.response.status == 404)
  {
    var req := RequestFor(seekerId);
    assert Prop(req.body.value, "seeker_id") == Some(JStr(seekerId));
  }

  /** `await req.json()` comes before the `try`: a malformed body is never answered by the handler. */
  lemma MalformedBodyEscapes(e: JsError, client: ClientSetup, lookup: EmbeddingLookup, search: SearchResult)
    ensures Handle(Request("POST", DecodeFailed(e)), client, lookup, search).handled == Rejected(e)
  {
  }

  /** The handler with the decoding inside its try block: every request is answered. */
  function HandleGuarded(req: Request, client: ClientSetup, lookup: EmbeddingLookup, search: SearchResult): (x: Exchange)
    ensures x.handled.Responded?
    ensures x.lookedUp == Handle(req, client, lookup, search).lookedUp
    ensures x.searched == Handle(req, client, lookup, search).searched
    ensures Handle(req, client, lookup, search).handled.Responded? ==> x.handled == Handle(req, client, lookup, search).handled
    ensures req.verb == "POST" && req.body.DecodeFailed? ==> x.handled.response == Caught(req.body.error)
  {
    var y := Handle(req, client, lookup, search);
    Exchange(Responded(Guarded(y.handled)), y.lookedUp, y.searched)
  }
}
