/**
 * The dashboard: decides from the user's `seeker_profiles` row whether to
 * show the seeker view, and then asks the `match-rooms` function for the
 * seeker's matches, with `matchedRooms` and `isLoading` updated around the
 * call.
 */
module Dashboard {
  import opened Wrappers
  import opened JsonValue
  import opened Http
  import opened Db
  import App
  import MatchRooms
  import SeekerChat

  /**
   * What `supabase.functions.invoke('match-rooms', ...)` gave back: an error
   * (the function answered outside 2xx, or could not be reached), or the
   * parsed response body.
   */
  datatype InvokeOutcome = InvokeFailed(message: string) | InvokeData(data: Json)

  /** The client library's error message for a non-2xx answer. */
  const NonSuccessMessage := "Edge Function returned a non-2xx status code"

  const FetchFailedAlert := "Failed to fetch matched rooms: "

  /**
   * How the client library turns the function's answer into an outcome: a 2xx
   * answer yields its body (a JSON body parsed, a text body as a string),
   * anything else an error; a request the function rejected is answered with
   * a 500 by the runtime.
   */
  function InvokeOf(h: Handled): (o: InvokeOutcome)
    ensures o.InvokeData? <==> h.Responded? && Ok(h.response.status)
    ensures h.Responded? && Ok(h.response.status) && h.response.body.JsonBody? ==> o == InvokeData(h.response.body.value)
  {
    match h
    case Rejected(_) => InvokeFailed(NonSuccessMessage)
    case Responded(r) =>
      if !Ok(r.status) then InvokeFailed(NonSuccessMessage)
      else
        match r.body
        case JsonBody(v) => InvokeData(v)
        case Text(t) => InvokeData(JStr(t))
  }

  /** The seeker view is chosen exactly when the profile lookup found a row whose onboarding is complete. */
  predicate ShowsSeekerView(lookup: Result<SeekerProfileRow, PgError>)
  {
    lookup.Success? && lookup.value.completedOnboarding
  }

  /**
   * `matchedRooms` after `fetchMatchedRooms`: the `matches` member of a truthy
   * answer when that member is truthy, and the empty list otherwise (a failed
   * call included).
   */
  function RoomsAfter(o: InvokeOutcome): (rooms: Json)
    // the list shown is either empty or the function's matches, untouched
    ensures rooms == JArr([]) || (o.InvokeData? && Truthy(o.data) && Prop(o.data, "matches") == Some(rooms))
    ensures o.InvokeFailed? ==> rooms == JArr([])
    ensures o.InvokeData? && Truthy(o.data) && Present(Prop(o.data, "matches")) ==> Some(rooms) == Prop(o.data, "matches")
    ensures !(o.InvokeData? && Truthy(o.data) && Present(Prop(o.data, "matches"))) ==> rooms == JArr([])
  {
    match o
    case InvokeFailed(_) => JArr([])
    case InvokeData(data) =>
      if Truthy(data) && Present(Prop(data, "matches")) then Prop(data, "matches").value else JArr([])
  }

  /** The alert raised by a failed fetch, if any. */
  function AlertAfter(o: InvokeOutcome): (alert: Option<string>)
    ensures alert.Some? <==> o.InvokeFailed?
    ensures o.InvokeFailed? ==> alert == Some(FetchFailedAlert + o.message)
  {
    if o.InvokeFailed? then Some(FetchFailedAlert + o.message) else None
  }

  /** The screen's state and the `seeker_profiles` table it reads. */
  class DashboardScreen {
    var userId: Option<string>
    var matchedRooms: Json
    var isLoading: bool
    var isSeeker: bool
    /** The profile id of the seeker view, kept for the corrected Refresh button. */
    var seekerProfileId: Option<string>
    var profiles: map<string, SeekerProfileRow>

    /** The seeker view belongs to a signed-in user with a known profile id. */
    ghost predicate Valid()
      reads this
    {
      isSeeker ==> userId.Some? && seekerProfileId.Some?
    }

    /** The initial state of the component's `useState` hooks: no user, no rooms, loading. */
    constructor(table: map<string, SeekerProfileRow>)
      ensures Valid()
      ensures userId == None && matchedRooms == JArr([]) && isLoading && !isSeeker
      ensures seekerProfileId == None && profiles == table
    {
      userId, matchedRooms, isLoading, isSeeker := None, JArr([]), true, false;
      seekerProfileId, profiles := None, table;
    }

    /**
     * `fetchMatchedRooms(id)`: loading while `match-rooms` is asked about `id`,
     * then the rooms it returned (or none), and loading over whatever happened.
     * `invoke` is what the call gave back; `sent` is the request it made.
     */
    method FetchMatchedRooms(id: string, invoke: InvokeOutcome) returns (sent: Request, alert: Option<string>)
      modifies this`matchedRooms, this`isLoading
      ensures sent == MatchRooms.RequestFor(id)
      ensures matchedRooms == RoomsAfter(invoke) && !isLoading
      ensures alert == AlertAfter(invoke)
    {
      isLoading := true;
      sent := MatchRooms.RequestFor(id);
      alert := None;
      if invoke.InvokeFailed? {
        alert := Some(FetchFailedAlert + invoke.message);
        matchedRooms := JArr([]);
      } else if Truthy(invoke.data) && Present(Prop(invoke.data, "matches")) {
        matchedRooms := Prop(invoke.data, "matches").value;
      } else {
        matchedRooms := JArr([]);
      }
      isLoading := false;
    }

    /**
     * The mount effect `fetchUserAndMatches`. `user` is the signed-in user's
     * id, `lookupFault` a failure of the profile lookup, and `invoke` what the
     * match request gives back if one is made.
     */
    method FetchUserAndMatches(user: Option<string>, lookupFault: Option<PgError>, invoke: InvokeOutcome)
      returns (nav: Option<App.Screen>, sent: Option<Request>)
      requires Valid()
      modifies this`userId, this`isSeeker, this`seekerProfileId, this`matchedRooms, this`isLoading
      ensures Valid()
      // nobody signed in: go to sign-in, with the spinner left on
      ensures user.None? ==> nav == Some(App.Auth) && sent == None && unchanged(this)
      ensures user.Some? ==> nav == None && userId == user
      // the seeker view, and a match request by the profile id, exactly for a completed profile
      ensures user.Some? ==>
        var lookup := SingleByUser(profiles, user.value, lookupFault);
        && isSeeker == ShowsSeekerView(lookup)
        && !isLoading
        && (isSeeker ==> && seekerProfileId == Some(lookup.value.id)
                         && sent == Some(MatchRooms.RequestFor(lookup.value.id))
                         && matchedRooms == RoomsAfter(invoke))
        && (!isSeeker ==> sent == None && matchedRooms == old(matchedRooms) && seekerProfileId == old(seekerProfileId))
    {
      if user.None? {
        return Some(App.Auth), None;
      }
      nav := None;
      userId := user;
      var lookup := SingleByUser(profiles, user.value, lookupFault);
      if lookup.Success? && lookup.value.completedOnboarding {
        isSeeker := true;
        seekerProfileId := Some(lookup.value.id);
        var request, alert := FetchMatchedRooms(lookup.value.id, invoke);
        sent := Some(request);
      } else {
        isSeeker := false;
        isLoading := false;
        sent := None;
      }
    }

    /** The Refresh button as written: it asks about the user id rather than the profile id. */
    method RefreshMatchesAsWritten(invoke: InvokeOutcome) returns (sent: Request, alert: Option<string>)
      requires Valid() && isSeeker
      modifies this`matchedRooms, this`isLoading
      ensures Valid()
      ensures sent == MatchRooms.RequestFor(userId.value)
      ensures matchedRooms == RoomsAfter(invoke) && !isLoading && alert == AlertAfter(invoke)
    {
      sent, alert := FetchMatchedRooms(userId.value, invoke);
    }

    /** The Refresh button as evidently meant: the same request as the initial fetch, by profile id. */
    method RefreshMatches(invoke: InvokeOutcome) returns (sent: Request, alert: Option<string>)
      requires Valid() && isSeeker
      modifies this`matchedRooms, this`isLoading
      ensures Valid()
      ensures sent == MatchRooms.RequestFor(seekerProfileId.value)
      ensures matchedRooms == RoomsAfter(invoke) && !isLoading && alert == AlertAfter(invoke)
    {
      sent, alert := FetchMatchedRooms(seekerProfileId.value, invoke);
    }
  }

  /**
   * The rooms the screen shows after asking `match-rooms` about `seekerId`,
   * when the function as deployed reads a `seeker_embeddings` table and the
   * search gives `search`.
   */
  function RoomsFor(seekerId: string, table: map<string, Json>, search: MatchRooms.SearchResult): Json
  {
    var request := MatchRooms.RequestFor(seekerId);
    var lookup := MatchRooms.LookupIn(table, JStr(seekerId));
    RoomsAfter(InvokeOf(MatchRooms.Handle(request, MatchRooms.ClientReady, lookup, search).handled))
  }

  /**
   * With embeddings stored under profile ids and a user id that differs from
   * the profile id, the initial fetch shows the seeker's matches while the
   * Refresh button as written empties the list.
   */
  lemma {:induction false} RefreshByUserIdLosesMatches(
    table: map<string, Json>, uid: string, profileId: string, search: MatchRooms.SearchResult)
    requires uid != "" && profileId != "" && uid !in table && profileId in table
    requires search.SearchRows? && Truthy(search.rows) && search.rows != JArr([])
    ensures RoomsFor(profileId, table, search) == search.rows
    ensures RoomsFor(uid, table, search) == JArr([])
  {
    MatchRooms.MatchesFollowTheTable(table, profileId, search);
    MatchRooms.MatchesFollowTheTable(table, uid, search);
    assert Prop(Obj1("matches", search.rows), "matches") == Some(search.rows);
  }

  /** The corrected Refresh asks the same question as the initial fetch, so it shows the same rooms. */
  lemma RefreshByProfileIdKeepsMatches(
    table: map<string, Json>, profileId: string, search: MatchRooms.SearchResult)
    requires profileId != "" && profileId in table
    requires search.SearchRows? && Truthy(search.rows)
    ensures RoomsFor(profileId, table, search) == search.rows
  {
    MatchRooms.MatchesFollowTheTable(table, profileId, search);
    assert Prop(Obj1("matches", search.rows), "matches") == Some(search.rows);
  }

  /**
   * What the screen makes of a `match-rooms` answer: data exactly when the
   * request was accepted, the client was created, the embedding was found
   * and the search returned rows, and then the data is `{matches: rows}`.
   * A failed call raises an alert and empties the list; rows that are
   * truthy are shown as they came, with no alert.
   */
  lemma MatchOutcomeOnScreen(
    req: Request, client: MatchRooms.ClientSetup, lookup: MatchRooms.EmbeddingLookup, search: MatchRooms.SearchResult)
    ensures var o := InvokeOf(MatchRooms.Handle(req, client, lookup, search).handled);
      && (o.InvokeData? <==> MatchRooms.Accepted(req) && client.ClientReady? && lookup.LookupRow? && search.SearchRows?)
      && (o.InvokeData? ==> o.data == Obj1("matches", search.rows))
      && (o.InvokeFailed? ==> AlertAfter(o).Some? && RoomsAfter(o) == JArr([]))
      && (o.InvokeData? && Truthy(search.rows) ==> AlertAfter(o).None? && RoomsAfter(o) == search.rows)
  {
    var x := MatchRooms.Handle(req, client, lookup, search);
    var o := InvokeOf(MatchRooms.Handle(req, client, lookup, search).handled);
    if o.InvokeData? && Truthy(search.rows) {
      assert Prop(Obj1("matches", search.rows), "matches") == Some(search.rows);
    }
  }

  /**
   * A seeker whose profile was just saved gets the seeker view on the
   * dashboard, and the match request names the saved profile.
   */
  lemma SavedProfileShowsSeekerView(
    profiles: map<string, SeekerProfileRow>, uid: string, prefs: map<string, string>,
    lookupFault: Option<PgError>, writeFault: Option<PgError>, newId: string)
    requires SeekerChat.ProfileUpsert(profiles, uid, prefs, lookupFault, writeFault, newId).1.Saved?
    ensures var (table, save) := SeekerChat.ProfileUpsert(profiles, uid, prefs, lookupFault, writeFault, newId);
      && ShowsSeekerView(SingleByUser(table, uid, None))
      && SingleByUser(table, uid, None).value.id == save.profileId
  {
  }
}
