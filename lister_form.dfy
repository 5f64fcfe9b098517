/**
 * The room-listing form: seven text fields, the amenity list parsed from a
 * comma-separated string, and a submission that finds or creates the user's
 * `listers` row and then inserts the listing.
 */
module ListerForm {
  import opened Wrappers
  import opened Text
  import opened Db
  import opened App

  /** `.map(a => a.trim()).filter(a => a)`: trims every piece and drops the ones left empty. */
  function KeepTrimmed(pieces: seq<string>): (r: seq<string>)
    ensures |r| <= |pieces|
  {
    if pieces == [] then []
    else
      var t := Trim(pieces[0]);
      if t == [] then KeepTrimmed(pieces[1..]) else [t] + KeepTrimmed(pieces[1..])
  }

  /** `amenities.split(',').map(a => a.trim()).filter(a => a)` */
  function ParseAmenities(s: string): (r: seq<string>)
    ensures s == [] ==> r == []
  {
    KeepTrimmed(Split(s, ','))
  }

  /** Every kept piece is non-empty and trimmed, and contains no separator when no input piece does. */
  lemma {:induction false} KeepTrimmedClean(pieces: seq<string>, sep: char)
    requires forall i :: 0 <= i < |pieces| ==> sep !in pieces[i]
    ensures forall j :: 0 <= j < |KeepTrimmed(pieces)| ==>
      KeepTrimmed(pieces)[j] != [] && Trimmed(KeepTrimmed(pieces)[j]) && sep !in KeepTrimmed(pieces)[j]
  {
    if pieces != [] {
      var tail := pieces[1..];
      assert forall i :: 0 <= i < |tail| ==> sep !in tail[i] by {
        forall i | 0 <= i < |tail| ensures sep !in tail[i] { assert tail[i] == pieces[i + 1]; }
      }
      KeepTrimmedClean(tail, sep);
      TrimIsInfix(pieces[0]);
      if sep in Trim(pieces[0]) {
        TrimKeepsOnlyInputChars(pieces[0], sep);
        assert false;
      }
    }
  }

  /** Every parsed amenity is non-empty, has no surrounding whitespace, and contains no comma. */
  lemma AmenitiesAreClean(s: string)
    ensures forall j :: 0 <= j < |ParseAmenities(s)| ==>
      ParseAmenities(s)[j] != [] && Trimmed(ParseAmenities(s)[j]) && ',' !in ParseAmenities(s)[j]
  {
    KeepTrimmedClean(Split(s, ','), ',');
  }

  /**
   * Trimming and filtering works piece by piece, left to right: the result
   * for a concatenation is the concatenation of the results, and one piece
   * gives its trimmed text, or nothing when that is empty.
   */
  lemma {:induction false} KeepTrimmedAppend(a: seq<string>, b: seq<string>)
    ensures KeepTrimmed(a + b) == KeepTrimmed(a) + KeepTrimmed(b)
  {
    if a != [] {
      assert (a + b)[1..] == a[1..] + b;
      KeepTrimmedAppend(a[1..], b);
    } else {
      assert a + b == b;
    }
  }

  lemma KeepTrimmedOne(p: string)
    ensures KeepTrimmed([p]) == if Trim(p) == [] then [] else [Trim(p)]
  {
    assert [p][1..] == [];
  }

  /** A piece's trimmed text is kept exactly when it is not empty. */
  lemma {:induction false} KeepTrimmedMembers(pieces: seq<string>, x: string)
    ensures x in KeepTrimmed(pieces) <==> x != [] && exists i :: 0 <= i < |pieces| && Trim(pieces[i]) == x
  {
    if pieces != [] {
      var tail := pieces[1..];
      KeepTrimmedMembers(tail, x);
      if x != [] && (exists i :: 0 <= i < |pieces| && Trim(pieces[i]) == x) {
        var i :| 0 <= i < |pieces| && Trim(pieces[i]) == x;
        if i > 0 { assert tail[i - 1] == pieces[i]; }
      }
      if (exists i :: 0 <= i < |tail| && Trim(tail[i]) == x) {
        var i :| 0 <= i < |tail| && Trim(tail[i]) == x;
        assert pieces[i + 1] == tail[i];
      }
    }
  }

  /** Pieces that are already clean come through unchanged. */
  lemma {:induction false} KeepTrimmedOfClean(pieces: seq<string>)
    requires forall i :: 0 <= i < |pieces| ==> pieces[i] != [] && Trimmed(pieces[i])
    ensures KeepTrimmed(pieces) == pieces
  {
    if pieces != [] {
      TrimOfTrimmed(pieces[0]);
      var tail := pieces[1..];
      assert forall i :: 0 <= i < |tail| ==> tail[i] != [] && Trimmed(tail[i]) by {
        forall i | 0 <= i < |tail| ensures tail[i] != [] && Trimmed(tail[i]) { assert tail[i] == pieces[i + 1]; }
      }
      KeepTrimmedOfClean(tail);
      assert pieces == [pieces[0]] + tail;
    }
  }

  /** Parsing comma-free pieces joined by commas trims and filters those very pieces, in their order. */
  lemma ParseOfJoin(pieces: seq<string>)
    requires |pieces| >= 1
    requires forall i :: 0 <= i < |pieces| ==> ',' !in pieces[i]
    ensures ParseAmenities(Join(pieces, ',')) == KeepTrimmed(pieces)
  {
    SplitOfJoin(pieces, ',');
  }

  /** Writing the parsed list back as a comma-separated string and parsing again gives the same list. */
  lemma ParseAmenitiesIdempotent(s: string)
    ensures ParseAmenities(Join(ParseAmenities(s), ',')) == ParseAmenities(s)
  {
    var r := ParseAmenities(s);
    if r != [] {
      AmenitiesAreClean(s);
      ParseOfJoin(r);
      KeepTrimmedOfClean(r);
    }
  }

  /** The required-field test: title, location, rent and available-from all non-empty. */
  predicate RequiredPresent(title: string, location: string, rent: string, availableFrom: string)
  {
    title != "" && location != "" && rent != "" && availableFrom != ""
  }

  /**
   * The lister get-or-create against the `listers` table (user id to lister
   * id): a no-rows lookup creates a lister with `newListerId`, any other
   * lookup error aborts, and an existing lister's id is reused.
   */
  function GetOrCreateLister(
    listers: map<string, string>, uid: string,
    lookupFault: Option<PgError>, createFault: Option<PgError>, newListerId: string)
    : (r: (map<string, string>, Result<string, PgError>))
    // whatever happens, at most the user's own entry is written, and only by a creation
    ensures r.0 == listers || r.0 == listers[uid := newListerId]
    ensures r.0 != listers ==> r.1 == Success(newListerId)
    // a found lister is reused
    ensures lookupFault.None? && uid in listers ==> r == (listers, Success(listers[uid]))
    // no row: one lister is created and its id used, unless the insert fails
    ensures lookupFault.None? && uid !in listers && createFault.None? ==>
      r == (listers[uid := newListerId], Success(newListerId))
    ensures lookupFault.None? && uid !in listers && createFault.Some? ==> r == (listers, Failure(createFault.value))
    // the injected no-rows error behaves like a missing row
    ensures lookupFault.Some? && lookupFault.value.code == NoRowsCode ==>
      r == (if createFault.Some? then (listers, Failure(createFault.value))
            else (listers[uid := newListerId], Success(newListerId)))
    // any other lookup error aborts with nothing written
    ensures lookupFault.Some? && lookupFault.value.code != NoRowsCode ==> r == (listers, Failure(lookupFault.value))
    ensures r.1.Success? ==> uid in r.0 && r.0[uid] == r.1.value
  {
    match SingleByUser(listers, uid, lookupFault)
    case Failure(e) =>
      if e.code == NoRowsCode then
        if createFault.Some? then (listers, Failure(createFault.value))
        else (listers[uid := newListerId], Success(newListerId))
      else (listers, Failure(e))
    case Success(id) => (listers, Success(id))
  }

  /** The listing row built from the form for a given lister and new listing id. */
  function ListingOf(
    id: string, listerId: string, title: string, description: string, location: string,
    rent: string, roomType: string, amenities: string, availableFrom: string): ListingRow
  {
    ListingRow(id, listerId, title, description, location, rent, roomType, ParseAmenities(amenities), availableFrom)
  }

  /** What a press of Submit did; each outcome but the last is reported by an alert. */
  datatype SubmitOutcome = NotAuthenticated | MissingFields | Failed(error: PgError) | Submitted(listingId: string)

  /** The form's state and the two tables it writes. */
  class FormScreen {
    var title: string
    var description: string
    var location: string
    var rent: string
    var roomType: string
    var amenities: string
    var availableFrom: string
    var isLoading: bool
    var userId: Option<string>
    var listers: map<string, string>
    var listings: seq<ListingRow>

    /** The initial state of the component's `useState` hooks, over given tables. */
    constructor(listerTable: map<string, string>, listingTable: seq<ListingRow>)
      ensures title == "" && description == "" && location == "" && rent == ""
      ensures roomType == "" && amenities == "" && availableFrom == ""
      ensures !isLoading && userId == None && listers == listerTable && listings == listingTable
    {
      title, description, location, rent := "", "", "", "";
      roomType, amenities, availableFrom := "", "", "";
      isLoading, userId, listers, listings := false, None, listerTable, listingTable;
    }

    /** The mount effect: remember a signed-in user's id, or go to the sign-in screen. */
    method Mount(user: Option<string>) returns (nav: Option<Screen>)
      modifies this`userId
      ensures user.None? ==> nav == Some(Auth) && userId == old(userId)
      ensures user.Some? ==> nav == None && userId == user
    {
      if user.None? {
        return Some(Auth);
      }
      userId := user;
      nav := None;
    }

    /** The seven `onChangeText` setters, applied together. */
    method Fill(
      newTitle: string, newDescription: string, newLocation: string, newRent: string,
      newRoomType: string, newAmenities: string, newAvailableFrom: string)
      modifies this`title, this`description, this`location, this`rent
      modifies this`roomType, this`amenities, this`availableFrom
      ensures title == newTitle && description == newDescription && location == newLocation && rent == newRent
      ensures roomType == newRoomType && amenities == newAmenities && availableFrom == newAvailableFrom
    {
      title, description, location, rent := newTitle, newDescription, newLocation, newRent;
      roomType, amenities, availableFrom := newRoomType, newAmenities, newAvailableFrom;
    }

    /**
     * `handleSubmit`. `lookupFault` and `createFault` are failures of the
     * lister lookup and insert, `newListerId` the id an inserted lister gets;
     * `insertFault` is a failure of the listing insert and `newListingId` the
     * id of the row it returns first. `nav` is where navigation goes.
     */
    method HandleSubmit(
      lookupFault: Option<PgError>, createFault: Option<PgError>, newListerId: string,
      insertFault: Option<PgError>, newListingId: string)
      returns (outcome: SubmitOutcome, nav: Option<Screen>)
      modifies this`isLoading, this`listers, this`listings
      // without a signed-in user nothing is written
      ensures !UserPresent(old(userId)) ==> outcome == NotAuthenticated && nav == None && unchanged(this)
      // a missing required field is refused with nothing written
      ensures UserPresent(old(userId)) && !RequiredPresent(title, location, rent, availableFrom) ==>
        outcome == MissingFields && nav == None && unchanged(this)
      // otherwise loading is over afterwards, whatever the outcome
      ensures UserPresent(old(userId)) && RequiredPresent(title, location, rent, availableFrom) ==>
        && !isLoading
        && var (table, lister) := GetOrCreateLister(old(listers), userId.value, lookupFault, createFault, newListerId);
        // the lister step is never undone, even when the listing insert then fails
        && listers == table
        && (lister.Failure? ==> outcome == Failed(lister.error) && nav == None && listings == old(listings))
        && (lister.Success? && insertFault.Some? ==>
              outcome == Failed(insertFault.value) && nav == None && listings == old(listings))
        // success appends exactly the form's row and sends its id to the scan screen
        && (lister.Success? && insertFault.None? ==>
              && outcome == Submitted(newListingId) && nav == Some(SensorScan(newListingId))
              && listings == old(listings) + [ListingOf(newListingId, lister.value, title, description, location,
                                                        rent, roomType, amenities, availableFrom)])
    {
      nav := None;
      if !UserPresent(userId) {
        return NotAuthenticated, None;
      }
      if !RequiredPresent(title, location, rent, availableFrom) {
        return MissingFields, None;
      }
      isLoading := true;
      var lister := ResolveLister(lookupFault, createFault, newListerId);
      if lister.Failure? {
        outcome := Failed(lister.error);
      } else if insertFault.Some? {
        outcome := Failed(insertFault.value);
      } else {
        listings := listings + [ListingOf(newListingId, lister.value, title, description, location,
                                          rent, roomType, amenities, availableFrom)];
        outcome := Submitted(newListingId);
        nav := Some(SensorScan(newListingId));
      }
      isLoading := false;
    }

    /** The lister get-or-create step of `handleSubmit`, on the `listers` field. */
    method ResolveLister(lookupFault: Option<PgError>, createFault: Option<PgError>, newListerId: string)
      returns (lister: Result<string, PgError>)
      requires UserPresent(userId)
      modifies this`listers
      ensures (listers, lister) == GetOrCreateLister(old(listers), userId.value, lookupFault, createFault, newListerId)
    {
      var uid := userId.value;
      var found := SingleByUser(listers, uid, lookupFault);
      if found.Failure? && found.error.code == NoRowsCode {
        if createFault.Some? {
          return Failure(createFault.value);
        }
        listers := listers[uid := newListerId];
        lister := Success(newListerId);
      } else if found.Failure? {
        lister := Failure(found.error);
      } else {
        lister := Success(found.value);
      }
    }
  }

  /**
   * A signed-in user with a complete form and no failures gets a new listing
   * whose amenities are the clean pieces of the typed string, filed under the
   * user's lister, old or new.
   */
  method SubmitRun(uid: string, listerTable: map<string, string>, t: string, loc: string, rent: string,
                   from: string, amenities: string, newListerId: string, newListingId: string)
    returns (f: FormScreen, outcome: SubmitOutcome)
    requires uid != "" && RequiredPresent(t, loc, rent, from)
    ensures outcome == Submitted(newListingId) && !f.isLoading
    ensures uid in f.listers && f.listers[uid] == (if uid in listerTable then listerTable[uid] else newListerId)
    ensures |f.listings| == 1 && f.listings[0].amenities == ParseAmenities(amenities)
    ensures f.listings[0].id == newListingId && f.listings[0].listerId == f.listers[uid]
  {
    f := new FormScreen(listerTable, []);
    var signIn := f.Mount(Some(uid));
    f.Fill(t, "", loc, rent, "", amenities, from);
    var nav;
    outcome, nav := f.HandleSubmit(None, None, newListerId, None, newListingId);
  }
}
