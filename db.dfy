/**
 * The Supabase tables the screens read and write, and the PostgREST
 * `.single()` lookup they branch on.
 */
module Db {
  import opened Wrappers

  /** A PostgREST error: its `code` and `message`. */
  datatype PgError = PgError(code: string, message: string)

  /** The code PostgREST gives `.single()` when no row matched. */
  const NoRowsCode := "PGRST116"

  const NoRows := PgError(NoRowsCode, "JSON object requested, multiple (or no) rows returned")

  /** A `seeker_profiles` row (its key, `user_id`, is the key of the table map). */
  datatype SeekerProfileRow = SeekerProfileRow(id: string, preferences: map<string, string>, completedOnboarding: bool)

  /** A `listings` row; `rent` is the text typed, as `parseFloat` is not modelled. */
  datatype ListingRow = ListingRow(
    id: string, listerId: string, title: string, description: string, location: string,
    rent: string, roomType: string, amenities: seq<string>, availableFrom: string)

  /**
   * `.select(...).eq('user_id', uid).single()` on a table keyed by user id:
   * a failure of the request itself (`fault`) is returned as is; otherwise the
   * user's row, or the no-rows error.
   */
  function SingleByUser<R>(table: map<string, R>, uid: string, fault: Option<PgError>): (r: Result<R, PgError>)
    ensures fault.Some? ==> r == Failure(fault.value)
    ensures fault.None? ==> (r.Success? <==> uid in table)
    ensures fault.None? && uid in table ==> r == Success(table[uid])
    ensures fault.None? && uid !in table ==> r == Failure(NoRows)
  {
    if fault.Some? then Failure(fault.value)
    else if uid in table then Success(table[uid])
    else Failure(NoRows)
  }

  /**
   * After a user's row is written, a lookup for that user finds exactly that
   * row, and every other user's lookup gives what it gave before.
   */
  lemma SingleByUserAfterWrite<R>(table: map<string, R>, uid: string, row: R, other: string)
    ensures SingleByUser(table[uid := row], uid, None) == Success(row)
    ensures other != uid ==> SingleByUser(table[uid := row], other, None) == SingleByUser(table, other, None)
  {
  }
}
