/** What the three screens share: the routes they navigate to and the signed-in test they guard with. */
module App {
  import opened Wrappers

  /** The navigation targets the modelled screens use. */
  datatype Screen = Auth | Dashboard | SensorScan(listingId: string)

  /** `!userId` is false: a signed-in user with a non-empty id. */
  predicate UserPresent(uid: Option<string>)
  {
    uid.Some? && uid.value != ""
  }
}
