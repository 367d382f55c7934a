/**
 * The `PriceHistory` schema: one snapshot of a profile's price, with `date`
 * defaulting to the time the snapshot is created.
 */
module PriceHistoryModel {
  import opened Common
  import opened ProfileModel

  datatype Snapshot = Snapshot(profileId: ProfileId, price: int, date: nat, createdAt: nat, updatedAt: nat)

  /** `PriceHistory.create(...)` at time `now`, with or without an explicit `date`. */
  function NewSnapshot(profileId: ProfileId, price: int, date: Option<nat>, now: nat): (s: Snapshot)
    ensures s.profileId == profileId && s.price == price
    ensures date.None? ==> s.date == now
    ensures date.Some? ==> s.date == date.value
    ensures s.createdAt == now && s.updatedAt == now
  {
    Snapshot(profileId, price, if date.Some? then date.value else now, now, now)
  }
}
