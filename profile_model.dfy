/**
 * The `Profile` schema: one factory's public pricing listing, owned by exactly one
 * user, with Mongoose's automatic `createdAt` / `updatedAt` timestamps.
 */
module ProfileModel {
  import opened Common

  type ProfileId = nat
  type UserId = nat

  /** The `enum: ["Tea", "Coffee"]` of `commodityType`. */
  datatype Commodity = Tea | Coffee

  function CommodityName(c: Commodity): string {
    match c
    case Tea => "Tea"
    case Coffee => "Coffee"
  }

  /** The enum validator: only the two listed names are accepted, the empty string included. */
  function ParseCommodity(s: string): (r: Option<Commodity>)
    ensures r.Some? <==> s == "Tea" || s == "Coffee"
    ensures r.Some? ==> CommodityName(r.value) == s
  {
    if s == "Tea" then Some(Tea) else if s == "Coffee" then Some(Coffee) else None
  }

  /** Naming a commodity and validating the name gives the commodity back. */
  lemma CommodityRoundTrip(c: Commodity)
    ensures ParseCommodity(CommodityName(c)) == Some(c)
  {
  }

  /**
   * A stored profile. `effectiveDate` is kept as the text the client sent; times are
   * milliseconds on the server's clock.
   */
  datatype Profile = Profile(
    id: ProfileId,
    userId: UserId,
    factoryName: string,
    ownerName: string,
    contactNumber: string,
    address: string,
    commodityType: Commodity,
    pricePerKilo: int,
    effectiveDate: string,
    operatingHours: string,
    createdAt: nat,
    updatedAt: nat)

  /** Mongoose's `required` on the string paths rejects the empty string. */
  predicate RequiredPresent(p: Profile) {
    && p.factoryName != ""
    && p.ownerName != ""
    && p.contactNumber != ""
    && p.address != ""
    && p.effectiveDate != ""
    && p.operatingHours != ""
  }

  /** The `unique: true` index on `userId`: no two stored profiles share an owner. */
  ghost predicate UniqueOwners(profiles: map<ProfileId, Profile>) {
    forall a, b :: a in profiles && b in profiles && profiles[a].userId == profiles[b].userId ==> a == b
  }

  /** Every stored profile is filed under its own id and satisfies the schema. */
  ghost predicate WellFormed(profiles: map<ProfileId, Profile>) {
    && (forall id :: id in profiles ==> profiles[id].id == id && RequiredPresent(profiles[id]))
    && UniqueOwners(profiles)
  }
}
