/**
 * The profile routes as pure state transitions over the two collections
 * (profiles keyed by id, and the list of price snapshots), and the properties
 * the routes promise: one profile per user, an initial snapshot on create, a
 * snapshot on every numeric price change and on no other update, owner-only
 * mutation, cascade delete, and date-ordered history.
 */
module ProfileSpec {
  import opened Common
  import opened JsValue
  import opened Seqs
  import opened ProfileModel
  import opened PriceHistoryModel

  /** A request body: the eight schema fields, plus `userId`, any of them possibly absent. */
  datatype Body = Body(
    factoryName: Option<string>,
    ownerName: Option<string>,
    contactNumber: Option<string>,
    address: Option<string>,
    commodityType: Option<string>,
    pricePerKilo: Raw,
    effectiveDate: Option<string>,
    operatingHours: Option<string>,
    userId: Option<UserId>)

  /** The JSON a handler sends: one profile, `null`, a list, a history, or a message. */
  datatype Reply =
    | OneProfile(profile: Profile)
    | NoProfile
    | Profiles(list: seq<Profile>)
    | History(snapshots: seq<Snapshot>)
    | Message(text: string)

  datatype Response = Response(status: nat, reply: Reply)

  const ServerError := Response(500, Message("Server error"))
  const NotFound := Response(404, Message("Profile not found"))
  const Forbidden := Response(403, Message("Not authorized"))

  /** Both collections, and the id the next created profile receives. */
  datatype Db = Db(profiles: map<ProfileId, Profile>, history: seq<Snapshot>, nextId: nat)

  /** Every profile is filed under its own id. */
  ghost predicate Keyed(db: Db) {
    forall id :: id in db.profiles ==> db.profiles[id].id == id
  }

  /** The store's invariant: the schema holds, ids are issued, and every snapshot refers to a profile. */
  ghost predicate Valid(db: Db) {
    && WellFormed(db.profiles)
    && (forall id :: id in db.profiles ==> id < db.nextId)
    && (forall i :: 0 <= i < |db.history| ==> db.history[i].profileId in db.profiles)
  }

  // ---------------------------------------------------------------- queries

  /** The profiles with ids below `n`, in id order, which is creation order. */
  function ListUpTo(m: map<ProfileId, Profile>, n: nat): (r: seq<Profile>)
    requires forall id :: id in m ==> m[id].id == id
    ensures forall i :: 0 <= i < |r| ==> r[i].id < n && r[i].id in m && m[r[i].id] == r[i]
    ensures forall id :: id < n && id in m ==> m[id] in r
    ensures forall i, j :: 0 <= i < j < |r| ==> r[i].id < r[j].id
  {
    if n == 0 then [] else ListUpTo(m, n - 1) + (if n - 1 in m then [m[n - 1]] else [])
  }

  /** `Profile.find()`: every profile, in natural order. */
  function AllProfiles(db: Db): seq<Profile>
    requires Keyed(db)
  {
    ListUpTo(db.profiles, db.nextId)
  }

  /** The first profile of `list` owned by `u`. */
  function FindOwned(list: seq<Profile>, u: UserId): (r: Option<Profile>)
    ensures r.Some? ==> r.value in list && r.value.userId == u
    ensures r.None? ==> forall p :: p in list ==> p.userId != u
  {
    if list == [] then None
    else if list[0].userId == u then Some(list[0])
    else FindOwned(list[1..], u)
  }

  /** `Profile.findOne({ userId: u })`. */
  function OwnedBy(db: Db, u: UserId): Option<Profile>
    requires Keyed(db)
  {
    FindOwned(AllProfiles(db), u)
  }

  function DateKey(s: Snapshot): int {
    s.date
  }

  function MatchesProfile(id: ProfileId): Snapshot -> bool {
    (s: Snapshot) => s.profileId == id
  }

  function OtherProfile(id: ProfileId): Snapshot -> bool {
    (s: Snapshot) => s.profileId != id
  }

  /** `PriceHistory.find({ profileId: id })`, in insertion order. */
  function Matching(h: seq<Snapshot>, id: ProfileId): seq<Snapshot> {
    Filter(h, MatchesProfile(id))
  }

  /** `PriceHistory.find({ profileId: id }).sort({ date: 1 })`. */
  function HistoryOf(db: Db, id: ProfileId): (r: seq<Snapshot>)
    ensures SortedBy(r, DateKey)
    ensures multiset(r) == multiset(Matching(db.history, id))
  {
    SortBy(Matching(db.history, id), DateKey)
  }

  // ---------------------------------------------------------------- reads

  /** GET /me: the caller's profile, or `null`. */
  function MeSpec(db: Db, caller: UserId): Response
    requires Keyed(db)
  {
    match OwnedBy(db, caller)
    case None => Response(200, NoProfile)
    case Some(p) => Response(200, OneProfile(p))
  }

  /** GET /: every profile. */
  function ListSpec(db: Db): Response
    requires Keyed(db)
  {
    Response(200, Profiles(AllProfiles(db)))
  }

  /** GET /:id. */
  function GetOneSpec(db: Db, id: ProfileId): Response {
    if id in db.profiles then Response(200, OneProfile(db.profiles[id])) else NotFound
  }

  /** GET /:id/history: never an error, empty when nothing matches. */
  function HistorySpec(db: Db, id: ProfileId): Response {
    Response(200, History(HistoryOf(db, id)))
  }

  // ---------------------------------------------------------------- create

  /** A string field is truthy: present and not empty. */
  predicate Filled(v: Option<string>) {
    v.Some? && v.value != ""
  }

  /** The create handler's `!field || ...` check over all eight fields. */
  predicate AllFieldsPresent(b: Body) {
    && Filled(b.factoryName)
    && Filled(b.ownerName)
    && Filled(b.contactNumber)
    && Filled(b.address)
    && Filled(b.commodityType)
    && Truthy(b.pricePerKilo)
    && Filled(b.effectiveDate)
    && Filled(b.operatingHours)
  }

  /** `Profile.create(...)`: None when the schema's enum or number cast rejects the document. */
  function NewProfile(id: ProfileId, owner: UserId, b: Body, now: nat): (r: Option<Profile>)
    requires AllFieldsPresent(b)
    ensures r.Some? <==> ParseCommodity(b.commodityType.value).Some? && CastNumber(b.pricePerKilo).Cast?
    ensures r.Some? ==> r.value.id == id && RequiredPresent(r.value)
    ensures r.Some? ==>
              && r.value.userId == owner
              && r.value.factoryName == b.factoryName.value
              && r.value.ownerName == b.ownerName.value
              && r.value.contactNumber == b.contactNumber.value
              && r.value.address == b.address.value
              && CommodityName(r.value.commodityType) == b.commodityType.value
              && ToNumber(b.pricePerKilo) == Val(r.value.pricePerKilo)
              && r.value.effectiveDate == b.effectiveDate.value
              && r.value.operatingHours == b.operatingHours.value
              && r.value.createdAt == now && r.value.updatedAt == now
  {
    var commodity := ParseCommodity(b.commodityType.value);
    var price := CastNumber(b.pricePerKilo);
    if commodity.None? || !price.Cast? then None
    else
      Some(Profile(id, owner, b.factoryName.value, b.ownerName.value, b.contactNumber.value,
                   b.address.value, commodity.value, price.v, b.effectiveDate.value,
                   b.operatingHours.value, now, now))
  }

  /** POST /. */
  function CreateSpec(db: Db, caller: UserId, b: Body, now: nat): (r: (Db, Response))
    requires Keyed(db)
    ensures Keyed(r.0)
  {
    if !AllFieldsPresent(b) then (db, Response(400, Message("All fields are required")))
    else if OwnedBy(db, caller).Some? then (db, Response(409, Message("Profile already exists for this user")))
    else
      match NewProfile(db.nextId, caller, b, now)
      case None => (db, ServerError)
      case Some(p) =>
        (Db(db.profiles[db.nextId := p],
            db.history + [NewSnapshot(db.nextId, p.pricePerKilo, None, now)],
            db.nextId + 1),
         Response(201, OneProfile(p)))
  }

  // ---------------------------------------------------------------- update

  /** A present string field must not be empty (`required`); an absent one is left alone. */
  predicate Settable(v: Option<string>) {
    v.None? || v.value != ""
  }

  function Pick(v: Option<string>, current: string): string {
    if v.Some? then v.value else current
  }

  /** Every field present in the body passes the schema's casts and validators. */
  predicate UpdateAccepted(b: Body) {
    && Settable(b.factoryName)
    && Settable(b.ownerName)
    && Settable(b.contactNumber)
    && Settable(b.address)
    && (b.commodityType.Some? ==> ParseCommodity(b.commodityType.value).Some?)
    && (CastNumber(b.pricePerKilo).Unset? || CastNumber(b.pricePerKilo).Cast?)
    && Settable(b.effectiveDate)
    && Settable(b.operatingHours)
  }

  /** `findByIdAndUpdate(id, body, { new: true, runValidators: true })` applied to `p`. */
  function Merge(p: Profile, b: Body, now: nat): (r: Option<Profile>)
    ensures r.Some? <==> UpdateAccepted(b)
  {
    if !UpdateAccepted(b) then None
    else
      var price := CastNumber(b.pricePerKilo);
      Some(p.(
        userId := if b.userId.Some? then b.userId.value else p.userId,
        factoryName := Pick(b.factoryName, p.factoryName),
        ownerName := Pick(b.ownerName, p.ownerName),
        contactNumber := Pick(b.contactNumber, p.contactNumber),
        address := Pick(b.address, p.address),
        commodityType := if b.commodityType.Some? then ParseCommodity(b.commodityType.value).value else p.commodityType,
        pricePerKilo := if price.Cast? then price.v else p.pricePerKilo,
        effectiveDate := Pick(b.effectiveDate, p.effectiveDate),
        operatingHours := Pick(b.operatingHours, p.operatingHours),
        updatedAt := now))
  }

  /** `req.body.pricePerKilo && Number(req.body.pricePerKilo) !== Number(oldPrice)`. */
  predicate PriceChanged(raw: Raw, oldPrice: int): (b: bool)
    ensures !Truthy(raw) ==> !b
    ensures raw.Num? && raw.n != 0 ==> (b <==> raw.n != oldPrice)
    ensures raw.Str? && raw.s != "" && ParseInteger(raw.s).Some? ==> (b <==> ParseInteger(raw.s).value != oldPrice)
    ensures raw.Str? && raw.s != "" && ParseInteger(raw.s).None? ==> b
  {
    Truthy(raw) && StrictlyDiffer(ToNumber(raw), Val(oldPrice))
  }

  /** Another profile already holds owner `u`: the unique index refuses the write. */
  predicate OwnerTaken(db: Db, id: ProfileId, u: UserId) {
    exists other :: other in db.profiles && other != id && db.profiles[other].userId == u
  }

  /** PUT /:id. */
  function UpdateSpec(db: Db, id: ProfileId, caller: UserId, b: Body, now: nat): (r: (Db, Response))
    requires Keyed(db)
    ensures Keyed(r.0)
  {
    if id !in db.profiles then (db, NotFound)
    else if db.profiles[id].userId != caller then (db, Forbidden)
    else
      var p := db.profiles[id];
      match Merge(p, b, now)
      case None => (db, ServerError)
      case Some(q) =>
        if OwnerTaken(db, id, q.userId) then (db, ServerError)
        else
          var history :=
            if PriceChanged(b.pricePerKilo, p.pricePerKilo)
            then db.history + [NewSnapshot(id, q.pricePerKilo, None, now)]
            else db.history;
          (Db(db.profiles[id := q], history, db.nextId), Response(200, OneProfile(q)))
  }

  // ---------------------------------------------------------------- delete

  /** `PriceHistory.deleteMany({ profileId: id })` applied to the list. */
  function Without(h: seq<Snapshot>, id: ProfileId): seq<Snapshot> {
    Filter(h, OtherProfile(id))
  }

  /** DELETE /:id. */
  function DeleteSpec(db: Db, id: ProfileId, caller: UserId): (r: (Db, Response))
    requires Keyed(db)
    ensures Keyed(r.0)
  {
    if id !in db.profiles then (db, NotFound)
    else if db.profiles[id].userId != caller then (db, Forbidden)
    else
      (Db(db.profiles - {id}, Without(db.history, id), db.nextId),
       Response(200, Message("Profile deleted successfully")))
  }
}
