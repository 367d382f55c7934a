/**
 * What the profile routes promise, proved about the transitions of `ProfileSpec`.
 */
module ProfileLaws {
  import opened Common
  import opened JsValue
  import opened Seqs
  import opened ProfileModel
  import opened PriceHistoryModel
  import opened ProfileSpec

  // ---------------------------------------------------------------- helpers

  /** A filter that keeps no element of its input is empty. */
  lemma {:induction false} FilterNone<T(!new)>(s: seq<T>, keep: T -> bool)
    requires forall i :: 0 <= i < |s| ==> !keep(s[i])
    ensures Filter(s, keep) == []
  {
    if s != [] {
      FilterNone(s[..|s| - 1], keep);
    }
  }

  /** No snapshot refers to a profile id that has not been issued yet. */
  lemma NoSnapshotsForNextId(db: Db)
    requires Valid(db)
    ensures Matching(db.history, db.nextId) == []
  {
    FilterNone(db.history, MatchesProfile(db.nextId));
  }

  /** Filing a profile under a fresh id, with an owner no stored profile has, keeps the schema. */
  lemma InsertKeepsWellFormed(profiles: map<ProfileId, Profile>, p: Profile)
    requires WellFormed(profiles)
    requires p.id !in profiles && RequiredPresent(p)
    requires forall id :: id in profiles ==> profiles[id].userId != p.userId
    ensures WellFormed(profiles[p.id := p])
  {
    var m := profiles[p.id := p];
    forall a, b | a in m && b in m && m[a].userId == m[b].userId
      ensures a == b
    {
      if a != p.id && b != p.id {
        assert profiles[a].userId == profiles[b].userId;
      }
    }
  }

  /** Storing a new profile under the next id, with its first snapshot, keeps the store valid. */
  lemma InsertKeepsValid(db: Db, p: Profile, s: Snapshot)
    requires Valid(db)
    requires p.id == db.nextId && RequiredPresent(p) && s.profileId == p.id
    requires forall id :: id in db.profiles ==> db.profiles[id].userId != p.userId
    ensures Valid(Db(db.profiles[p.id := p], db.history + [s], db.nextId + 1))
  {
    InsertKeepsWellFormed(db.profiles, p);
    var h := db.history + [s];
    forall i | 0 <= i < |h|
      ensures h[i].profileId in db.profiles[p.id := p]
    {
      if i < |db.history| {
        assert h[i] == db.history[i];
      }
    }
  }

  // ---------------------------------------------------------------- reads

  /** `findOne({ userId: u })` finds a profile exactly when `u` owns one, and it finds that one. */
  lemma {:induction false} OwnedByExact(db: Db, u: UserId)
    requires Valid(db)
    ensures Keyed(db)
    ensures OwnedBy(db, u).Some? <==> exists id :: id in db.profiles && db.profiles[id].userId == u
    ensures OwnedBy(db, u).Some? ==>
              var p := OwnedBy(db, u).value; p.id in db.profiles && db.profiles[p.id] == p && p.userId == u
  {
    var all := AllProfiles(db);
    if exists id :: id in db.profiles && db.profiles[id].userId == u {
      var id :| id in db.profiles && db.profiles[id].userId == u;
      assert db.profiles[id] in all;
    }
    if OwnedBy(db, u).Some? {
      var p := OwnedBy(db, u).value;
      var i :| 0 <= i < |all| && all[i] == p;
      assert p.id in db.profiles && db.profiles[p.id] == p;
    }
  }

  /** GET /me answers 200 with the caller's own profile, or with `null` when the caller has none. */
  lemma MeReturnsOwnProfile(db: Db, caller: UserId)
    requires Valid(db)
    ensures Keyed(db)
    ensures MeSpec(db, caller).status == 200
    ensures MeSpec(db, caller).reply.NoProfile? || MeSpec(db, caller).reply.OneProfile?
    ensures MeSpec(db, caller).reply.NoProfile? <==> forall id :: id in db.profiles ==> db.profiles[id].userId != caller
    ensures MeSpec(db, caller).reply.OneProfile? ==>
              var p := MeSpec(db, caller).reply.profile;
              p.userId == caller && p.id in db.profiles && db.profiles[p.id] == p
  {
    OwnedByExact(db, caller);
  }

  /** GET / lists every stored profile once, in id order. */
  lemma ListIsComplete(db: Db)
    requires Valid(db)
    ensures Keyed(db)
    ensures ListSpec(db).status == 200 && ListSpec(db).reply.Profiles?
    ensures var list := ListSpec(db).reply.list;
              && (forall id :: id in db.profiles ==> db.profiles[id] in list)
              && (forall i :: 0 <= i < |list| ==> list[i].id in db.profiles && db.profiles[list[i].id] == list[i])
              && (forall i, j :: 0 <= i < j < |list| ==> list[i].id < list[j].id)
  {
  }

  /** GET /:id is 404 exactly for an unknown id, and never changes anything (it is a read). */
  lemma GetOneNotFound(db: Db, id: ProfileId)
    ensures GetOneSpec(db, id) == NotFound <==> id !in db.profiles
    ensures id in db.profiles ==> GetOneSpec(db, id) == Response(200, OneProfile(db.profiles[id]))
  {
  }

  /**
   * GET /:id/history holds exactly the snapshots of that profile, each as often as it is
   * stored, ordered by date; it is empty when there are none.
   */
  lemma HistoryOrdered(db: Db, id: ProfileId)
    ensures HistorySpec(db, id).status == 200
    ensures SortedBy(HistoryOf(db, id), DateKey)
    ensures forall s: Snapshot :: multiset(HistoryOf(db, id))[s] == if s.profileId == id then multiset(db.history)[s] else 0
    ensures forall s :: s in HistoryOf(db, id) ==> s.profileId == id
    ensures HistoryOf(db, id) == [] <==> forall i :: 0 <= i < |db.history| ==> db.history[i].profileId != id
  {
    var h := HistoryOf(db, id);
    forall s: Snapshot
      ensures multiset(h)[s] == if s.profileId == id then multiset(db.history)[s] else 0
    {
      FilterMultiset(db.history, MatchesProfile(id), s);
    }
    forall s: Snapshot | s in h
      ensures s.profileId == id
    {
      assert s in multiset(h);
    }
    if forall i :: 0 <= i < |db.history| ==> db.history[i].profileId != id {
      FilterNone(db.history, MatchesProfile(id));
    } else {
      var i :| 0 <= i < |db.history| && db.history[i].profileId == id;
      var s := db.history[i];
      assert s in multiset(db.history);
      assert multiset(h)[s] > 0;
    }
  }

  // ---------------------------------------------------------------- create

  /** POST / answers 400 and writes nothing exactly when one of the eight fields is falsy: a price of 0 included. */
  lemma CreateRequiresAllFields(db: Db, caller: UserId, b: Body, now: nat)
    requires Keyed(db)
    ensures CreateSpec(db, caller, b, now).1.status == 400 <==> !AllFieldsPresent(b)
    ensures !AllFieldsPresent(b) ==> CreateSpec(db, caller, b, now).0 == db
    ensures b.pricePerKilo == Num(0) || b.pricePerKilo == Str("") || b.pricePerKilo == Undefined ==>
              CreateSpec(db, caller, b, now).1.status == 400
  {
  }

  /** With all fields present, POST / answers 409 and writes nothing exactly when the caller already has a profile. */
  lemma CreateConflict(db: Db, caller: UserId, b: Body, now: nat)
    requires Valid(db) && AllFieldsPresent(b)
    ensures Keyed(db)
    ensures CreateSpec(db, caller, b, now).1.status == 409 <==>
              exists id :: id in db.profiles && db.profiles[id].userId == caller
    ensures CreateSpec(db, caller, b, now).1.status == 409 ==> CreateSpec(db, caller, b, now).0 == db
  {
    OwnedByExact(db, caller);
  }

  /**
   * A POST / that passes both checks fails with 500 and writes nothing when the schema rejects
   * the commodity or the price; otherwise it answers 201, adds one profile owned by the caller
   * under a fresh id, and appends one snapshot of its price.
   */
  lemma CreateSucceeds(db: Db, caller: UserId, b: Body, now: nat)
    requires Valid(db)
    ensures Keyed(db)
    ensures var r := CreateSpec(db, caller, b, now);
            r.1.status == 201 <==>
              && AllFieldsPresent(b)
              && (forall id :: id in db.profiles ==> db.profiles[id].userId != caller)
              && ParseCommodity(b.commodityType.value).Some?
              && CastNumber(b.pricePerKilo).Cast?
    ensures var r := CreateSpec(db, caller, b, now);
            r.1.status == 500 ==> r.0 == db
    ensures var (db', r) := CreateSpec(db, caller, b, now);
            r.status == 201 ==>
              var id := db.nextId;
              && id !in db.profiles && id in db'.profiles
              && var p := db'.profiles[id];
              && r.reply == OneProfile(p)
              && db'.profiles == db.profiles[id := p]
              && p.userId == caller
              && p.factoryName == b.factoryName.value && p.ownerName == b.ownerName.value
              && p.contactNumber == b.contactNumber.value && p.address == b.address.value
              && p.effectiveDate == b.effectiveDate.value && p.operatingHours == b.operatingHours.value
              && CommodityName(p.commodityType) == b.commodityType.value
              && ToNumber(b.pricePerKilo) == Val(p.pricePerKilo)
              && p.createdAt == now && p.updatedAt == now
              && db'.history == db.history + [NewSnapshot(id, p.pricePerKilo, None, now)]
  {
    OwnedByExact(db, caller);
  }

  /** Right after a successful create, the new profile's history is exactly the one initial snapshot. */
  lemma CreateRecordsInitialSnapshot(db: Db, caller: UserId, b: Body, now: nat)
    requires Valid(db)
    requires CreateSpec(db, caller, b, now).1.status == 201
    ensures var db' := CreateSpec(db, caller, b, now).0;
            HistoryOf(db', db.nextId) == [NewSnapshot(db.nextId, db'.profiles[db.nextId].pricePerKilo, None, now)]
  {
    var db' := CreateSpec(db, caller, b, now).0;
    var id := db.nextId;
    var s := NewSnapshot(id, db'.profiles[id].pricePerKilo, None, now);
    assert db'.history == db.history + [s];
    NoSnapshotsForNextId(db);
    FilterAppend(db.history, [s], MatchesProfile(id));
    assert Filter([s], MatchesProfile(id)) == Filter([], MatchesProfile(id)) + [s];
    assert Matching(db'.history, id) == [s];
    assert SortBy([s], DateKey) == InsertBy(SortBy([], DateKey), s, DateKey);
  }

  /** Creating keeps the store's invariant: one profile per user, and snapshots refer to profiles. */
  lemma CreatePreservesValid(db: Db, caller: UserId, b: Body, now: nat)
    requires Valid(db)
    ensures Valid(CreateSpec(db, caller, b, now).0)
  {
    OwnedByExact(db, caller);
    if AllFieldsPresent(b) && OwnedBy(db, caller).None? {
      var created := NewProfile(db.nextId, caller, b, now);
      if created.Some? {
        var p := created.value;
        InsertKeepsValid(db, p, NewSnapshot(db.nextId, p.pricePerKilo, None, now));
      }
    }
  }

  /** A user who has just created a profile gets 409 on any further complete create. */
  lemma CreateTwiceConflicts(db: Db, u: UserId, b1: Body, t1: nat, b2: Body, t2: nat)
    requires Valid(db)
    requires CreateSpec(db, u, b1, t1).1.status == 201
    requires AllFieldsPresent(b2)
    ensures CreateSpec(CreateSpec(db, u, b1, t1).0, u, b2, t2).1.status == 409
  {
    var db1 := CreateSpec(db, u, b1, t1).0;
    CreatePreservesValid(db, u, b1, t1);
    CreateSucceeds(db, u, b1, t1);
    assert db1.profiles[db.nextId].userId == u;
    CreateConflict(db1, u, b2, t2);
  }

  // ---------------------------------------------------------------- update

  /** PUT /:id answers 404 for an unknown id and 403 for a caller who is not the owner, whatever the body; neither writes. */
  lemma UpdateGuards(db: Db, id: ProfileId, caller: UserId, b: Body, now: nat)
    requires Keyed(db)
    ensures id !in db.profiles ==> UpdateSpec(db, id, caller, b, now) == (db, NotFound)
    ensures id in db.profiles && db.profiles[id].userId != caller ==>
              UpdateSpec(db, id, caller, b, now) == (db, Forbidden)
  {
  }

  /**
   * A PUT /:id by the owner succeeds exactly when every field in the body passes the schema and
   * no other profile holds a `userId` the body sets; it changes only the fields present in the
   * body, refreshes `updatedAt`, and touches no other profile. Any other outcome writes nothing.
   */
  lemma UpdateMergesFields(db: Db, id: ProfileId, caller: UserId, b: Body, now: nat)
    requires Valid(db)
    ensures Keyed(db)
    ensures var (db', r) := UpdateSpec(db, id, caller, b, now);
            r.status == 200 <==>
              && id in db.profiles && db.profiles[id].userId == caller
              && UpdateAccepted(b)
              && !(b.userId.Some? && OwnerTaken(db, id, b.userId.value))
    ensures var (db', r) := UpdateSpec(db, id, caller, b, now);
            r.status != 200 ==> db' == db
    ensures var (db', r) := UpdateSpec(db, id, caller, b, now);
            r.status == 200 ==>
              var p := db.profiles[id];
              var q := db'.profiles[id];
              && r.reply == OneProfile(q)
              && db'.profiles == db.profiles[id := q]
              && db'.nextId == db.nextId
              && q.id == id && q.createdAt == p.createdAt && q.updatedAt == now
              && q.userId == (if b.userId.Some? then b.userId.value else p.userId)
              && q.factoryName == Pick(b.factoryName, p.factoryName)
              && q.ownerName == Pick(b.ownerName, p.ownerName)
              && q.contactNumber == Pick(b.contactNumber, p.contactNumber)
              && q.address == Pick(b.address, p.address)
              && q.effectiveDate == Pick(b.effectiveDate, p.effectiveDate)
              && q.operatingHours == Pick(b.operatingHours, p.operatingHours)
              && CommodityName(q.commodityType) ==
                   (if b.commodityType.Some? then b.commodityType.value else CommodityName(p.commodityType))
              && (b.pricePerKilo.Undefined? ==> q.pricePerKilo == p.pricePerKilo)
              && (!b.pricePerKilo.Undefined? ==> ToNumber(b.pricePerKilo) == Val(q.pricePerKilo))
  {
  }

  /**
   * A successful PUT /:id appends one snapshot, with the new price, exactly when the body's price
   * is truthy and numerically different from the stored one; otherwise the history is unchanged.
   */
  lemma UpdateSnapshotRule(db: Db, id: ProfileId, caller: UserId, b: Body, now: nat)
    requires Keyed(db)
    ensures var (db', r) := UpdateSpec(db, id, caller, b, now);
            r.status == 200 ==>
              var prev := db.profiles[id].pricePerKilo;
              var q := db'.profiles[id];
              && (PriceChanged(b.pricePerKilo, prev) <==> Truthy(b.pricePerKilo) && q.pricePerKilo != prev)
              && (PriceChanged(b.pricePerKilo, prev) ==>
                    && db'.history == db.history + [NewSnapshot(id, q.pricePerKilo, None, now)]
                    && |db'.history| == |db.history| + 1
                    && db'.history[|db.history|].price == q.pricePerKilo)
              && (!PriceChanged(b.pricePerKilo, prev) ==> db'.history == db.history)
  {
  }

  /**
   * An update whose price is absent, the number 0, the stored number, or the stored number's
   * decimal text ("340" against 340) never appends a snapshot; the number 0 is stored as the price.
   */
  lemma UpdateKeepsHistory(db: Db, id: ProfileId, caller: UserId, b: Body, now: nat)
    requires Keyed(db)
    requires id in db.profiles
    requires || b.pricePerKilo == Undefined
             || b.pricePerKilo == Num(0)
             || b.pricePerKilo == Num(db.profiles[id].pricePerKilo)
             || b.pricePerKilo == Str(IntegerText(db.profiles[id].pricePerKilo))
    ensures UpdateSpec(db, id, caller, b, now).0.history == db.history
    ensures var (db', r) := UpdateSpec(db, id, caller, b, now);
            r.status == 200 && b.pricePerKilo == Num(0) ==> db'.profiles[id].pricePerKilo == 0
  {
    NumberOfText(db.profiles[id].pricePerKilo);
  }

  /** Updating keeps the store's invariant. */
  lemma UpdatePreservesValid(db: Db, id: ProfileId, caller: UserId, b: Body, now: nat)
    requires Valid(db)
    ensures Valid(UpdateSpec(db, id, caller, b, now).0)
  {
    var (db', r) := UpdateSpec(db, id, caller, b, now);
    if r.status == 200 {
      forall i | 0 <= i < |db'.history|
        ensures db'.history[i].profileId in db'.profiles
      {
        if i < |db.history| {
          assert db'.history[i] == db.history[i];
        }
      }
    }
  }

  // ---------------------------------------------------------------- delete

  /** DELETE /:id answers 404 for an unknown id and 403 for a caller who is not the owner; neither writes. */
  lemma DeleteGuards(db: Db, id: ProfileId, caller: UserId)
    requires Keyed(db)
    ensures id !in db.profiles ==> DeleteSpec(db, id, caller) == (db, NotFound)
    ensures id in db.profiles && db.profiles[id].userId != caller ==> DeleteSpec(db, id, caller) == (db, Forbidden)
  {
  }

  /** Removing one profile's snapshots leaves every other profile's snapshots as they were. */
  lemma {:induction false} MatchingWithout(h: seq<Snapshot>, id: ProfileId, other: ProfileId)
    requires other != id
    ensures Matching(Without(h, id), other) == Matching(h, other)
  {
    if h != [] {
      var init, last := h[..|h| - 1], h[|h| - 1];
      MatchingWithout(init, id, other);
      var w := Without(init, id);
      if last.profileId != id {
        assert Without(h, id) == w + [last];
        assert (w + [last])[..|w|] == w;
      } else {
        assert Without(h, id) == w;
      }
    }
  }

  /**
   * A successful DELETE /:id removes the profile and every snapshot of it: afterwards GET /:id is
   * 404 and GET /:id/history is empty, while every other profile and its history are unchanged.
   */
  lemma DeleteCascades(db: Db, id: ProfileId, caller: UserId)
    requires Keyed(db)
    ensures var (db', r) := DeleteSpec(db, id, caller);
            r.status == 200 <==> id in db.profiles && db.profiles[id].userId == caller
    ensures var (db', r) := DeleteSpec(db, id, caller);
            r.status == 200 ==>
              && db'.profiles == db.profiles - {id}
              && GetOneSpec(db', id) == NotFound
              && HistoryOf(db', id) == []
              && (forall other :: other != id ==> Matching(db'.history, other) == Matching(db.history, other))
  {
    var (db', r) := DeleteSpec(db, id, caller);
    if r.status == 200 {
      forall other | other != id
        ensures Matching(db'.history, other) == Matching(db.history, other)
      {
        MatchingWithout(db.history, id, other);
      }
      var w := Without(db.history, id);
      forall i | 0 <= i < |w|
        ensures !MatchesProfile(id)(w[i])
      {
        assert w[i] in w;
      }
      FilterNone(w, MatchesProfile(id));
    }
  }

  /** Deleting keeps the store's invariant. */
  lemma DeletePreservesValid(db: Db, id: ProfileId, caller: UserId)
    requires Valid(db)
    ensures Valid(DeleteSpec(db, id, caller).0)
  {
    var (db', r) := DeleteSpec(db, id, caller);
    if r.status == 200 {
      forall i | 0 <= i < |db'.history|
        ensures db'.history[i].profileId in db'.profiles
      {
        var s := db'.history[i];
        assert s in db'.history;
        var j :| 0 <= j < |db.history| && db.history[j] == s;
      }
    }
  }
}
