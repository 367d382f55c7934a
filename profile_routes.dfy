/**
 * The profile router's handlers as methods of one store object that holds both
 * collections and updates them in place, each proved to perform the transition
 * `ProfileSpec` describes and to keep the store's invariant.
 */
module ProfileRoutes {
  import opened Common
  import opened JsValue
  import opened Seqs
  import opened ProfileModel
  import opened PriceHistoryModel
  import opened ProfileSpec
  import ProfileLaws

  class ProfileStore {
    /** The `Profile` collection, by id. */
    var profiles: map<ProfileId, Profile>
    /** The `PriceHistory` collection, in insertion order. */
    var history: seq<Snapshot>
    /** The id the next created profile receives. */
    var nextId: nat

    function State(): Db
      reads this
    {
      Db(profiles, history, nextId)
    }

    ghost predicate Valid()
      reads this
    {
      ProfileSpec.Valid(State())
    }

    /** An empty database. */
    constructor ()
      ensures State() == Db(map[], [], 0)
      ensures Valid()
    {
      profiles := map[];
      history := [];
      nextId := 0;
    }

    /** GET /me: the caller's own profile, or `null`; never an error. */
    method Me(caller: UserId) returns (r: Response)
      requires Valid()
      ensures Keyed(State()) && r == MeSpec(State(), caller)
      ensures r.status == 200
      ensures r.reply.OneProfile? ==> r.reply.profile.userId == caller && r.reply.profile.id in profiles
      ensures r.reply.NoProfile? <==> forall id :: id in profiles ==> profiles[id].userId != caller
    {
      ProfileLaws.MeReturnsOwnProfile(State(), caller);
      var profile := OwnedBy(State(), caller);
      if profile.Some? {
        r := Response(200, OneProfile(profile.value));
      } else {
        r := Response(200, NoProfile);
      }
    }

    /** GET /: every profile, each once, in creation order. */
    method List() returns (r: Response)
      requires Valid()
      ensures Keyed(State()) && r == ListSpec(State())
      ensures r.reply.Profiles? && forall id :: id in profiles ==> profiles[id] in r.reply.list
    {
      ProfileLaws.ListIsComplete(State());
      r := Response(200, Profiles(AllProfiles(State())));
    }

    /** GET /:id. */
    method GetOne(id: ProfileId) returns (r: Response)
      ensures r == GetOneSpec(State(), id)
      ensures r.status == 404 <==> id !in profiles
    {
      if id !in profiles {
        return NotFound;
      }
      r := Response(200, OneProfile(profiles[id]));
    }

    /** GET /:id/history: that profile's snapshots by date. */
    method History(id: ProfileId) returns (r: Response)
      ensures r == HistorySpec(State(), id)
      ensures r.reply.History? && SortedBy(r.reply.snapshots, DateKey)
      ensures forall s :: s in r.reply.snapshots ==> s in history && s.profileId == id
    {
      ProfileLaws.HistoryOrdered(State(), id);
      r := Response(200, Reply.History(SortBy(Matching(history, id), DateKey)));
    }

    /** POST /: the checks in order, then the profile, then its first snapshot. */
    method Create(caller: UserId, b: Body, now: nat) returns (r: Response)
      requires Valid()
      modifies this
      ensures (State(), r) == CreateSpec(old(State()), caller, b, now)
      ensures Valid()
    {
      if !AllFieldsPresent(b) {
        return Response(400, Message("All fields are required"));
      }
      ProfileLaws.OwnedByExact(State(), caller);
      var existing := OwnedBy(State(), caller);
      if existing.Some? {
        return Response(409, Message("Profile already exists for this user"));
      }
      var created := NewProfile(nextId, caller, b, now);
      if created.None? {
        return ServerError;
      }
      var profile := created.value;
      var snapshot := NewSnapshot(profile.id, profile.pricePerKilo, None, now);
      ProfileLaws.InsertKeepsValid(State(), profile, snapshot);
      profiles := profiles[profile.id := profile];
      history := history + [snapshot];
      nextId := nextId + 1;
      r := Response(201, OneProfile(profile));
    }

    /** PUT /:id: existence, ownership, the merge, then a snapshot when the price moved. */
    method Update(id: ProfileId, caller: UserId, b: Body, now: nat) returns (r: Response)
      requires Valid()
      modifies this
      ensures (State(), r) == UpdateSpec(old(State()), id, caller, b, now)
      ensures Valid()
    {
      ProfileLaws.UpdatePreservesValid(State(), id, caller, b, now);
      if id !in profiles {
        return NotFound;
      }
      var profile := profiles[id];
      if profile.userId != caller {
        return Forbidden;
      }
      var oldPrice := profile.pricePerKilo;
      var updated := Merge(profile, b, now);
      if updated.None? || OwnerTaken(State(), id, updated.value.userId) {
        return ServerError;
      }
      profiles := profiles[id := updated.value];
      if PriceChanged(b.pricePerKilo, oldPrice) {
        history := history + [NewSnapshot(id, updated.value.pricePerKilo, None, now)];
      }
      r := Response(200, OneProfile(updated.value));
    }

    /** DELETE /:id: existence, ownership, then the profile and all its snapshots. */
    method Delete(id: ProfileId, caller: UserId) returns (r: Response)
      requires Valid()
      modifies this
      ensures (State(), r) == DeleteSpec(old(State()), id, caller)
      ensures Valid()
    {
      ProfileLaws.DeletePreservesValid(State(), id, caller);
      if id !in profiles {
        return NotFound;
      }
      if profiles[id].userId != caller {
        return Forbidden;
      }
      profiles := profiles - {id};
      history := Without(history, id);
      r := Response(200, Message("Profile deleted successfully"));
    }
  }
}

/**
 * The order in which the router registers its seven handlers, and Express's
 * first-match dispatch over it.
 */
module ProfileRouter {
  import opened Common
  import opened Text

  datatype Verb = Get | Post | Put | Delete

  /** A path segment pattern: a literal, or the `:id` parameter. */
  datatype Segment = Lit(text: string) | Param

  datatype Handler = MeHandler | CreateHandler | ListHandler | GetOneHandler | HistoryHandler | UpdateHandler | DeleteHandler

  /** One registration: verb, path below the mount point, whether `auth` runs first, and the handler. */
  datatype Route = Route(verb: Verb, path: seq<Segment>, auth: bool, handler: Handler)

  /** The registrations in source order. */
  const Routes: seq<Route> := [
    Route(Get, [Lit("me")], true, MeHandler),
    Route(Post, [], true, CreateHandler),
    Route(Get, [], false, ListHandler),
    Route(Get, [Param], false, GetOneHandler),
    Route(Get, [Param, Lit("history")], false, HistoryHandler),
    Route(Put, [Param], true, UpdateHandler),
    Route(Delete, [Param], true, DeleteHandler)
  ]

  /**
   * A request path matches a pattern segment by segment; `:id` takes any non-empty segment.
   * The router is made without options, so literal segments match regardless of case; the
   * literals are all lower-case ASCII, for which folding the request's ASCII letters is exact.
   */
  predicate Matches(pattern: seq<Segment>, path: seq<string>) {
    && |pattern| == |path|
    && forall i :: 0 <= i < |path| ==>
         match pattern[i]
         case Lit(t) => ToLower(path[i]) == t
         case Param => path[i] != ""
  }

  /** The first registered route that matches the verb and path. */
  function Dispatch(routes: seq<Route>, verb: Verb, path: seq<string>): (r: Option<Route>)
    ensures r.Some? ==> r.value in routes && r.value.verb == verb && Matches(r.value.path, path)
    ensures r.None? ==> forall x :: x in routes ==> !(x.verb == verb && Matches(x.path, path))
  {
    if routes == [] then None
    else if routes[0].verb == verb && Matches(routes[0].path, path) then Some(routes[0])
    else Dispatch(routes[1..], verb, path)
  }

  /** When a route matches, dispatch picks the earliest one registered. */
  lemma {:induction false} DispatchFirst(routes: seq<Route>, verb: Verb, path: seq<string>, k: nat)
    requires k < |routes| && routes[k].verb == verb && Matches(routes[k].path, path)
    requires forall j :: 0 <= j < k ==> !(routes[j].verb == verb && Matches(routes[j].path, path))
    ensures Dispatch(routes, verb, path) == Some(routes[k])
  {
    if k > 0 {
      DispatchFirst(routes[1..], verb, path, k - 1);
    }
  }

  /**
   * Because `/me` is registered before `/:id`, GET /me, in any case, reaches the caller's own
   * profile, and every other single segment reaches the lookup by id.
   */
  lemma MeBeforeId(seg: string)
    requires seg != ""
    ensures ToLower(seg) == "me" ==> Dispatch(Routes, Get, [seg]).Some? && Dispatch(Routes, Get, [seg]).value.handler == MeHandler
    ensures ToLower(seg) != "me" ==> Dispatch(Routes, Get, [seg]).Some? && Dispatch(Routes, Get, [seg]).value.handler == GetOneHandler
  {
    assert Routes[0].path == [Lit("me")];
    if ToLower(seg) == "me" {
      assert Matches(Routes[0].path, [seg]);
      DispatchFirst(Routes, Get, [seg], 0);
    } else {
      assert !Matches(Routes[0].path, [seg]) by {
        assert [seg][0] == seg;
      }
      assert Matches(Routes[3].path, [seg]);
      DispatchFirst(Routes, Get, [seg], 3);
    }
  }

  /** The upper-case and mixed-case spellings of `me` reach the same handler as `me`. */
  lemma MeAnyCase()
    ensures Dispatch(Routes, Get, ["ME"]).Some? && Dispatch(Routes, Get, ["ME"]).value.handler == MeHandler
    ensures Dispatch(Routes, Get, ["Me"]).Some? && Dispatch(Routes, Get, ["Me"]).value.handler == MeHandler
  {
    assert ToLower("ME") == "me" by {
      assert ToLower("ME"[1..]) == "e";
    }
    assert ToLower("Me") == "me" by {
      assert ToLower("Me"[1..]) == "e";
    }
    MeBeforeId("ME");
    MeBeforeId("Me");
  }

  /** Registering `/:id` first would send GET /me to the lookup by id. */
  lemma IdFirstShadowsMe()
    ensures var swapped := [Routes[3], Routes[0]] + Routes[1..3] + Routes[4..];
            Dispatch(swapped, Get, ["me"]).Some? && Dispatch(swapped, Get, ["me"]).value.handler == GetOneHandler
  {
    var swapped := [Routes[3], Routes[0]] + Routes[1..3] + Routes[4..];
    DispatchFirst(swapped, Get, ["me"], 0);
  }

  /** GET /:id/history, in any case, reaches the history handler for any id segment; no other two-segment GET is routed. */
  lemma HistoryRoute(seg: string, tail: string)
    requires seg != ""
    ensures ToLower(tail) == "history" ==>
              Dispatch(Routes, Get, [seg, tail]).Some? && Dispatch(Routes, Get, [seg, tail]).value.handler == HistoryHandler
    ensures ToLower(tail) != "history" ==> Dispatch(Routes, Get, [seg, tail]).None?
  {
    assert Routes[4].path == [Param, Lit("history")];
    if ToLower(tail) == "history" {
      assert Matches(Routes[4].path, [seg, tail]);
      DispatchFirst(Routes, Get, [seg, tail], 4);
    } else {
      assert !Matches(Routes[4].path, [seg, tail]) by {
        assert [seg, tail][1] == tail;
      }
      assert forall j :: 0 <= j < |Routes| && j != 4 ==> |Routes[j].path| != 2;
    }
  }

  /** PUT /:id and DELETE /:id reach the update and delete handlers for any id segment. */
  lemma WriteRoutes(seg: string)
    requires seg != ""
    ensures Dispatch(Routes, Put, [seg]).Some? && Dispatch(Routes, Put, [seg]).value.handler == UpdateHandler
    ensures Dispatch(Routes, Delete, [seg]).Some? && Dispatch(Routes, Delete, [seg]).value.handler == DeleteHandler
  {
    assert forall j :: 0 <= j < 5 ==> Routes[j].verb == Get || Routes[j].verb == Post;
    assert Routes[5].verb == Put;
    assert Matches([Param], [seg]);
    DispatchFirst(Routes, Put, [seg], 5);
    DispatchFirst(Routes, Delete, [seg], 6);
  }

  /** Only the three reads by id or of the whole list are public; every write and GET /me needs a caller. */
  lemma PublicRoutes()
    ensures forall x :: x in Routes ==> (!x.auth <==> x.handler in {ListHandler, GetOneHandler, HistoryHandler})
  {
  }
}
