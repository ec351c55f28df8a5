/** The whole-home invariant: every record sits under its own positive id, has a
    mode among cool, heat, off, a fan among auto, on, and both set points within
    [30, 100]. The seed satisfies it, and every request preserves it because
    writes happen only after validation. */
module Invariant {
  import opened Wrappers
  import opened Types
  import opened Validate
  import opened Store
  import opened Handlers

  predicate ValidRecord(t: Thermostat)
  {
    && t.mode in {"cool", "heat", "off"}
    && t.fan in {"auto", "on"}
    && 30 <= t.coolSetPoint <= 100
    && 30 <= t.heatSetPoint <= 100
  }

  predicate Valid(home: Home)
  {
    && home.thermostats != map[]
    && forall id :: id in home.thermostats ==>
         id >= 1 && home.thermostats[id].id == id && ValidRecord(home.thermostats[id])
  }

  lemma SeedValid(now: int)
    ensures Valid(Seed(now))
  {
    assert 1 in Seed(now).thermostats;
  }

  /** Merging an accepted request into a valid record gives a valid record. */
  lemma MergeValid(target: Thermostat, desired: UpdateRequest, now: int)
    requires ValidRecord(target)
    requires Acceptable(desired)
    ensures ValidRecord(Merge(target, desired, now))
  {
  }

  /** A record built from an accepted request and the defaults is valid. */
  lemma NewRecordValid(id: int, desired: UpdateRequest, now: int)
    requires Acceptable(desired)
    ensures ValidRecord(NewRecord(id, desired, now))
  {
  }

  /** A PUT on a stored record keeps the home valid. */
  lemma PutPreservesValid(home: Home, target: Thermostat, body: Option<UpdateRequest>, now: int)
    requires Valid(home)
    requires target.id in home.thermostats && home.thermostats[target.id] == target
    ensures Valid(PutThermostat(home, target, body, now).0)
  {
    if body.Some? && Acceptable(body.value) {
      MergeValid(target, body.value, now);
    }
  }

  /** A POST keeps the home valid; the new id is positive because it exceeds a stored one. */
  lemma PostPreservesValid(home: Home, body: Option<UpdateRequest>, now: int)
    requires Valid(home)
    ensures Valid(PostThermostat(home, body, now).0)
  {
    if body.Some? && Acceptable(body.value) {
      var newId := NextId(home);
      var h := PostThermostat(home, body, now).0;
      NewRecordValid(newId, body.value, now);
      assert newId - 1 >= 1;
      forall k | k in h.thermostats
        ensures k >= 1 && h.thermostats[k].id == k && ValidRecord(h.thermostats[k])
      {
        if k != newId {
          assert k in home.thermostats;
        }
      }
      assert newId in h.thermostats;
    }
  }

  /** Every request keeps the home valid. */
  lemma ServePreservesValid(home: Home, route: Route, order: seq<int>, now: int)
    requires Valid(home)
    requires route.List? ==> Enumerates(order, home.thermostats)
    ensures Valid(Serve(home, route, order, now).0)
  {
    match route
    case Post(body) => PostPreservesValid(home, body, now);
    case Put(id, body) =>
      if id.value in home.thermostats {
        PutPreservesValid(home, home.thermostats[id.value], body, now);
      }
    case _ =>
  }

  /** In a valid home a malformed id that Atoi turned into 0 (or any other
      non-positive value) is answered with both errors and a final status of 404,
      not the 400 the middleware set first. */
  lemma MalformedIdReportedTwice(home: Home, id: ParsedId)
    requires Valid(home)
    requires !id.ok && id.value < 1
    ensures Resolve(home, id) == Halt(Reply(StatusNotFound, [Error(InvalidIdentifier), Error(NotFound)]))
  {
  }

  /** In a valid home every id is resolved to the record carrying that id. */
  lemma ResolveFindsOwnId(home: Home, id: ParsedId)
    requires Valid(home)
    requires Resolve(home, id).Proceed?
    ensures Resolve(home, id).target.id == id.value
    ensures ValidRecord(Resolve(home, id).target)
  {
  }
}
