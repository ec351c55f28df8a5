/** Request sequences against the seeded home, as the server's tests send them,
    worked out on the model as the code is written. */
module Scenarios {
  import opened Wrappers
  import opened Types
  import opened Validate
  import opened Store
  import opened Handlers

  const ModeCool := UpdateRequest("", 0, "cool", 0, 0, "")

  /** Listing the seeded home returns both records. */
  lemma SeedListsBoth(now: int)
    ensures GetThermostats(Seed(now), [1, 2]) == Reply(StatusOK, [Records([Seed(now).thermostats[1], Seed(now).thermostats[2]])])
  {
    var m := Seed(now).thermostats;
    var therms := seq(2, i requires 0 <= i < 2 => m[[1, 2][i]]);
    assert therms == [m[1], m[2]];
  }

  /** PUT /v1/thermostats/1 with {"mode":"cool"} changes the mode and keeps the name,
      set points and fan. Because record 1 starts at 71 while its set points imply 70,
      the temperature moves too: current 70, previous 71. */
  lemma SeedPutModeCool(now: int, later: int)
    ensures var (h, reply) := Serve(Seed(now), Put(ParsedId(1, true), Some(ModeCool)), [], later);
      && reply == Reply(StatusOK, [])
      && h.thermostats[1] == Thermostat(1, "Downstairs Thermostat", 70, 71, "cool", 68, 72, "auto", later)
      && h.thermostats[2] == Seed(now).thermostats[2]
  {
    assert Acceptable(ModeCool);
  }

  /** Repeating that PUT leaves the midpoint equal to the current temperature, so the
      current temperature drops to 0 and reading it answers 404. */
  lemma RepeatedPutHidesCurrentTemp(now: int, t1: int, t2: int)
    ensures var h1 := Serve(Seed(now), Put(ParsedId(1, true), Some(ModeCool)), [], t1).0;
      var h2 := Serve(h1, Put(ParsedId(1, true), Some(ModeCool)), [], t2).0;
      && h2.thermostats[1].currentTemp == 0
      && h2.thermostats[1].previousTemp == 0
      && Serve(h2, GetFieldOf(ParsedId(1, true), "currentTemp"), [], t2).1 == Reply(StatusNotFound, [Error(NotFound)])
  {
    SeedPutModeCool(now, t1);
    var h1 := Serve(Seed(now), Put(ParsedId(1, true), Some(ModeCool)), [], t1).0;
    assert h1.thermostats[1].currentTemp == 70;
  }

  /** The bulk PUT of the server's tests: every writable field of record 1 is replaced,
      and the temperature moves to the new midpoint (74 + 71) / 2 = 72. */
  lemma SeedBulkPut(now: int, later: int)
    ensures var desired := UpdateRequest("Other Thermostat", 0, "cool", 74, 71, "auto");
      var (h, reply) := Serve(Seed(now), Put(ParsedId(1, true), Some(desired)), [], later);
      && reply == Reply(StatusOK, [])
      && h.thermostats[1] == Thermostat(1, "Other Thermostat", 72, 71, "cool", 74, 71, "auto", later)
  {
    assert Acceptable(UpdateRequest("Other Thermostat", 0, "cool", 74, 71, "auto"));
  }

  /** The POST of the server's tests creates record 3 with the given fields and the
      current temperature (72 + 68) / 2 = 70. */
  lemma SeedPostCreatesThird(now: int, later: int)
    ensures var desired := UpdateRequest("Basement Thermostat", 0, "heat", 72, 68, "on");
      var (h, reply) := Serve(Seed(now), Post(Some(desired)), [], later);
      && reply == Reply(StatusOK, [Record(Thermostat(3, "Basement Thermostat", 70, 0, "heat", 72, 68, "on", later))])
      && h.thermostats.Keys == {1, 2, 3}
  {
    var desired := UpdateRequest("Basement Thermostat", 0, "heat", 72, 68, "on");
    assert Acceptable(desired);
    var id := NextId(Seed(now));
    assert id == 3;
  }

  /** GET /v1/thermostats/999 is a 404. */
  lemma UnknownIdNotFound(now: int)
    ensures Serve(Seed(now), GetOne(ParsedId(999, true)), [], now).1 == Reply(StatusNotFound, [Error(NotFound)])
  {
  }

  /** PUT /v1/thermostats/1 with {"mode":"on"} is refused and changes nothing. */
  lemma PutModeOnRefused(now: int, later: int)
    ensures Serve(Seed(now), Put(ParsedId(1, true), Some(UpdateRequest("", 0, "on", 0, 0, ""))), [], later)
              == (Seed(now), Reply(StatusBadRequest, [Error(InvalidOpMode)]))
  {
    var desired := UpdateRequest("", 0, "on", 0, 0, "");
    assert !ModeOk("on");
    assert ValidateData(desired) == Some(InvalidOpMode);
    var t := Seed(now).thermostats[1];
    assert Resolve(Seed(now), ParsedId(1, true)) == Proceed(t, []);
    var reply := PutThermostat(Seed(now), t, Some(desired), later).1;
    assert After([], reply) == reply;
  }
}
