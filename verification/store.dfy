/** The store operations of server/server.go on `home.thermostats`: lookup,
    the partial update that rebuilds a record, and creation with the next id.
    The mutex around each of them is not modelled; every operation is a pure
    function from the old home to the new one. */
module Store {
  import opened Wrappers
  import opened Types
  import Decimal

  const NotFound := ErrResponse(StatusNotFound, "Not Found")

  /** `Thermostat(id)`: the stored record, or 404 "Not Found". */
  function Lookup(home: Home, id: int): (r: Result<Thermostat, ErrResponse>)
    ensures r.Success? <==> id in home.thermostats
    ensures r.Success? ==> r.value == home.thermostats[id]
    ensures r.Failure? ==> r.error.code == StatusNotFound && r.error.msg == "Not Found"
  {
    if id in home.thermostats then Success(home.thermostats[id]) else Failure(NotFound)
  }

  /** Go's integer division by two, which truncates toward zero (Dafny's `/` does not
      for negative numbers). */
  function TruncDiv2(x: int): (q: int)
    ensures x >= 0 ==> 0 <= x - 2 * q <= 1
    ensures x < 0 ==> -1 <= x - 2 * q <= 0
  {
    if x >= 0 then x / 2 else -((-x) / 2)
  }

  /** The temperature a pair of set points implies. */
  function Midpoint(cool: int, heat: int): int
  {
    TruncDiv2(cool + heat)
  }

  /** The fields a client can write. */
  datatype Settings = Settings(name: string, mode: string, coolSetPoint: int, heatSetPoint: int, fan: string)

  function SettingsOf(t: Thermostat): Settings
  {
    Settings(t.name, t.mode, t.coolSetPoint, t.heatSetPoint, t.fan)
  }

  /** The fresh record `UpdateThermostat` builds from the target and the request:
      each given field replaces the target's, and the temperature follows the set
      points. As written, when the new midpoint equals the old current temperature
      neither temperature field is assigned, so both are left at zero. */
  function Merge(target: Thermostat, desired: UpdateRequest, now: int): (t: Thermostat)
    ensures t.id == target.id
    ensures desired.name != "" ==> t.name == desired.name
    ensures desired.name == "" ==> t.name == target.name
    ensures desired.mode != "" ==> t.mode == desired.mode
    ensures desired.mode == "" ==> t.mode == target.mode
    ensures desired.coolSetPoint != 0 ==> t.coolSetPoint == desired.coolSetPoint
    ensures desired.coolSetPoint == 0 ==> t.coolSetPoint == target.coolSetPoint
    ensures desired.heatSetPoint != 0 ==> t.heatSetPoint == desired.heatSetPoint
    ensures desired.heatSetPoint == 0 ==> t.heatSetPoint == target.heatSetPoint
    ensures desired.fan != "" ==> t.fan == desired.fan
    ensures desired.fan == "" ==> t.fan == target.fan
    ensures Midpoint(t.coolSetPoint, t.heatSetPoint) != target.currentTemp ==>
              t.currentTemp == Midpoint(t.coolSetPoint, t.heatSetPoint) && t.previousTemp == target.currentTemp
    ensures Midpoint(t.coolSetPoint, t.heatSetPoint) == target.currentTemp ==>
              t.currentTemp == 0 && t.previousTemp == 0
    ensures t.lastChanged == now
  {
    var name := if desired.name != "" then desired.name else target.name;
    var mode := if desired.mode != "" then desired.mode else target.mode;
    var cool := if desired.coolSetPoint != 0 then desired.coolSetPoint else target.coolSetPoint;
    var heat := if desired.heatSetPoint != 0 then desired.heatSetPoint else target.heatSetPoint;
    var fan := if desired.fan != "" then desired.fan else target.fan;
    var temp := Midpoint(cool, heat);
    if temp != target.currentTemp then
      Thermostat(target.id, name, temp, target.currentTemp, mode, cool, heat, fan, now)
    else
      Thermostat(target.id, name, 0, 0, mode, cool, heat, fan, now)
  }

  /** `UpdateThermostat`: the entry at the target's id is replaced by the merged
      record; every other entry stays as it was. */
  function UpdateThermostat(home: Home, target: Thermostat, desired: UpdateRequest, now: int): (h: Home)
    ensures h.thermostats.Keys == home.thermostats.Keys + {target.id}
    ensures h.thermostats[target.id] == Merge(target, desired, now)
    ensures forall k :: k in home.thermostats && k != target.id ==> h.thermostats[k] == home.thermostats[k]
  {
    Home(home.thermostats[target.id := Merge(target, desired, now)])
  }

  /** `m` is the largest element of `s`. */
  predicate IsMax(m: int, s: set<int>)
  {
    m in s && forall k :: k in s ==> k <= m
  }

  /** A set with a known element has a largest element. */
  lemma {:induction false} MaxExists(s: set<int>, y: int)
    requires y in s
    ensures exists m :: IsMax(m, s)
    decreases s
  {
    var rest := s - {y};
    if exists z :: z in rest {
      var z :| z in rest;
      MaxExists(rest, z);
      var m :| IsMax(m, rest);
      var top := if y > m then y else m;
      forall k | k in s
        ensures k <= top
      {
        if k != y {
          assert k in rest;
        }
      }
      assert IsMax(top, s);
    } else {
      forall k | k in s
        ensures k == y
      {
        assert k !in rest;
      }
      assert IsMax(y, s);
    }
  }

  /** The largest element of a set that has one. */
  function MaxOf(s: set<int>): (m: int)
    requires exists k :: k in s
    ensures IsMax(m, s)
  {
    var y :| y in s;
    MaxExists(s, y);
    var m :| IsMax(m, s);
    m
  }

  /** The keys collected and then put through `sort.Ints`: strictly ascending,
      holding exactly the elements of the set, each once. */
  function SortedKeys(s: set<int>): (r: seq<int>)
    ensures forall i, j :: 0 <= i < j < |r| ==> r[i] < r[j]
    ensures forall k :: k in s <==> k in r
    ensures |r| == |s|
    decreases s
  {
    if exists k :: k in s then
      var m := MaxOf(s);
      SortedKeys(s - {m}) + [m]
    else
      assert s == {};
      []
  }

  /** The id `AddThermostat` allocates: the last sorted key plus one. */
  function NextId(home: Home): (id: int)
    requires home.thermostats != map[]
    ensures id - 1 in home.thermostats
    ensures forall k :: k in home.thermostats ==> k < id
  {
    var ints := SortedKeys(home.thermostats.Keys);
    ints[|ints| - 1] + 1
  }

  /** The record `AddThermostat` builds, with defaults for the fields not given.
      Both set points are non-zero after defaulting, so the current temperature is
      always their midpoint and the fallback of 71 is never taken. */
  function NewRecord(id: int, desired: UpdateRequest, now: int): (t: Thermostat)
    ensures t.id == id
    ensures desired.name != "" ==> t.name == desired.name
    ensures desired.name == "" ==> t.name == "Thermostat #" + Decimal.IntToDecimal(id)
    ensures desired.mode != "" ==> t.mode == desired.mode
    ensures desired.mode == "" ==> t.mode == "off"
    ensures desired.coolSetPoint != 0 ==> t.coolSetPoint == desired.coolSetPoint
    ensures desired.coolSetPoint == 0 ==> t.coolSetPoint == 71
    ensures desired.heatSetPoint != 0 ==> t.heatSetPoint == desired.heatSetPoint
    ensures desired.heatSetPoint == 0 ==> t.heatSetPoint == 71
    ensures desired.fan != "" ==> t.fan == desired.fan
    ensures desired.fan == "" ==> t.fan == "auto"
    ensures t.currentTemp == Midpoint(t.coolSetPoint, t.heatSetPoint)
    ensures t.previousTemp == 0
    ensures t.lastChanged == now
  {
    var name := if desired.name != "" then desired.name else "Thermostat #" + Decimal.IntToDecimal(id);
    var mode := if desired.mode != "" then desired.mode else "off";
    var cool := if desired.coolSetPoint != 0 then desired.coolSetPoint else 71;
    var heat := if desired.heatSetPoint != 0 then desired.heatSetPoint else 71;
    var fan := if desired.fan != "" then desired.fan else "auto";
    var temp := if cool != 0 && heat != 0 then Midpoint(cool, heat) else 71;
    Thermostat(id, name, temp, 0, mode, cool, heat, fan, now)
  }

  /** `AddThermostat`: the new home and the id it allocated. The map must not be
      empty, since the code indexes the last sorted key. The new id is the largest key
      plus one, so it was not in use; the old entries are untouched, and the new entry
      is the defaulted record. */
  function AddThermostat(home: Home, desired: UpdateRequest, now: int): (r: (Home, int))
    requires home.thermostats != map[]
    ensures r.1 == NextId(home)
    ensures r.1 - 1 in home.thermostats
    ensures r.1 !in home.thermostats
    ensures forall k :: k in home.thermostats ==> k < r.1
    ensures r.0.thermostats.Keys == home.thermostats.Keys + {r.1}
    ensures r.0.thermostats[r.1] == NewRecord(r.1, desired, now)
    ensures forall k :: k in home.thermostats ==> r.0.thermostats[k] == home.thermostats[k]
  {
    var newId := NextId(home);
    (Home(home.thermostats[newId := NewRecord(newId, desired, now)]), newId)
  }

  /** An update that asks for nothing keeps every writable field and the id. */
  lemma EmptyUpdateKeepsSettings(target: Thermostat, now: int)
    ensures SettingsOf(Merge(target, EmptyRequest, now)) == SettingsOf(target)
    ensures Merge(target, EmptyRequest, now).id == target.id
  {
  }

  /** Sending the same update twice leaves the writable fields as the first one set them. */
  lemma UpdateSettingsIdempotent(target: Thermostat, desired: UpdateRequest, now1: int, now2: int)
    ensures SettingsOf(Merge(Merge(target, desired, now1), desired, now2)) == SettingsOf(Merge(target, desired, now1))
  {
  }

  /** As written, repeating an update that moved the temperature zeroes it: the second
      time the midpoint equals the current temperature, so neither field is assigned. */
  lemma RepeatedUpdateZeroesTemperature(target: Thermostat, desired: UpdateRequest, now1: int, now2: int)
    requires Midpoint(Merge(target, desired, now1).coolSetPoint, Merge(target, desired, now1).heatSetPoint)
               != target.currentTemp
    ensures Merge(Merge(target, desired, now1), desired, now2).currentTemp == 0
    ensures Merge(Merge(target, desired, now1), desired, now2).previousTemp == 0
  {
  }
}
