/** The records of server/server.go: one thermostat, the partial update a client
    sends, the error body, and the home that maps ids to thermostats. */
module Types {

  /** One unit. `lastChanged` is the clock reading of the last create or update,
      supplied by the caller instead of `time.Now()`. */
  datatype Thermostat = Thermostat(
    id: int,
    name: string,
    currentTemp: int,
    previousTemp: int,
    mode: string,
    coolSetPoint: int,
    heatSetPoint: int,
    fan: string,
    lastChanged: int)

  /** The desired state sent by a client. An empty string or a zero means
      "not given". `temperature` exists only so that a client trying to set the
      current temperature gets an error. */
  datatype UpdateRequest = UpdateRequest(
    name: string,
    temperature: int,
    mode: string,
    coolSetPoint: int,
    heatSetPoint: int,
    fan: string)

  /** The error body; the human-readable description is not modelled. */
  datatype ErrResponse = ErrResponse(code: int, msg: string)

  /** The shared state: thermostats by id. */
  datatype Home = Home(thermostats: map<int, Thermostat>)

  const StatusOK := 200
  const StatusBadRequest := 400
  const StatusNotFound := 404

  const MinCoolSetPt := 30
  const MaxCoolSetPt := 100
  const MinHeatSetPt := 30
  const MaxHeatSetPt := 100

  const ValidOpModes: seq<string> := ["cool", "heat", "off"]
  const ValidFanModes: seq<string> := ["auto", "on"]
  const ValidFields: seq<string> := ["name", "currentTemp", "mode", "coolSetPoint", "heatSetPoint", "fan"]

  /** An update request that asks for nothing. */
  const EmptyRequest := UpdateRequest("", 0, "", 0, 0, "")

  /** The two records the server starts with. Their previous temperatures are
      zero, and record 1's current temperature (71) is not the midpoint of its
      set points (70). */
  function Seed(now: int): (h: Home)
    ensures h.thermostats.Keys == {1, 2}
    ensures forall id :: id in h.thermostats ==> h.thermostats[id].id == id && h.thermostats[id].lastChanged == now
  {
    Home(map[
      1 := Thermostat(1, "Downstairs Thermostat", 71, 0, "heat", 68, 72, "auto", now),
      2 := Thermostat(2, "Upstairs Thermostat", 72, 0, "cool", 69, 73, "on", now)
    ])
  }
}
