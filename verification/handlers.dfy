/** The request handlers of server/server.go reduced to their decisions. The list
    handler takes the home and returns a reply; get-one and get-field take the record
    the routing middleware resolved and return a reply; PUT, POST and the dispatcher
    `Serve` return the new home together with the reply. JSON decoding is a
    parameter: a body that failed to decode arrives as `None`. */
module Handlers {
  import opened Wrappers
  import opened Types
  import opened Validate
  import opened Store

  /** One JSON value written to the response body. */
  datatype Body =
    | Record(t: Thermostat)
    | Records(ts: seq<Thermostat>)
    | Text(s: string)
    | Number(n: int)
    | Error(e: ErrResponse)

  /** The final status code and the JSON values written to the body, in order;
      an empty sequence is an empty body. */
  datatype Reply = Reply(status: int, written: seq<Body>)

  const InvalidJsonBody := ErrResponse(StatusBadRequest, "Invalid JSON body provided")
  const InvalidIdentifier := ErrResponse(StatusBadRequest, "Invalid identifier provided")
  const InvalidProperty := ErrResponse(StatusBadRequest, "Invalid Property")

  /** What `strconv.Atoi` gave for the `:id` path segment: the value it returns
      (0 for a syntax error, the clamped bound for an out-of-range number) and
      whether it reported no error. */
  datatype ParsedId = ParsedId(value: int, ok: bool)

  /** The outcome of the routing middleware: stop with a reply, or run the handler
      on the resolved record after what has already been written. */
  datatype Resolution =
    | Halt(reply: Reply)
    | Proceed(target: Thermostat, prefix: seq<Body>)

  /** `HandleRoute` for a route with an id. As written, the malformed-id branch does
      not return: its 400 error is written, and the lookup then runs on the value
      Atoi returned, so a missing record adds a 404 error and sets the final status. */
  function Resolve(home: Home, id: ParsedId): (r: Resolution)
    ensures r.Proceed? <==> id.value in home.thermostats
    ensures r.Proceed? ==> r.target == home.thermostats[id.value]
    ensures r.Proceed? && id.ok ==> r.prefix == []
    ensures r.Proceed? && !id.ok ==> r.prefix == [Error(InvalidIdentifier)]
    ensures r.Halt? && id.ok ==> r.reply == Reply(StatusNotFound, [Error(NotFound)])
    ensures r.Halt? && !id.ok ==> r.reply == Reply(StatusNotFound, [Error(InvalidIdentifier), Error(NotFound)])
  {
    var prefix := if id.ok then [] else [Error(InvalidIdentifier)];
    match Lookup(home, id.value)
    case Failure(e) => Halt(Reply(StatusNotFound, prefix + [Error(e)]))
    case Success(t) => Proceed(t, prefix)
  }

  /** `order` lists every key of `m` exactly once: the order in which ranging over
      the Go map visits them, which the language leaves unspecified. */
  predicate Enumerates(order: seq<int>, m: map<int, Thermostat>)
  {
    && (forall i :: 0 <= i < |order| ==> order[i] in m)
    && (forall k :: k in m ==> k in order)
    && (forall i, j :: 0 <= i < j < |order| ==> order[i] != order[j])
  }

  /** A sequence without repetitions has as many elements as its set. */
  lemma {:induction false} DistinctCardinality(xs: seq<int>)
    requires forall i, j :: 0 <= i < j < |xs| ==> xs[i] != xs[j]
    ensures |set x | x in xs| == |xs|
  {
    if |xs| > 0 {
      var tail := xs[1..];
      DistinctCardinality(tail);
      assert (set x | x in xs) == (set x | x in tail) + {xs[0]};
      assert xs[0] !in tail;
    }
  }

  /** An enumeration of a map's keys is as long as the map. */
  lemma EnumerationLength(order: seq<int>, m: map<int, Thermostat>)
    requires Enumerates(order, m)
    ensures |order| == |m|
  {
    DistinctCardinality(order);
    var seen := set x | x in order;
    forall k
      ensures k in seen <==> k in m.Keys
    {
      if k in order {
        var i :| 0 <= i < |order| && order[i] == k;
      }
    }
    assert seen == m.Keys;
  }

  /** `GetThermostats`: every record, in map-iteration order, or 404 when there is
      none (an empty home is an error, not an empty list). */
  function GetThermostats(home: Home, order: seq<int>): (r: Reply)
    requires Enumerates(order, home.thermostats)
    ensures r.status == StatusNotFound <==> home.thermostats == map[]
    ensures home.thermostats == map[] ==> r == Reply(StatusNotFound, [Error(NotFound)])
    ensures home.thermostats != map[] ==>
              && r.status == StatusOK && |r.written| == 1 && r.written[0].Records?
              && |r.written[0].ts| == |home.thermostats| == |order|
              && (forall i :: 0 <= i < |order| ==> r.written[0].ts[i] == home.thermostats[order[i]])
              && (forall t :: t in r.written[0].ts ==> t in home.thermostats.Values)
              && (forall k :: k in home.thermostats ==> home.thermostats[k] in r.written[0].ts)
  {
    EnumerationLength(order, home.thermostats);
    var therms := seq(|order|, i requires 0 <= i < |order| => home.thermostats[order[i]]);
    assert forall k :: k in home.thermostats ==> home.thermostats[k] in therms by {
      forall k | k in home.thermostats
        ensures home.thermostats[k] in therms
      {
        var i :| 0 <= i < |order| && order[i] == k;
        assert therms[i] == home.thermostats[k];
      }
    }
    if |therms| == 0 then Reply(StatusNotFound, [Error(NotFound)])
    else Reply(StatusOK, [Records(therms)])
  }

  /** `GetThermostat`: the resolved record. */
  function GetThermostat(target: Thermostat): Reply
  {
    Reply(StatusOK, [Record(target)])
  }

  /** `GetField`: 400 for a name outside the six readable fields, 404 when the field
      holds the empty string or zero, otherwise exactly that field's value. */
  function GetField(t: Thermostat, field: string): (r: Reply)
    ensures field !in {"name", "currentTemp", "mode", "coolSetPoint", "heatSetPoint", "fan"} ==>
              r == Reply(StatusBadRequest, [Error(InvalidProperty)])
    ensures field == "name" ==>
              r == if t.name == "" then Reply(StatusNotFound, [Error(NotFound)]) else Reply(StatusOK, [Text(t.name)])
    ensures field == "currentTemp" ==>
              r == if t.currentTemp == 0 then Reply(StatusNotFound, [Error(NotFound)])
                   else Reply(StatusOK, [Number(t.currentTemp)])
    ensures field == "mode" ==>
              r == if t.mode == "" then Reply(StatusNotFound, [Error(NotFound)]) else Reply(StatusOK, [Text(t.mode)])
    ensures field == "coolSetPoint" ==>
              r == if t.coolSetPoint == 0 then Reply(StatusNotFound, [Error(NotFound)])
                   else Reply(StatusOK, [Number(t.coolSetPoint)])
    ensures field == "heatSetPoint" ==>
              r == if t.heatSetPoint == 0 then Reply(StatusNotFound, [Error(NotFound)])
                   else Reply(StatusOK, [Number(t.heatSetPoint)])
    ensures field == "fan" ==>
              r == if t.fan == "" then Reply(StatusNotFound, [Error(NotFound)]) else Reply(StatusOK, [Text(t.fan)])
  {
    if !InArray(field, ValidFields) then Reply(StatusBadRequest, [Error(InvalidProperty)])
    else
      var value: Option<Body> :=
        match field
        case "name" => if t.name == "" then None else Some(Text(t.name))
        case "currentTemp" => if t.currentTemp == 0 then None else Some(Number(t.currentTemp))
        case "mode" => if t.mode == "" then None else Some(Text(t.mode))
        case "coolSetPoint" => if t.coolSetPoint == 0 then None else Some(Number(t.coolSetPoint))
        case "heatSetPoint" => if t.heatSetPoint == 0 then None else Some(Number(t.heatSetPoint))
        case _ => if t.fan == "" then None else Some(Text(t.fan));
      if value.None? then Reply(StatusNotFound, [Error(NotFound)]) else Reply(StatusOK, [value.value])
  }

  /** `PutThermostat`: decode, validate, and only then update the resolved record;
      any failure is a 400 that leaves the home as it was. */
  function PutThermostat(home: Home, target: Thermostat, body: Option<UpdateRequest>, now: int): (r: (Home, Reply))
    ensures body == None ==> r == (home, Reply(StatusBadRequest, [Error(InvalidJsonBody)]))
    ensures body.Some? && !Acceptable(body.value) ==>
              && r.0 == home
              && r.1.status == StatusBadRequest
              && r.1.written == [Error(ValidateData(body.value).value)]
    ensures body.Some? && Acceptable(body.value) ==>
              && r.1 == Reply(StatusOK, [])
              && r.0.thermostats.Keys == home.thermostats.Keys + {target.id}
              && r.0.thermostats[target.id] == Merge(target, body.value, now)
              && (forall k :: k in home.thermostats && k != target.id ==>
                    r.0.thermostats[k] == home.thermostats[k])
  {
    match body
    case None => (home, Reply(StatusBadRequest, [Error(InvalidJsonBody)]))
    case Some(desired) =>
      match ValidateData(desired)
      case Some(err) => (home, Reply(StatusBadRequest, [Error(err)]))
      case None => (UpdateThermostat(home, target, desired, now), Reply(StatusOK, []))
  }

  /** `PostThermostat`: decode, validate, add, then answer with the record fetched
      by the new id. A home must not be empty when an addition happens. */
  function PostThermostat(home: Home, body: Option<UpdateRequest>, now: int): (r: (Home, Reply))
    requires body.Some? && Acceptable(body.value) ==> home.thermostats != map[]
    ensures body == None ==> r == (home, Reply(StatusBadRequest, [Error(InvalidJsonBody)]))
    ensures body.Some? && !Acceptable(body.value) ==>
              && r.0 == home
              && r.1.status == StatusBadRequest
              && r.1.written == [Error(ValidateData(body.value).value)]
    ensures body.Some? && Acceptable(body.value) ==>
              var newId := NextId(home);
              && r.0.thermostats.Keys == home.thermostats.Keys + {newId}
              && newId !in home.thermostats
              && r.0.thermostats[newId] == NewRecord(newId, body.value, now)
              && (forall k :: k in home.thermostats ==> r.0.thermostats[k] == home.thermostats[k])
              && r.1 == Reply(StatusOK, [Record(r.0.thermostats[newId])])
  {
    match body
    case None => (home, Reply(StatusBadRequest, [Error(InvalidJsonBody)]))
    case Some(desired) =>
      match ValidateData(desired)
      case Some(err) => (home, Reply(StatusBadRequest, [Error(err)]))
      case None =>
        var (h, newId) := AddThermostat(home, desired, now);
        match Lookup(h, newId)
        case Success(t) => (h, Reply(StatusOK, [Record(t)]))
        case Failure(e) => (h, Reply(StatusBadRequest, [Error(e)]))
  }

  /** The routes `main` registers under /v1. */
  datatype Route =
    | List                                                 // GET /thermostats
    | GetOne(id: ParsedId)                                 // GET /thermostats/:id
    | GetFieldOf(id: ParsedId, field: string)              // GET /thermostats/:id/:field
    | Put(id: ParsedId, body: Option<UpdateRequest>)       // PUT /thermostats/:id
    | Post(body: Option<UpdateRequest>)                    // POST /thermostats

  /** GET /v1/thermostats/:id on a stored id answers 200 with that record, after the
      400 error the middleware wrote if the id was malformed. */
  lemma GetOneAnswersStored(home: Home, id: ParsedId, order: seq<int>, now: int)
    requires id.value in home.thermostats
    ensures Serve(home, GetOne(id), order, now)
              == (home, Reply(StatusOK, (if id.ok then [] else [Error(InvalidIdentifier)])
                                        + [Record(home.thermostats[id.value])]))
  {
  }

  /** Whether serving `route` would add a record. */
  predicate Adds(route: Route)
  {
    route.Post? && route.body.Some? && Acceptable(route.body.value)
  }

  /** Prepend what the middleware already wrote to the handler's reply. */
  function After(prefix: seq<Body>, reply: Reply): Reply
  {
    Reply(reply.status, prefix + reply.written)
  }

  /** One request: the middleware resolves the id when the route has one, then the
      handler runs. Reads never change the home, and neither does any request that
      ends in an error status. */
  function Serve(home: Home, route: Route, order: seq<int>, now: int): (r: (Home, Reply))
    requires route.List? ==> Enumerates(order, home.thermostats)
    requires Adds(route) ==> home.thermostats != map[]
    ensures !route.Put? && !route.Post? ==> r.0 == home
    ensures r.1.status != StatusOK ==> r.0 == home
    ensures route.Put? && r.1.status == StatusOK ==> route.id.value in home.thermostats
  {
    match route
    case List => (home, GetThermostats(home, order))
    case Post(body) => PostThermostat(home, body, now)
    case GetOne(id) =>
      (match Resolve(home, id)
       case Halt(reply) => (home, reply)
       case Proceed(t, prefix) => (home, After(prefix, GetThermostat(t))))
    case GetFieldOf(id, field) =>
      (match Resolve(home, id)
       case Halt(reply) => (home, reply)
       case Proceed(t, prefix) => (home, After(prefix, GetField(t, field))))
    case Put(id, body) =>
      (match Resolve(home, id)
       case Halt(reply) => (home, reply)
       case Proceed(t, prefix) =>
         var (h, reply) := PutThermostat(home, t, body, now);
         (h, After(prefix, reply)))
  }
}
