# Thermostat store: a Dafny model

This project models the core of a small REST server that keeps an in-memory home
of thermostats (`server/server.go`, `server/validate.go`). It covers three parts:

- **Validation** of a partial update request. The checks run in the order
  temperature, mode, fan, cool set point, heat set point, and the first failure
  is the one reported.
- **The store**, a `map<int, Thermostat>`. It supports lookup by id and a partial
  update that builds a fresh record from the target and the request. It also
  supports creation with id = max key + 1 and defaults for the fields not given.
- **The handlers' decisions**: routing middleware that resolves the `:id`, then
  list, get-one, get-field, PUT and POST. A reply is a status code plus the JSON
  values written. The list handler takes the home and returns a reply. Get-one and
  get-field take the record the middleware resolved and return a reply. PUT, POST
  and the dispatcher `Serve` return the new home together with the reply.

Modules follow the source: `Types` (records, constants, seed state from `init`),
`Validate`, `Store`, `Handlers`, and `Decimal` (`strconv.Itoa` for the default
name). `Invariant` holds the whole-home invariant and its preservation proofs.
`Scenarios` works through the server's test requests on the seeded home.
`Wrappers` provides `Option`/`Result`. The validators appear twice in the source,
at server/validate.go:9-100 and server/server.go:257-364. The two copies are
identical and are modelled once.

The whole-home invariant (`Invariant.Valid`) requires the following:

- the home is non-empty;
- every record sits under its own positive id;
- every record's mode is cool, heat or off;
- every record's fan is auto or on;
- both set points of every record lie in [30, 100].

The seed satisfies it. Every request preserves it, because PUT and POST validate
before they write.

The model follows the code as written, including these behaviours:

- **Temperature on update.** When the midpoint of the new set points equals the
  target's old current temperature, the fresh record leaves both `currentTemp`
  and `previousTemp` at 0 (server/server.go:177-182). So an update that asks for
  nothing does not leave the temperatures alone. Repeating an update that moved
  the temperature hides it: GET of `currentTemp` then answers 404
  (`Scenarios.RepeatedPutHidesCurrentTemp`).
- **Seed record 1.** It starts at 71, but its set points imply (68 + 72) / 2 = 70.
  A PUT of `{"mode":"cool"}` therefore also moves the temperature to 70, with
  previous temperature 71.
- **Creation.** The fallback current temperature of 71 is unreachable. Both set
  points are non-zero once defaults apply, so the current temperature is always
  their midpoint.
- **Malformed id.** The middleware's malformed-id branch does not return
  (server/server.go:377-385). The lookup then runs on the value `strconv.Atoi`
  returned. In a valid home, a syntax error (value 0) therefore ends with status
  404 and two error bodies, not 400.
- **Lookup after POST.** When the lookup of the new id fails, POST would answer
  status 400 carrying a 404-coded error. The model shows that branch is never
  taken.
- **Division.** Go's `/` truncates toward zero; `Store.TruncDiv2` models it, so
  the store functions need no sign assumption.

## Model

| member | source | states |
|---|---|---|
| Validate.InArray | server/validate.go:9-16 | true exactly when the string occurs in the list |
| Validate.ValidateOpMode | server/validate.go:19-29 | no error exactly when the mode is empty or one of cool, heat, off; otherwise "Invalid Operating Mode" with code 400 |
| Validate.ValidateFanMode | server/validate.go:32-42 | no error exactly when the fan is empty or one of auto, on; otherwise "Invalid Fan Mode" with code 400 |
| Validate.ValidateCoolSetPt | server/validate.go:45-54 | no error exactly when the value is 0 or within [30, 100] inclusive; otherwise "Invalid Cool Set Point" with code 400 |
| Validate.ValidateHeatSetPt | server/validate.go:57-66 | no error exactly when the value is 0 or within [30, 100] inclusive; otherwise "Invalid Heat Set Point" with code 400 |
| Validate.ValidateData | server/validate.go:70-100 | no error exactly when the request is acceptable field by field; every error has code 400; a non-zero temperature always gives "Non-Writable Field"; otherwise the first failing check in the order mode, fan, cool, heat is reported |
| Validate.RejectedExamples | server/server_test.go:226-231 | mode "on", fan "off" and set points 29 and 101 are refused; 30 and 100 are accepted |
| Decimal.IntToDecimal | server/server.go:211 | a non-negative number renders as its decimal digits, whose value is the number; a negative one as a minus sign before the digits of its magnitude |
| Decimal.DecimalRoundTrip | server/server.go:211 | reading the rendered digits back gives the number |
| Decimal.IntToDecimalInjective | server/server.go:211 | distinct ids get distinct default names |
| Types.Seed | server/server.go:87-109 | the home starts with ids 1 and 2, each record carrying its own id |
| Store.Lookup | server/server.go:118-132 | the stored record when the id is a key; otherwise an error with code 404 and message "Not Found" |
| Store.TruncDiv2 | server/server.go:178 | division by two rounds toward zero, as Go's integer division does |
| Store.Merge | server/server.go:138-185 | the id is kept; each writable field takes the request's value when non-empty or non-zero and the target's otherwise; a changed midpoint becomes the current temperature with the old one as previous, an unchanged midpoint leaves both at 0; the stamp is the clock reading |
| Store.UpdateThermostat | server/server.go:135-189 | only the entry at the target's id is written, with the merged record; every other key and its record are unchanged |
| Store.EmptyUpdateKeepsSettings | server/server.go:142-175 | an update that asks for nothing keeps the id, name, mode, set points and fan |
| Store.UpdateSettingsIdempotent | server/server.go:142-175 | applying the same update twice leaves the writable fields as the first application set them |
| Store.RepeatedUpdateZeroesTemperature | server/server.go:177-182 | repeating an update that moved the temperature leaves current and previous temperature at 0 |
| Store.MaxOf | server/server.go:200-201 | the largest element of a set that has one, which is the last key after sorting |
| Store.SortedKeys | server/server.go:196-200 | the collected keys after sorting: strictly ascending, exactly the map's keys, each once |
| Store.NextId | server/server.go:196-201 | the allocated id exceeds every key and is one more than an existing key |
| Store.NewRecord | server/server.go:203-249 | given fields are used; otherwise name "Thermostat #" followed by the id, mode off, set points 71, fan auto; current temperature is the set-point midpoint; previous temperature 0 |
| Store.AddThermostat | server/server.go:192-254 | on a non-empty home the new id is the largest key plus one, so it was not in use; the old entries are untouched and the new id maps to the defaulted record |
| Handlers.Resolve | server/server.go:368-400 | a known id proceeds with its record; an unknown id stops with 404 "Not Found"; a malformed id writes the 400 error and still looks up the value Atoi returned |
| Handlers.EnumerationLength | server/server.go:410-413 | a map iteration that visits every key once yields as many records as the map holds |
| Handlers.GetThermostats | server/server.go:409-428 | 404 exactly when the home is empty; otherwise 200 with one list entry per key, the record stored under that key, in map-iteration order |
| Handlers.GetOneAnswersStored | server/server.go:431-434 | GET of a stored id answers 200 with that record, after the middleware's 400 error when the id was malformed, and leaves the home unchanged |
| Handlers.GetField | server/server.go:437-508 | a name outside the six readable fields gives 400 "Invalid Property"; a readable field holding "" or 0 gives 404; otherwise 200 with exactly that field's value |
| Handlers.PutThermostat | server/server.go:511-541 | an undecodable body or a failed validation gives 400 and leaves the home unchanged; an accepted request replaces only the target's entry with the merged record and answers 200 with an empty body |
| Handlers.PostThermostat | server/server.go:544-581 | an undecodable body or a failed validation gives 400 and leaves the home unchanged; an accepted request adds the defaulted record under the next id and answers 200 with the record fetched by that id |
| Handlers.Serve | server/server.go:583-595 | reads never change the home, and a request that does not end in 200 leaves it unchanged |
| Invariant.SeedValid | server/server.go:87-109 | the seed home satisfies the whole-home invariant |
| Invariant.MergeValid | server/server.go:138-175 | merging an accepted request into a valid record gives a valid record |
| Invariant.NewRecordValid | server/server.go:207-240 | a record built from an accepted request and the defaults is valid |
| Invariant.PutPreservesValid | server/server.go:526-538 | a PUT on a stored record keeps the whole-home invariant |
| Invariant.PostPreservesValid | server/server.go:559-568 | a POST keeps the whole-home invariant |
| Invariant.ServePreservesValid | server/server.go:589-594 | every request on every route keeps the whole-home invariant |
| Invariant.MalformedIdReportedTwice | server/server.go:375-393 | in a valid home, a malformed id whose Atoi value is not positive ends with status 404 and both error bodies |
| Invariant.ResolveFindsOwnId | server/server.go:387-395 | in a valid home, the resolved record carries the requested id and is valid |
| Scenarios.SeedListsBoth | server/server_test.go:46-52 | listing the seeded home returns both records |
| Scenarios.SeedPutModeCool | server/server_test.go:160-170 | PUT {"mode":"cool"} on record 1 changes the mode, keeps the other settings, and moves the temperature to 70 with previous 71 |
| Scenarios.SeedBulkPut | server/server_test.go:118-158 | the bulk PUT replaces every writable field of record 1 and sets the temperature to 72 |
| Scenarios.RepeatedPutHidesCurrentTemp | server/server.go:177-182 | after the same PUT twice, current temperature is 0 and reading it answers 404 |
| Scenarios.SeedPostCreatesThird | server/server_test.go:269-320 | the test's POST creates record 3 with the given fields and current temperature 70 |
| Scenarios.UnknownIdNotFound | server/server.go:387-393 | GET of id 999 answers 404 "Not Found" |
| Scenarios.PutModeOnRefused | server/server_test.go:226-231 | PUT {"mode":"on"} answers 400 "Invalid Operating Mode" and changes nothing |

## Left out

- HTTP plumbing is not modelled: fasthttp and its router, `main`'s listener, `Index`, `sendJSON`, content-type headers and JSON encoding. A reply is a status code plus the sequence of JSON values written. JSON decoding is a parameter: `None` stands for a body that failed to decode.
- `strconv.Atoi` is not modelled. The middleware receives its result as `ParsedId`: the value returned and whether an error was reported.
- The mutex and concurrency are not modelled. This includes the unlocked map iteration in `GetThermostats` and the stale-read race between resolution and update. The store is modelled sequentially.
- `time.Now()` becomes a `now` parameter, stamped into `lastChanged`. `Types.Seed` stamps both seed records with one reading, where `init` reads the clock once per record.
- Error descriptions are dropped, because they are prose built with `strconv.Itoa`. Errors compare by code and message only.
- Go map iteration order is unspecified. `GetThermostats` takes the visiting order as a parameter that must list each key once.
- The sort is not modelled step by step. `Store.SortedKeys` specifies the sorted key sequence and is built by repeated maximum selection, not by `sort.Ints`' algorithm.
- Store.Merge, Store.NewRecord: do not model 64-bit wrap-around of `cool + heat`. Integers are unbounded here, and validated set points are at most 100.
- Store.NextId: does not model 64-bit wrap-around of the last key + 1. Ids grow by one per creation from 2, so the maximum int is out of reach.
- Store.AddThermostat: requires a non-empty home. The code indexes the last sorted key and would panic on an empty map. No delete exists, so a valid home is never empty.
- Handlers.Serve: the POST route requires a non-empty home when the request would add a record, for the same reason.
