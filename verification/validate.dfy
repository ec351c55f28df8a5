/** The checks of server/validate.go (repeated verbatim in server/server.go):
    each returns no error or the first error it finds, always with code 400. */
module Validate {
  import opened Wrappers
  import opened Types

  const NonWritableField := ErrResponse(StatusBadRequest, "Non-Writable Field")
  const InvalidOpMode := ErrResponse(StatusBadRequest, "Invalid Operating Mode")
  const InvalidFanMode := ErrResponse(StatusBadRequest, "Invalid Fan Mode")
  const InvalidCoolSetPt := ErrResponse(StatusBadRequest, "Invalid Cool Set Point")
  const InvalidHeatSetPt := ErrResponse(StatusBadRequest, "Invalid Heat Set Point")

  /** `inArray`: a linear scan that stops at the first equal element. */
  function InArray(s: string, xs: seq<string>): (r: bool)
    ensures r <==> s in xs
    decreases |xs|
  {
    if |xs| == 0 then false
    else if xs[0] == s then true
    else InArray(s, xs[1..])
  }

  /** The values each field may carry: absent, or one of the allowed choices. */
  predicate ModeOk(m: string) { m == "" || m in {"cool", "heat", "off"} }
  predicate FanOk(f: string) { f == "" || f in {"auto", "on"} }
  predicate SetPtOk(v: int) { v == 0 || 30 <= v <= 100 }

  /** A mode is acceptable when absent or one of cool, heat, off. */
  function ValidateOpMode(val: string): (r: Option<ErrResponse>)
    ensures r == None <==> ModeOk(val)
    ensures r != None ==> r == Some(InvalidOpMode)
  {
    if val != "" && !InArray(val, ValidOpModes) then Some(InvalidOpMode) else None
  }

  /** A fan mode is acceptable when absent or one of auto, on. */
  function ValidateFanMode(val: string): (r: Option<ErrResponse>)
    ensures r == None <==> FanOk(val)
    ensures r != None ==> r == Some(InvalidFanMode)
  {
    if val != "" && !InArray(val, ValidFanModes) then Some(InvalidFanMode) else None
  }

  /** A cool set point is acceptable when absent or within [30, 100], both ends included. */
  function ValidateCoolSetPt(val: int): (r: Option<ErrResponse>)
    ensures r == None <==> SetPtOk(val)
    ensures r != None ==> r == Some(InvalidCoolSetPt)
  {
    if val != 0 && (val > MaxCoolSetPt || val < MinCoolSetPt) then Some(InvalidCoolSetPt) else None
  }

  /** A heat set point is acceptable when absent or within [30, 100], both ends included. */
  function ValidateHeatSetPt(val: int): (r: Option<ErrResponse>)
    ensures r == None <==> SetPtOk(val)
    ensures r != None ==> r == Some(InvalidHeatSetPt)
  {
    if val != 0 && (val > MaxHeatSetPt || val < MinHeatSetPt) then Some(InvalidHeatSetPt) else None
  }

  /** Every field of the request, taken on its own, is acceptable. */
  predicate Acceptable(u: UpdateRequest)
  {
    u.temperature == 0 && ModeOk(u.mode) && FanOk(u.fan) && SetPtOk(u.coolSetPoint) && SetPtOk(u.heatSetPoint)
  }

  /** `validateData`: the temperature, mode, fan, cool and heat checks in that
      order; the first one that fails decides the error. */
  function ValidateData(u: UpdateRequest): (r: Option<ErrResponse>)
    ensures r == None <==> Acceptable(u)
    ensures r != None ==> r.value.code == StatusBadRequest
    ensures u.temperature != 0 ==> r == Some(NonWritableField)
    ensures u.temperature == 0 && !ModeOk(u.mode) ==> r == Some(InvalidOpMode)
    ensures u.temperature == 0 && ModeOk(u.mode) && !FanOk(u.fan) ==> r == Some(InvalidFanMode)
    ensures (u.temperature == 0 && ModeOk(u.mode) && FanOk(u.fan) && !SetPtOk(u.coolSetPoint))
              ==> r == Some(InvalidCoolSetPt)
    ensures (u.temperature == 0 && ModeOk(u.mode) && FanOk(u.fan) && SetPtOk(u.coolSetPoint)
             && !SetPtOk(u.heatSetPoint))
              ==> r == Some(InvalidHeatSetPt)
  {
    if u.temperature != 0 then Some(NonWritableField)
    else if ValidateOpMode(u.mode).Some? then ValidateOpMode(u.mode)
    else if ValidateFanMode(u.fan).Some? then ValidateFanMode(u.fan)
    else if ValidateCoolSetPt(u.coolSetPoint).Some? then ValidateCoolSetPt(u.coolSetPoint)
    else ValidateHeatSetPt(u.heatSetPoint)
  }

  /** The cases the server's tests send: mode "on" and fan "off" are refused,
      and the set-point bounds are inclusive. */
  lemma RejectedExamples()
    ensures ValidateOpMode("on") == Some(InvalidOpMode)
    ensures ValidateFanMode("off") == Some(InvalidFanMode)
    ensures ValidateCoolSetPt(29) == Some(InvalidCoolSetPt) && ValidateCoolSetPt(101) == Some(InvalidCoolSetPt)
    ensures ValidateHeatSetPt(29) == Some(InvalidHeatSetPt) && ValidateHeatSetPt(101) == Some(InvalidHeatSetPt)
    ensures ValidateCoolSetPt(30) == None && ValidateCoolSetPt(100) == None
    ensures ValidateHeatSetPt(30) == None && ValidateHeatSetPt(100) == None
  {
  }
}
