/**
 * What each call of the BME680 driver does to the settings cache and to the chip. The I2C bus
 * and its mutex fail when the environment says so: bus is the number of operations that still
 * succeed, and the first failing one ends the call.
 */
module Bme680Model {
  import opened Bits
  import opened Bme680Registers
  import opened Bme680Timing

  const PROFILES := 10
  const HEATER_NOT_USED := -1
  const FORCED_MODE: bv8 := 1

  type Rate = v: bv8 | v <= 5
  type FilterSize = v: bv8 | v <= 7

  /** The heater resistance code for a temperature and an ambient one; the calibration is fixed. */
  type Calibration = (nat, int) -> bv8

  datatype Settings = Settings(osrT: Rate, osrP: Rate, osrH: Rate, filter: FilterSize, profile: int,
                               temperature: seq<uint16>, duration: seq<uint16>, ambient: int)

  datatype Device = Device(settings: Settings, started: bool, status: bv8, regs: Regs, bus: nat)

  datatype Error = Ok | InvalidArg | InvalidState | InvalidResponse | NotFound | BusError

  datatype Outcome = Outcome(dev: Device, err: Error)

  predicate Valid(s: Settings)
  {
    |s.temperature| == PROFILES == |s.duration| && HEATER_NOT_USED <= s.profile < PROFILES
  }

  function Clamp(temperature: nat): nat
  {
    if temperature < 200 then 200 else if temperature > 400 then 400 else temperature
  }

  function Resistance(cal: Calibration, temperature: nat, ambient: int): bv8
  {
    cal(Clamp(temperature), ambient)
  }

  function ToInt8(x: int): int
  {
    (x + 128) % 256 - 128
  }

  function DurationCode(d: uint16): bv8
  {
    Encode(d) as bv8
  }

  /** The gas measurement runs for a profile with a temperature and a duration. */
  predicate Enabled(s: Settings, profile: int)
    requires Valid(s) && HEATER_NOT_USED <= profile < PROFILES
  {
    profile != HEATER_NOT_USED && s.temperature[profile] != 0 && s.duration[profile] != 0
  }

  /** Ends a call of the given number of bus operations. */
  function Finish(d: Device, operations: nat): Outcome
  {
    if d.bus >= operations then Outcome(d.(bus := d.bus - operations), Ok)
    else Outcome(d.(bus := 0), BusError)
  }

  // ------------------------------------------------------------------- the setters

  /** The measurement control register with the changed rates replaced. */
  function EditRates(r: bv8, tChanged: bool, t: Rate, pChanged: bool, p: Rate): bv8
  {
    var r1 := if tChanged then WithOsrT(r, t) else r;
    if pChanged then WithOsrP(r1, p) else r1
  }

  function SetOversampling(d: Device, t: Rate, p: Rate, h: Rate): (o: Outcome)
    requires Valid(d.settings)
    ensures Valid(o.dev.settings)
  {
    var s := d.settings;
    var tp, hum := s.osrT != t || s.osrP != p, s.osrH != h;
    if !tp && !hum then Outcome(d, Ok)
    else
      var r := EditRates(d.regs[CTRL_MEAS], s.osrT != t, t, s.osrP != p, p);
      var n := if tp then 3 else 1;
      var regs1 := if tp && d.bus >= n then d.regs[CTRL_MEAS := r] else d.regs;
      var m := if hum then n + 2 else n;
      var regs2 := if hum && d.bus >= m then regs1[CTRL_HUM := WithOsrH(d.regs[CTRL_HUM], h)] else regs1;
      Finish(d.(settings := s.(osrT := t, osrP := p, osrH := h), regs := regs2), m + 1)
  }

  function SetFilterSize(d: Device, size: FilterSize): (o: Outcome)
    requires Valid(d.settings)
    ensures Valid(o.dev.settings)
  {
    if d.settings.filter == size then Outcome(d, Ok)
    else
      Finish(d.(settings := d.settings.(filter := size),
                regs := if d.bus >= 3 then d.regs[CONFIG := WithFilter(d.regs[CONFIG], size)] else d.regs),
             4)
  }

  function SetHeaterProfile(cal: Calibration, d: Device, i: uint8, temperature: uint16,
                            duration: uint16): (o: Outcome)
    requires Valid(d.settings)
    ensures Valid(o.dev.settings)
  {
    var s := d.settings;
    if i >= PROFILES then Outcome(d, InvalidArg)
    else
      var tc, dc := s.temperature[i] != temperature, s.duration[i] != duration;
      if !tc && !dc then Outcome(d, Ok)
      else
        var n := if tc then 2 else 1;
        var regs1 := if tc && d.bus >= n
                     then d.regs[RES_HEAT_BASE + i := Resistance(cal, temperature, s.ambient)] else d.regs;
        var m := if dc then n + 1 else n;
        var regs2 := if dc && d.bus >= m
                     then regs1[GAS_WAIT_BASE + i := DurationCode(duration)] else regs1;
        Finish(d.(settings := s.(temperature := s.temperature[i := temperature],
                                 duration := s.duration[i := duration]),
                  regs := regs2), m + 1)
  }

  function GasControl(s: Settings, profile: int): bv8
    requires Valid(s) && HEATER_NOT_USED <= profile < PROFILES
  {
    WithRunGas(WithNbConv(0, ActiveIndex(profile)), Enabled(s, profile))
  }

  function ActiveIndex(profile: int): (v: bv8)
    requires HEATER_NOT_USED <= profile < PROFILES
    ensures v < 16
  {
    if profile == HEATER_NOT_USED then 0 else profile as bv8
  }

  function UseHeaterProfile(d: Device, profile: int): (o: Outcome)
    requires Valid(d.settings)
    ensures Valid(o.dev.settings)
  {
    if !(HEATER_NOT_USED <= profile < PROFILES) then Outcome(d, InvalidArg)
    else if d.settings.profile == profile then Outcome(d, Ok)
    else
      Finish(d.(settings := d.settings.(profile := profile),
                regs := if d.bus >= 2 then d.regs[CTRL_GAS_1 := GasControl(d.settings, profile)] else d.regs),
             3)
  }

  /** The resistance codes of all profiles; a profile without a temperature gets zero. */
  function ResistanceCodes(cal: Calibration, s: Settings, ambient: int): (data: seq<bv8>)
    requires Valid(s)
    ensures |data| == PROFILES
  {
    seq(PROFILES, i requires 0 <= i < PROFILES =>
      if s.temperature[i] != 0 then Resistance(cal, s.temperature[i], ambient) else 0)
  }

  function WriteBlock(regs: Regs, at: nat, data: seq<bv8>): Regs
    requires at + |data| <= 256
  {
    regs[..at] + data + regs[at + |data|..]
  }

  /** The cache keeps eight bits of the ambient temperature. */
  function SetAmbient(cal: Calibration, d: Device, ambient: int16): (o: Outcome)
    requires Valid(d.settings)
    ensures Valid(o.dev.settings)
  {
    if d.settings.ambient == ambient then Outcome(d, Ok)
    else
      var a := ToInt8(ambient);
      Finish(d.(settings := d.settings.(ambient := a),
                regs := if d.bus >= 2
                        then WriteBlock(d.regs, RES_HEAT_BASE, ResistanceCodes(cal, d.settings, a))
                        else d.regs),
             3)
  }

  // --------------------------------------------------------- the measurement protocol

  function SetMode(d: Device, mode: bv8): (o: Outcome)
    requires Valid(d.settings)
    ensures Valid(o.dev.settings)
  {
    Finish(d.(regs := if d.bus >= 3 then d.regs[CTRL_MEAS := WithMode(d.regs[CTRL_MEAS], mode)] else d.regs),
           4)
  }

  function ForceMeasurement(d: Device): (o: Outcome)
    requires Valid(d.settings)
    ensures Valid(o.dev.settings)
  {
    if d.started then Outcome(d, InvalidState)
    else
      var o := SetMode(d, FORCED_MODE);
      if o.err != Ok then o else Outcome(o.dev.(started := true, status := 0), Ok)
  }

  /** The status is stored as soon as it is read, even if giving the mutex back then fails. */
  function ReadStatus(d: Device): (o: Outcome)
    requires Valid(d.settings)
    ensures Valid(o.dev.settings)
  {
    Finish(d.(status := if d.bus >= 2 then d.regs[MEAS_STATUS_0] else d.status), 3)
  }

  function IsMeasuring(d: Device): (o: Outcome)
    requires Valid(d.settings)
    ensures Valid(o.dev.settings)
  {
    if !d.started then Outcome(d, Ok) else ReadStatus(d)
  }

  predicate NewData(status: bv8) { status & NEW_DATA != 0 }

  predicate Measuring(status: bv8) { status & MEASURING != 0 }

  function GetRawData(d: Device): (o: Outcome)
    requires Valid(d.settings)
    ensures Valid(o.dev.settings)
  {
    if !d.started then Outcome(d, InvalidState)
    else
      var o := if NewData(d.status) then Outcome(d, Ok) else ReadStatus(d);
      if o.err != Ok then o
      else if !NewData(o.dev.status) then
        Outcome(o.dev, if Measuring(o.dev.status) then InvalidState else InvalidResponse)
      else Finish(o.dev.(started := false), 3)
  }

  // --------------------------------------------------------------- initialisation

  const NO_SETTINGS := Settings(0, 0, 0, 0, HEATER_NOT_USED, [0, 0, 0, 0, 0, 0, 0, 0, 0, 0],
                                [0, 0, 0, 0, 0, 0, 0, 0, 0, 0], 0)

  /** A reset clears the configuration registers. */
  function AfterReset(regs: Regs): Regs
  {
    WriteBlock(regs, RES_HEAT_BASE, seq(CONFIG + 1 - RES_HEAT_BASE, _ => 0))
  }

  /** Reset, identification, calibration (three reads), and the ambient temperature. */
  function ResetSensor(d: Device): (o: Outcome)
    ensures o.err == Ok ==> o.dev.settings == NO_SETTINGS.(ambient := 25)
  {
    var d0 := if d.bus >= 1 then d.(settings := NO_SETTINGS, started := false, status := 0) else d;
    var d1 := if d.bus >= 2 then d0.(regs := AfterReset(d0.regs)) else d0;
    if d.bus < 3 then Outcome(d1.(bus := 0), BusError)
    else if d1.regs[ID] != CHIP_ID then Outcome(d1.(bus := if d.bus >= 4 then d.bus - 4 else 0),
                                                 if d.bus >= 4 then NotFound else BusError)
    else if d.bus < 6 then Outcome(d1.(bus := 0), BusError)
    else Finish(d1.(settings := d1.settings.(ambient := 25)), 7)
  }

  /** The initialisation ends with the default settings. */
  function InitSensor(cal: Calibration, d: Device): Outcome
  {
    var o := ResetSensor(d);
    if o.err != Ok then o else Defaults(cal, o.dev)
  }

  function Defaults(cal: Calibration, d: Device): (o: Outcome)
    requires Valid(d.settings)
    ensures Valid(o.dev.settings)
  {
    var o1 := SetOversampling(d, 1, 1, 1);
    if o1.err != Ok then o1
    else
      var o2 := SetFilterSize(o1.dev, 2);
      if o2.err != Ok then o2
      else
        var o3 := SetHeaterProfile(cal, o2.dev, 0, 320, 150);
        if o3.err != Ok then o3
        else UseHeaterProfile(o3.dev, 0)
  }

  // ------------------------------------------------------------- cache and chip

  /** The settings are what a chip with these registers works with. */
  predicate Matches(cal: Calibration, s: Settings, r: Regs)
    requires Valid(s)
  {
    && OsrT(r[CTRL_MEAS]) == s.osrT && OsrP(r[CTRL_MEAS]) == s.osrP && OsrH(r[CTRL_HUM]) == s.osrH
    && Filter(r[CONFIG]) == s.filter
    && NbConv(r[CTRL_GAS_1]) == ActiveIndex(s.profile)
    && (forall i :: 0 <= i < PROFILES ==> r[GAS_WAIT_BASE + i] == DurationCode(s.duration[i]))
    && (forall i :: 0 <= i < PROFILES && s.temperature[i] != 0 ==>
          r[RES_HEAT_BASE + i] == Resistance(cal, s.temperature[i], s.ambient))
  }

  predicate Agrees(cal: Calibration, d: Device)
    requires Valid(d.settings)
  {
    Matches(cal, d.settings, d.regs)
  }

  /** The chip measures gas exactly when the active profile is enabled. */
  predicate GasAgrees(d: Device)
    requires Valid(d.settings)
  {
    RunGas(d.regs[CTRL_GAS_1]) == Enabled(d.settings, d.settings.profile)
  }

  datatype Call =
    | SetOversamplingRates(t: Rate, p: Rate, h: Rate)
    | SetFilter(size: FilterSize)
    | SetProfile(i: uint8, temperature: uint16, duration: uint16)
    | UseProfile(profile: int)
    | SetAmbientTemperature(ambient: int16)
    | Force
    | PollBusy
    | Fetch

  function Invoke(cal: Calibration, d: Device, c: Call): (o: Outcome)
    requires Valid(d.settings)
    ensures Valid(o.dev.settings)
  {
    match c
    case SetOversamplingRates(t, p, h) => SetOversampling(d, t, p, h)
    case SetFilter(size) => SetFilterSize(d, size)
    case SetProfile(i, temperature, duration) => SetHeaterProfile(cal, d, i, temperature, duration)
    case UseProfile(profile) => UseHeaterProfile(d, profile)
    case SetAmbientTemperature(ambient) => SetAmbient(cal, d, ambient)
    case Force => ForceMeasurement(d)
    case PollBusy => IsMeasuring(d)
    case Fetch => GetRawData(d)
  }

  /** What the chip may do by itself: everything but touch the configuration, the mode excepted. */
  predicate ChipMay(r: Regs, r': Regs)
  {
    && (forall k :: RES_HEAT_BASE <= k <= CONFIG && k != CTRL_MEAS ==> r'[k] == r[k])
    && OsrT(r'[CTRL_MEAS]) == OsrT(r[CTRL_MEAS]) && OsrP(r'[CTRL_MEAS]) == OsrP(r[CTRL_MEAS])
  }

  /** A call with the number of bus operations that will succeed, or a change of the chip's own. */
  datatype Event = Called(call: Call, bus: nat) | ChipChange(regs: Regs)

  function Step(cal: Calibration, d: Device, e: Event): (o: Outcome)
    requires Valid(d.settings)
    ensures Valid(o.dev.settings)
  {
    match e
    case Called(c, bus) => Invoke(cal, d.(bus := bus), c)
    case ChipChange(r) => Outcome(if ChipMay(d.regs, r) then d.(regs := r) else d, Ok)
  }
}
