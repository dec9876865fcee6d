/** The driver itself: one object with the settings cache, the protocol flags and the chip behind the bus. */
module Bme680Driver {
  import opened Wrappers
  import opened Bits
  import opened Bme680Registers
  import opened Bme680Timing
  import opened Bme680Model

  /** A measurement as the driver hands it out. */
  datatype RawData = RawData(temperature: nat, pressure: nat, humidity: nat, gasResistance: nat, gasRange: bv8,
                             gasValid: bool, heaterStable: bool, gasIndex: bv8)

  function Bits20(msb: bv8, lsb: bv8, xlsb: bv8): (x: nat)
    ensures x < 0x10_0000
  {
    msb as int * 4096 + lsb as int * 16 + xlsb as int / 16
  }

  const RAW_DATA := 0x1d
  const RAW_DATA_LEN := 15
  const RAW_P_OFF := 2
  const RAW_T_OFF := 5
  const RAW_H_OFF := 8
  const RAW_G_OFF := 13

  /** The 15 data bytes of a measurement, taken apart by their offsets in the block. */
  function TakenApart(status: bv8, raw: seq<bv8>): RawData
    requires |raw| == RAW_DATA_LEN
  {
    RawData(Bits20(raw[RAW_T_OFF], raw[RAW_T_OFF + 1], raw[RAW_T_OFF + 2]),
            Bits20(raw[RAW_P_OFF], raw[RAW_P_OFF + 1], raw[RAW_P_OFF + 2]),
            raw[RAW_H_OFF] as int * 256 + raw[RAW_H_OFF + 1] as int,
            raw[RAW_G_OFF] as int * 4 + raw[RAW_G_OFF + 1] as int / 64,
            raw[RAW_G_OFF + 1] & 0x0f, raw[RAW_G_OFF + 1] & 0x20 != 0, raw[RAW_G_OFF + 1] & 0x10 != 0,
            status & 0x0f)
  }

  /** The data are those of the chip's data registers, and the profile that of the status. */
  predicate IsReading(d: RawData, status: bv8, r: Regs)
  {
    && d.pressure == r[0x1f] as int * 4096 + r[0x20] as int * 16 + r[0x21] as int / 16
    && d.temperature == r[0x22] as int * 4096 + r[0x23] as int * 16 + r[0x24] as int / 16
    && d.humidity == r[0x25] as int * 256 + r[0x26] as int
    && d.gasResistance == r[0x2a] as int * 4 + r[0x2b] as int / 64
    && d.gasRange == r[0x2b] & 0x0f
    && d.gasValid == (r[0x2b] & 0x20 == 0x20) && d.heaterStable == (r[0x2b] & 0x10 == 0x10)
    && d.gasIndex == status & 0x0f
  }

  lemma BlockIsReading(status: bv8, r: Regs)
    ensures IsReading(TakenApart(status, r[RAW_DATA..RAW_DATA + RAW_DATA_LEN]), status, r)
  {
    SetIffEqual(r[0x2b]);
  }

  lemma SetIffEqual(b: bv8)
    ensures b & 0x20 != 0 <==> b & 0x20 == 0x20
    ensures b & 0x10 != 0 <==> b & 0x10 == 0x10
  {
  }

  class Bme680 {
    const cal: Calibration
    var settings: Settings
    var started: bool
    var status: bv8
    // the chip's registers
    var regs: Regs
    // how many operations of the bus and its mutex will still succeed
    var bus: nat

    constructor (cal: Calibration, regs: Regs, bus: nat)
      ensures this.cal == cal && this.regs == regs && this.bus == bus
      ensures settings == NO_SETTINGS && !started && status == 0
    {
      this.cal := cal;
      this.regs := regs;
      this.bus := bus;
      settings, started, status := NO_SETTINGS, false, 0;
    }

    ghost function State(): Device
      reads this
    {
      Device(settings, started, status, regs, bus)
    }

    /** One operation of the bus or its mutex. */
    method Operation() returns (ok: bool)
      modifies this`bus
      ensures ok == (old(bus) > 0)
      ensures bus == if ok then old(bus) - 1 else 0
    {
      ok := bus > 0;
      if ok {
        bus := bus - 1;
      }
    }

    method ReadReg(reg: nat) returns (ok: bool, value: bv8)
      requires reg < 256
      modifies this`bus
      ensures ok == (old(bus) > 0) && bus == (if ok then old(bus) - 1 else 0)
      ensures ok ==> value == regs[reg]
    {
      ok := Operation();
      value := if ok then regs[reg] else 0;
    }

    method WriteReg(reg: nat, value: bv8) returns (ok: bool)
      requires reg < 256
      modifies this`bus, this`regs
      ensures ok == (old(bus) > 0) && bus == (if ok then old(bus) - 1 else 0)
      ensures regs == if ok then old(regs)[reg := value] else old(regs)
    {
      ok := Operation();
      if ok {
        regs := regs[reg := value];
      }
    }

    method SetOversamplingRates(t: Rate, p: Rate, h: Rate) returns (err: Error)
      requires Valid(settings)
      modifies this
      ensures Outcome(State(), err) == SetOversampling(old(State()), t, p, h)
    {
      hide EditRates, WithOsrH;
      var tChanged, pChanged := settings.osrT != t, settings.osrP != p;
      var hChanged := settings.osrH != h;
      if !tChanged && !pChanged && !hChanged {
        return Ok;
      }
      settings := settings.(osrT := t, osrP := p, osrH := h);
      err := WriteRates(tChanged, t, pChanged, p, hChanged, h);
    }

    /** The writes of the changed fields, between taking and giving back the mutex. */
    method WriteRates(tChanged: bool, t: Rate, pChanged: bool, p: Rate, hChanged: bool, h: Rate) returns (err: Error)
      modifies this`bus, this`regs
      ensures var n := if tChanged || pChanged then 3 else 1;
              var m := if hChanged then n + 2 else n;
              var r := old(regs);
              var r1 := if n == 3 && old(bus) >= n
                        then r[CTRL_MEAS := EditRates(r[CTRL_MEAS], tChanged, t, pChanged, p)] else r;
              && regs == (if hChanged && old(bus) >= m then r1[CTRL_HUM := WithOsrH(r[CTRL_HUM], h)] else r1)
              && err == (if old(bus) > m then Ok else BusError)
              && bus == (if old(bus) > m then old(bus) - m - 1 else 0)
    {
      hide EditRates, WithOsrH;
      var ok := Operation();
      if !ok { return BusError; }
      if tChanged || pChanged {
        ok := EditMeasurementControl(tChanged, t, pChanged, p);
        if !ok { return BusError; }
      }
      if hChanged {
        ok := EditHumidityControl(h);
        if !ok { return BusError; }
      }
      ok := Operation();
      err := if ok then Ok else BusError;
    }

    /** Read-modify-write of the changed fields. */
    method EditMeasurementControl(tChanged: bool, t: Rate, pChanged: bool, p: Rate) returns (ok: bool)
      modifies this`bus, this`regs
      ensures ok == (old(bus) >= 2) && bus == (if ok then old(bus) - 2 else 0)
      ensures regs == if ok then old(regs)[CTRL_MEAS := EditRates(old(regs)[CTRL_MEAS], tChanged, t, pChanged, p)]
                      else old(regs)
    {
      var reg;
      ok, reg := ReadReg(CTRL_MEAS);
      if !ok { return; }
      if tChanged { reg := WithOsrT(reg, t); }
      if pChanged { reg := WithOsrP(reg, p); }
      ok := WriteReg(CTRL_MEAS, reg);
    }

    method EditHumidityControl(h: Rate) returns (ok: bool)
      modifies this`bus, this`regs
      ensures ok == (old(bus) >= 2) && bus == (if ok then old(bus) - 2 else 0)
      ensures regs == if ok then old(regs)[CTRL_HUM := WithOsrH(old(regs)[CTRL_HUM], h)] else old(regs)
    {
      var reg;
      ok, reg := ReadReg(CTRL_HUM);
      if !ok { return; }
      ok := WriteReg(CTRL_HUM, WithOsrH(reg, h));
    }

    method SetFilter(size: FilterSize) returns (err: Error)
      requires Valid(settings)
      modifies this
      ensures Outcome(State(), err) == SetFilterSize(old(State()), size)
    {
      if settings.filter == size {
        return Ok;
      }
      settings := settings.(filter := size);
      var ok := Operation();
      if !ok { return BusError; }
      var reg;
      ok, reg := ReadReg(CONFIG);
      if !ok { return BusError; }
      ok := WriteReg(CONFIG, WithFilter(reg, size));
      if !ok { return BusError; }
      ok := Operation();
      err := if ok then Ok else BusError;
    }

    method SetProfile(profile: uint8, temperature: uint16, duration: uint16) returns (err: Error)
      requires Valid(settings)
      modifies this
      ensures Outcome(State(), err) == SetHeaterProfile(cal, old(State()), profile, temperature, duration)
    {
      hide Resistance, Encode;
      if profile >= PROFILES {
        return InvalidArg;
      }
      var temperatureChanged := settings.temperature[profile] != temperature;
      var durationChanged := settings.duration[profile] != duration;
      if !temperatureChanged && !durationChanged {
        return Ok;
      }
      settings := settings.(temperature := settings.temperature[profile := temperature],
                            duration := settings.duration[profile := duration]);
      var heatDur := HeaterDuration(duration);
      var heatRes := Resistance(cal, temperature, settings.ambient);
      err := WriteProfile(profile, temperatureChanged, heatRes, durationChanged, heatDur as bv8);
    }

    /** The changed codes of a profile, between taking and giving back the mutex. */
    method WriteProfile(profile: uint8, tChanged: bool, heatRes: bv8, dChanged: bool, heatDur: bv8)
      returns (err: Error)
      requires profile < PROFILES
      modifies this`bus, this`regs
      ensures var n := if tChanged then 2 else 1;
              var m := if dChanged then n + 1 else n;
              var r := old(regs);
              var r1 := if tChanged && old(bus) >= n then r[RES_HEAT_BASE + profile := heatRes] else r;
              && regs == (if dChanged && old(bus) >= m then r1[GAS_WAIT_BASE + profile := heatDur] else r1)
              && err == (if old(bus) > m then Ok else BusError)
              && bus == (if old(bus) > m then old(bus) - m - 1 else 0)
    {
      var ok := Operation();
      if !ok { return BusError; }
      if tChanged {
        ok := WriteReg(RES_HEAT_BASE + profile, heatRes);
        if !ok { return BusError; }
      }
      if dChanged {
        ok := WriteReg(GAS_WAIT_BASE + profile, heatDur);
        if !ok { return BusError; }
      }
      ok := Operation();
      err := if ok then Ok else BusError;
    }

    method UseProfile(profile: int) returns (err: Error)
      requires Valid(settings)
      modifies this
      ensures Outcome(State(), err) == UseHeaterProfile(old(State()), profile)
    {
      if !(HEATER_NOT_USED <= profile < PROFILES) {
        return InvalidArg;
      }
      if settings.profile == profile {
        return Ok;
      }
      settings := settings.(profile := profile);
      var reg := WithNbConv(0, if profile != HEATER_NOT_USED then profile as bv8 else 0);
      reg := WithRunGas(reg, profile != HEATER_NOT_USED && settings.temperature[profile] != 0
                             && settings.duration[profile] != 0);
      var ok := Operation();
      if !ok { return BusError; }
      ok := WriteReg(CTRL_GAS_1, reg);
      if !ok { return BusError; }
      ok := Operation();
      err := if ok then Ok else BusError;
    }

    method SetAmbientTemperature(ambient: int16) returns (err: Error)
      requires Valid(settings)
      modifies this
      ensures Outcome(State(), err) == SetAmbient(cal, old(State()), ambient)
    {
      if settings.ambient == ambient {
        return Ok;
      }
      settings := settings.(ambient := ToInt8(ambient));
      var data: seq<bv8> := [];
      for i := 0 to PROFILES
        invariant |data| == i
        invariant forall k :: 0 <= k < i ==> data[k] == ResistanceCodes(cal, settings, settings.ambient)[k]
      {
        data := data + [if settings.temperature[i] != 0
                        then Resistance(cal, settings.temperature[i], settings.ambient) else 0];
      }
      assert data == ResistanceCodes(cal, old(settings), settings.ambient);
      var ok := Operation();
      if !ok { return BusError; }
      ok := Operation();
      if !ok { return BusError; }
      regs := WriteBlock(regs, RES_HEAT_BASE, data);
      ok := Operation();
      err := if ok then Ok else BusError;
    }

    method ForceMode() returns (err: Error)
      requires Valid(settings)
      modifies this
      ensures Outcome(State(), err) == SetMode(old(State()), FORCED_MODE)
    {
      var ok := Operation();
      if !ok { return BusError; }
      var reg;
      ok, reg := ReadReg(CTRL_MEAS);
      if !ok { return BusError; }
      ok := WriteReg(CTRL_MEAS, WithMode(reg, FORCED_MODE));
      if !ok { return BusError; }
      ok := Operation();
      err := if ok then Ok else BusError;
    }

    method Force() returns (err: Error)
      requires Valid(settings)
      modifies this
      ensures Outcome(State(), err) == ForceMeasurement(old(State()))
    {
      if started {
        return InvalidState;
      }
      err := ForceMode();
      if err == Ok {
        started, status := true, 0;
      }
    }

    method PollStatus() returns (err: Error)
      requires Valid(settings)
      modifies this
      ensures Outcome(State(), err) == ReadStatus(old(State()))
    {
      var ok := Operation();
      if !ok { return BusError; }
      var value;
      ok, value := ReadReg(MEAS_STATUS_0);
      if !ok { return BusError; }
      status := value;
      ok := Operation();
      err := if ok then Ok else BusError;
    }

    /** Busy is what the chip says; without a measurement under way it is not asked. */
    method PollBusy() returns (err: Error, busy: bool)
      requires Valid(settings)
      modifies this
      ensures Outcome(State(), err) == IsMeasuring(old(State()))
      ensures err == Ok ==> busy == (old(started) && Measuring(old(regs)[MEAS_STATUS_0]))
    {
      busy := false;
      if !started {
        return Ok, false;
      }
      err := PollStatus();
      if err == Ok {
        busy := Measuring(status);
      }
    }

    /** On success the data are the chip's, read in one block after the new-data bit was seen. */
    method Fetch() returns (err: Error, raw: Option<RawData>)
      requires Valid(settings)
      modifies this
      ensures Outcome(State(), err) == GetRawData(old(State()))
      ensures err == Ok <==> raw.Some?
      ensures raw.Some? ==> IsReading(raw.value, status, old(regs)) && status >= 0x80
    {
      raw := None;
      if !started {
        return InvalidState, None;
      }
      if !NewData(status) {
        err := PollStatus();
        if err != Ok {
          return;
        }
        if !NewData(status) {
          return if Measuring(status) then InvalidState else InvalidResponse, None;
        }
      }
      started := false;
      err, raw := ReadData();
    }

    /** The block read of the measurement. */
    method ReadData() returns (err: Error, raw: Option<RawData>)
      modifies this`bus
      ensures Outcome(State(), err) == Finish(old(State()), 3)
      ensures err == Ok <==> raw.Some?
      ensures raw.Some? ==> IsReading(raw.value, status, regs)
    {
      hide TakenApart, IsReading;
      raw := None;
      var ok := Operation();
      if !ok { return BusError, None; }
      ok := Operation();
      if !ok { return BusError, None; }
      var data := TakenApart(status, regs[RAW_DATA..RAW_DATA + RAW_DATA_LEN]);
      BlockIsReading(status, regs);
      ok := Operation();
      if !ok { return BusError, None; }
      return Ok, Some(data);
    }

    method Init() returns (err: Error)
      modifies this
      ensures Outcome(State(), err) == InitSensor(cal, old(State()))
    {
      hide ResetSensor;
      err := Reset();
      if err != Ok { return; }
      err := SetOversamplingRates(1, 1, 1);
      if err != Ok { return; }
      err := SetFilter(2);
      if err != Ok { return; }
      err := SetProfile(0, 320, 150);
      if err != Ok { return; }
      err := UseProfile(0);
    }

    method Reset() returns (err: Error)
      modifies this
      ensures Outcome(State(), err) == ResetSensor(old(State()))
    {
      var ok := Operation();
      if !ok { return BusError; }
      settings, started, status := NO_SETTINGS, false, 0;
      ok := Operation();
      if !ok { return BusError; }
      regs := AfterReset(regs);
      var id;
      ok, id := ReadReg(ID);
      if !ok { return BusError; }
      if id != CHIP_ID {
        ok := Operation();
        return if ok then NotFound else BusError;
      }
      for i := 0 to 3
        invariant bus == old(bus) - 3 - i
        invariant settings == NO_SETTINGS && !started && status == 0 && regs == AfterReset(old(regs))
      {
        ok := Operation();
        if !ok { return BusError; }
      }
      settings := settings.(ambient := 25);
      ok := Operation();
      err := if ok then Ok else BusError;
    }

    /** The wait for the current settings, from the cache. */
    method WaitTicks(msPerTick: nat) returns (ticks: nat)
      requires Valid(settings) && msPerTick > 0
      ensures var t := MicrosecondsFor(settings);
              t + 5000 + 1000 * msPerTick <= 1000 * (msPerTick * ticks) < t + 5000 + 2000 * msPerTick
    {
      PlanTakes(settings);
      ticks := MeasurementDuration(PlanOf(settings), msPerTick);
    }
  }

  /** The samples taken at an oversampling rate. */
  function Samples(rate: Rate): nat
  {
    match rate
    case 0 => 0
    case 1 => 1
    case 2 => 2
    case 3 => 4
    case 4 => 8
    case _ => 16
  }

  /**
   * The time a measurement takes: waking up, 2300 microseconds a sample, switching for pressure and
   * humidity, and for an enabled profile its heating time and the gas conversion.
   */
  function MicrosecondsFor(s: Settings): nat
    requires Valid(s)
  {
    1250 + 2300 * (Samples(s.osrT) + Samples(s.osrP) + Samples(s.osrH))
    + (if s.osrP != 0 then 575 else 0) + (if s.osrH != 0 then 575 else 0)
    + if s.profile != -1 && s.temperature[s.profile] != 0 && s.duration[s.profile] != 0
      then s.duration[s.profile] as int * 1000 + 2300 + 575 else 0
  }

  lemma PhaseTakes(rate: Rate, extra: nat)
    ensures Phase(rate as int, extra) == 2300 * Samples(rate) + if rate != 0 then extra else 0
  {
    assert rate == 0 || rate == 1 || rate == 2 || rate == 3 || rate == 4 || rate == 5;
    assert Pow2(4) == 2 * Pow2(3) == 4 * Pow2(2) == 8 * Pow2(1) == 16 * Pow2(0) == 16;
  }

  lemma PlanTakes(s: Settings)
    requires Valid(s)
    ensures PhaseSum(PlanOf(s), PlanOf(s).heat) == MicrosecondsFor(s)
  {
    hide Phase, Samples;
    PhaseTakes(s.osrT, 0);
    PhaseTakes(s.osrP, 575);
    PhaseTakes(s.osrH, 575);
  }

  function PlanOf(s: Settings): (p: Plan)
    requires Valid(s)
    ensures ValidPlan(p)
  {
    Plan(s.osrT as int, s.osrP as int, s.osrH as int, Enabled(s, s.profile),
         if s.profile == HEATER_NOT_USED then 0 else s.duration[s.profile])
  }
}
