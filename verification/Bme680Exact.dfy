/**
 * The driver's calls in the bits of the chip's registers: what agreement means there, what each
 * call writes, and what the status byte says.
 */
module Bme680Exact {
  import opened Bits
  import opened Bme680Registers
  import opened Bme680Timing
  import opened Bme680Model
  import opened Bme680Cache

  // ----------------------------------------------------------------------- agreement

  /** The heater code for a temperature, which is brought into the range of 200 to 400 degrees. */
  function HeaterCode(cal: Calibration, temperature: nat, ambient: int): bv8
  {
    if temperature <= 200 then cal(200, ambient)
    else if temperature >= 400 then cal(400, ambient)
    else cal(temperature, ambient)
  }

  /** The byte for a heating time: six bits of mantissa, and in the two upper bits the power of four. */
  function WaitCode(d: uint16): (code: nat)
    ensures code < 256
  {
    if d <= 63 then d
    else if d <= 255 then 64 + d / 4
    else if d <= 1023 then 128 + d / 16
    else if d <= 4095 then 192 + d / 64
    else if d <= 16383 then d / 256
    else 64 + d / 1024
  }

  lemma Quarter(d: nat, v: nat, m: nat)
    requires d > 63 && Mantissa(d / 4) == v && Shifts(d / 4) == m
    ensures Mantissa(d) == v && Shifts(d) == m + 1
  {
  }

  lemma SmallCodes(d: nat)
    requires d <= 1023
    ensures Mantissa(d) == if d <= 63 then d else if d <= 255 then d / 4 else d / 16
    ensures Shifts(d) == if d <= 63 then 0 else if d <= 255 then 1 else 2
  {
    if d > 255 {
      Quarter(d / 4, d / 4 / 4, 0);
      Quarter(d, d / 4 / 4, 1);
    } else if d > 63 {
      Quarter(d, d / 4, 0);
    }
  }

  lemma LargeCodes(d: uint16)
    requires d > 1023
    ensures Mantissa(d) == if d <= 4095 then d / 64 else if d <= 16383 then d / 256 else d / 1024
    ensures Shifts(d) == if d <= 4095 then 3 else if d <= 16383 then 4 else 5
  {
    hide Mantissa, Shifts;
    var q := d / 4;
    var h := q / 4;
    var e := h / 4;
    assert h == d / 16 && e == d / 64;
    SmallCodes(e);
    Quarter(h, Mantissa(e), Shifts(e));
    Quarter(q, Mantissa(e), Shifts(e) + 1);
    Quarter(d, Mantissa(e), Shifts(e) + 2);
    assert e / 4 == d / 256 && e / 16 == d / 1024;
  }

  lemma WaitCodes(d: uint16)
    ensures Encode(d) == WaitCode(d)
  {
    hide Mantissa, Shifts;
    if d <= 1023 {
      SmallCodes(d);
    } else {
      LargeCodes(d);
    }
  }

  lemma HeaterBits(cal: Calibration, temperature: nat, ambient: int)
    ensures Resistance(cal, temperature, ambient) == HeaterCode(cal, temperature, ambient)
  {
  }

  /** The wait and heater registers of all profiles are those of the settings. */
  predicate ProfilesInBits(cal: Calibration, s: Settings, r: Regs)
    requires Valid(s)
  {
    forall i :: 0 <= i < 10 ==>
      && r[0x64 + i] == WaitCode(s.duration[i]) as bv8
      && (s.temperature[i] != 0 ==> r[0x5a + i] == HeaterCode(cal, s.temperature[i], s.ambient))
  }

  /** The fields of the oversampling rates and of the filter hold the settings. */
  predicate RatesInBits(s: Settings, r: Regs)
  {
    && r[0x74] >> 5 == s.osrT && (r[0x74] >> 2) & 7 == s.osrP
    && r[0x72] & 7 == s.osrH && (r[0x75] >> 2) & 7 == s.filter
  }

  /** The gas register selects the active profile, or the first if there is none. */
  predicate ProfileSelected(s: Settings, r: Regs)
  {
    (r[0x71] & 15) as int == if s.profile == -1 then 0 else s.profile
  }

  /** The cache agrees with the chip exactly if the bits of its registers are the cached settings. */
  lemma AgreesInBits(cal: Calibration, d: Device)
    requires Valid(d.settings)
    ensures Agrees(cal, d)
            <==> && RatesInBits(d.settings, d.regs) && ProfileSelected(d.settings, d.regs)
                 && ProfilesInBits(cal, d.settings, d.regs)
  {
    hide OsrT, OsrP, OsrH, Filter, NbConv, RatesInBits, ProfileSelected, ProfilesInBits;
    hide DurationCode, Resistance, ActiveIndex;
    RateBits(d.settings, d.regs);
    IndexBits(d.settings, d.regs);
    ProfileBits(cal, d.settings, d.regs);
  }

  lemma RateBits(s: Settings, r: Regs)
    ensures RatesInBits(s, r)
            <==> && OsrT(r[CTRL_MEAS]) == s.osrT && OsrP(r[CTRL_MEAS]) == s.osrP
                 && OsrH(r[CTRL_HUM]) == s.osrH && Filter(r[CONFIG]) == s.filter
  {
    FieldsInBits(r[CTRL_MEAS], r[CTRL_HUM], r[CONFIG]);
    hide OsrT, OsrP, OsrH, Filter;
  }

  lemma FieldsInBits(m: bv8, h: bv8, c: bv8)
    ensures OsrT(m) == m >> 5 && OsrP(m) == (m >> 2) & 7 && OsrH(h) == h & 7 && Filter(c) == (c >> 2) & 7
  {
  }

  lemma IndexBits(s: Settings, r: Regs)
    requires Valid(s)
    ensures ProfileSelected(s, r) <==> NbConv(r[CTRL_GAS_1]) == ActiveIndex(s.profile)
  {
  }

  lemma ProfileBits(cal: Calibration, s: Settings, r: Regs)
    requires Valid(s)
    ensures ProfilesInBits(cal, s, r)
            <==> && (forall i :: 0 <= i < PROFILES ==> r[GAS_WAIT_BASE + i] == DurationCode(s.duration[i]))
                 && (forall i :: 0 <= i < PROFILES && s.temperature[i] != 0 ==>
                       r[RES_HEAT_BASE + i] == Resistance(cal, s.temperature[i], s.ambient))
  {
    hide WaitCode, Encode, Resistance, HeaterCode;
    forall i | 0 <= i < 10
      ensures DurationCode(s.duration[i]) == WaitCode(s.duration[i]) as bv8
      ensures HeaterCode(cal, s.temperature[i], s.ambient) == Resistance(cal, s.temperature[i], s.ambient)
    {
      WaitCodes(s.duration[i]);
      HeaterBits(cal, s.temperature[i], s.ambient);
    }
  }

  // --------------------------------------------------------------------------- calls

  /** Every edit of a register keeps the bits outside its field. */
  lemma EditsKeepOtherBits(r: bv8, v: bv8)
    ensures WithOsrT(r, v) & 0x1f == r & 0x1f && WithOsrP(r, v) & 0xe3 == r & 0xe3
    ensures WithOsrH(r, v) & 0xf8 == r & 0xf8 && WithFilter(r, v) & 0xe3 == r & 0xe3
    ensures WithMode(r, v) & 0xfc == r & 0xfc
  {
  }

  /** A start succeeds exactly if none is pending and the bus holds; it sets the two mode bits to one. */
  lemma ForceExactly(cal: Calibration, d: Device)
    requires Valid(d.settings)
    ensures var o := Invoke(cal, d, Force);
            && (o.err == Ok <==> !d.started && d.bus >= 4)
            && (o.err == InvalidState <==> d.started)
            && (o.err == Ok ==> o.dev == d.(regs := d.regs[0x74 := (d.regs[0x74] & 0xfc) | 1], started := true,
                                            status := 0, bus := d.bus - 4))
            && (d.started ==> o.dev == d)
  {
    ForcedMode(d.regs[0x74]);
    hide WithMode;
  }

  lemma ForcedMode(r: bv8)
    ensures WithMode(r, FORCED_MODE) == (r & 0xfc) | 1
  {
  }

  /** The status byte: bit 7 says that data are new, bit 5 that the chip is measuring. */
  lemma StatusBits(status: bv8)
    ensures NewData(status) <==> status >= 0x80
    ensures Measuring(status) <==> (status >> 5) & 1 == 1
  {
  }

  /**
   * What a fetch reports. Without a start it is refused. The status is read from the chip unless bit 7
   * of the last one is set; without that bit, bit 5 tells a running measurement from no data.
   */
  lemma FetchExactly(cal: Calibration, d: Device)
    requires Valid(d.settings)
    ensures var o := Invoke(cal, d, Fetch);
            var known := d.status >= 0x80;
            var status := if known then d.status else d.regs[0x1d];
            o.err == if !d.started then InvalidState
                     else if !known && d.bus < 3 then BusError
                     else if status >= 0x80 then (if d.bus >= (if known then 3 else 6) then Ok else BusError)
                     else if (status >> 5) & 1 == 1 then InvalidState
                     else InvalidResponse
  {
    StatusBits(d.status);
    StatusBits(d.regs[0x1d]);
    hide NewData, Measuring;
  }

  /** A profile that is activated without a bus failure: its number, and bit 4 if it is to be heated. */
  lemma UseExactly(cal: Calibration, d: Device, profile: int)
    requires Valid(d.settings) && -1 <= profile < 10 && profile != d.settings.profile && d.bus >= 3
    ensures var o := Invoke(cal, d, UseProfile(profile));
            && o.err == Ok && o.dev.settings == d.settings.(profile := profile)
            && o.dev.regs == d.regs[0x71 :=
                 if profile == -1 then 0
                 else (profile as bv8) | (if d.settings.temperature[profile] != 0 && d.settings.duration[profile] != 0
                                          then 0x10 else 0)]
  {
    GasByte(if profile == -1 then 0 else profile as bv8, Enabled(d.settings, profile));
    hide WithRunGas, WithNbConv;
  }

  lemma GasByte(v: bv8, on: bool)
    requires v < 16
    ensures WithRunGas(WithNbConv(0, v), on) == v | (if on then 0x10 else 0)
  {
  }

  /** The cache keeps the ambient temperature modulo 256, between -128 and 127. */
  lemma AmbientExactly(cal: Calibration, d: Device, ambient: int16)
    requires Valid(d.settings)
    ensures var a := Invoke(cal, d, SetAmbientTemperature(ambient)).dev.settings.ambient;
            if d.settings.ambient == ambient then a == ambient
            else -128 <= a <= 127 && (ambient - a) % 256 == 0
  {
    hide WriteBlock, ResistanceCodes;
  }

  /** The settings after a successful initialisation. */
  lemma InitExactly(cal: Calibration, d: Device)
    requires InitSensor(cal, d).err == Ok
    ensures InitSensor(cal, d).dev.settings
         == Settings(1, 1, 1, 2, 0, [320, 0, 0, 0, 0, 0, 0, 0, 0, 0], [150, 0, 0, 0, 0, 0, 0, 0, 0, 0], 25)
    ensures InitSensor(cal, d).dev.regs[0xd0] == 0x61
  {
  }
}
