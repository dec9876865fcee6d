/** The write-skipping settings cache against the chip, and the measurement protocol, over all runs. */
module Bme680Cache {
  import opened Bits
  import opened Bme680Registers
  import opened Bme680Timing
  import opened Bme680Model

  // ------------------------------------------------------------------ one call each

  /**
   * What has to succeed for the cache to agree with the chip after the call: the writes of the
   * changed fields, each at its place among the bus operations. A lost write does no harm only
   * where the chip already holds the code, or no code is needed.
   */
  predicate Survives(cal: Calibration, d: Device, c: Call)
    requires Valid(d.settings)
  {
    var s := d.settings;
    match c
    case SetOversamplingRates(t, p, h) =>
      var tp := s.osrT != t || s.osrP != p;
      (tp ==> d.bus >= 3) && (s.osrH != h ==> d.bus >= if tp then 5 else 3)
    case SetFilter(size) => s.filter == size || d.bus >= 3
    case SetProfile(i, temperature, duration) =>
      i < PROFILES ==>
        var tc := s.temperature[i] != temperature;
        && (tc && temperature != 0 && d.bus < 2 ==>
              d.regs[RES_HEAT_BASE + i] == Resistance(cal, temperature, s.ambient))
        && (s.duration[i] != duration && d.bus < (if tc then 3 else 2) ==>
              DurationCode(duration) == DurationCode(s.duration[i]))
    case UseProfile(profile) =>
      HEATER_NOT_USED <= profile < PROFILES ==> ActiveIndex(profile) == ActiveIndex(s.profile) || d.bus >= 2
    case SetAmbientTemperature(ambient) =>
      s.ambient == ambient || d.bus >= 2
      || forall i :: 0 <= i < PROFILES && s.temperature[i] != 0 ==>
           d.regs[RES_HEAT_BASE + i] == Resistance(cal, s.temperature[i], ToInt8(ambient))
    case _ => true
  }

  /** What the call leaves in the registers. */
  lemma OversamplingWrites(d: Device, t: Rate, p: Rate, h: Rate)
    requires Valid(d.settings)
    ensures var s, r, d' := d.settings, d.regs, SetOversampling(d, t, p, h).dev;
            var tp := s.osrT != t || s.osrP != p;
            && d'.settings == s.(osrT := t, osrP := p, osrH := h)
            && d'.regs[CTRL_MEAS] == (if d.bus >= 3 then EditRates(r[CTRL_MEAS], s.osrT != t, t, s.osrP != p, p)
                                      else r[CTRL_MEAS])
            && d'.regs[CTRL_HUM] == (if s.osrH != h && d.bus >= (if tp then 5 else 3)
                                     then WithOsrH(r[CTRL_HUM], h) else r[CTRL_HUM])
            && forall k :: 0 <= k < 256 && k != CTRL_MEAS && k != CTRL_HUM ==> d'.regs[k] == r[k]
  {
    hide WithOsrT, WithOsrP, WithOsrH;
  }

  lemma EditedFields(r: bv8, tChanged: bool, t: Rate, pChanged: bool, p: Rate)
    ensures OsrT(EditRates(r, tChanged, t, pChanged, p)) == if tChanged then t else OsrT(r)
    ensures OsrP(EditRates(r, tChanged, t, pChanged, p)) == if pChanged then p else OsrP(r)
  {
    hide WithOsrT, WithOsrP, OsrT, OsrP, Mode, WithMode;
    CtrlMeasFields(r, t);
    CtrlMeasFields(r, p);
    CtrlMeasFields(WithOsrT(r, t), p);
  }

  lemma OversamplingSurvives(cal: Calibration, d: Device, t: Rate, p: Rate, h: Rate)
    requires Valid(d.settings) && Agrees(cal, d)
    ensures Agrees(cal, SetOversampling(d, t, p, h).dev) <==> Survives(cal, d, SetOversamplingRates(t, p, h))
  {
    hide SetOversampling, EditRates, OsrT, OsrP, OsrH, WithOsrH, Filter, NbConv, Resistance, DurationCode;
    var s := d.settings;
    OversamplingWrites(d, t, p, h);
    EditedFields(d.regs[CTRL_MEAS], s.osrT != t, t, s.osrP != p, p);
    SmallFields(d.regs[CTRL_HUM], h);
  }

  lemma FilterWrites(d: Device, size: FilterSize)
    requires Valid(d.settings) && d.settings.filter != size
    ensures var d' := SetFilterSize(d, size).dev;
            && d'.settings == d.settings.(filter := size)
            && d'.regs == if d.bus >= 3 then d.regs[CONFIG := WithFilter(d.regs[CONFIG], size)] else d.regs
  {
    hide WithFilter;
  }

  /** Rewriting the filter register leaves agreement a matter of its field. */
  lemma FilterMatches(cal: Calibration, s: Settings, r: Regs, size: FilterSize, v: bv8)
    requires Valid(s) && Matches(cal, s, r)
    ensures Matches(cal, s.(filter := size), r[CONFIG := v]) <==> Filter(v) == size
  {
    hide OsrT, OsrP, OsrH, Filter, NbConv, Resistance, DurationCode;
    var r' := r[CONFIG := v];
    assert forall k :: 0 <= k < 256 && k != CONFIG ==> r'[k] == r[k];
  }

  lemma FilterSurvives(cal: Calibration, d: Device, size: FilterSize)
    requires Valid(d.settings) && Agrees(cal, d)
    ensures Agrees(cal, SetFilterSize(d, size).dev) <==> Survives(cal, d, SetFilter(size))
  {
    var r := d.regs;
    if d.settings.filter != size {
      FilterWrites(d, size);
      SmallFields(r[CONFIG], size);
      FilterMatches(cal, d.settings, r, size, WithFilter(r[CONFIG], size));
      FilterMatches(cal, d.settings, r, size, r[CONFIG]);
      assert r[CONFIG := r[CONFIG]] == r;
    }
  }

  /** The call's registers: at most the two of its profile change. */
  lemma ProfileWrites(cal: Calibration, d: Device, i: uint8, temperature: uint16, duration: uint16)
    requires Valid(d.settings) && i < PROFILES
    ensures var s, r, d' := d.settings, d.regs, SetHeaterProfile(cal, d, i, temperature, duration).dev;
            var tc := s.temperature[i] != temperature;
            && d'.settings == s.(temperature := s.temperature[i := temperature], duration := s.duration[i := duration])
            && d'.regs[RES_HEAT_BASE + i] == (if tc && d.bus >= 2 then Resistance(cal, temperature, s.ambient)
                                              else r[RES_HEAT_BASE + i])
            && d'.regs[GAS_WAIT_BASE + i] == (if s.duration[i] != duration && d.bus >= (if tc then 3 else 2)
                                              then DurationCode(duration) else r[GAS_WAIT_BASE + i])
            && forall k :: 0 <= k < 256 && k != RES_HEAT_BASE + i && k != GAS_WAIT_BASE + i ==> d'.regs[k] == r[k]
  {
    hide Resistance, DurationCode;
  }

  /** Changing one profile leaves agreement a matter of its own two registers. */
  lemma OneProfileMatches(cal: Calibration, s: Settings, r: Regs, r': Regs, i: nat, temperature: uint16,
                          duration: uint16)
    requires Valid(s) && Matches(cal, s, r) && i < PROFILES
    requires forall k :: 0 <= k < 256 && k != RES_HEAT_BASE + i && k != GAS_WAIT_BASE + i ==> r'[k] == r[k]
    ensures var s' := s.(temperature := s.temperature[i := temperature], duration := s.duration[i := duration]);
            Matches(cal, s', r')
            <==> && r'[GAS_WAIT_BASE + i] == DurationCode(duration)
                 && (temperature != 0 ==> r'[RES_HEAT_BASE + i] == Resistance(cal, temperature, s.ambient))
  {
    hide OsrT, OsrP, OsrH, Filter, NbConv, Resistance, DurationCode;
    var s' := s.(temperature := s.temperature[i := temperature], duration := s.duration[i := duration]);
    assert s'.temperature[i] == temperature && s'.duration[i] == duration;
  }

  lemma ProfileSurvives(cal: Calibration, d: Device, i: uint8, temperature: uint16, duration: uint16)
    requires Valid(d.settings) && Agrees(cal, d)
    ensures Agrees(cal, SetHeaterProfile(cal, d, i, temperature, duration).dev)
            <==> Survives(cal, d, SetProfile(i, temperature, duration))
  {
    hide Matches, Resistance, DurationCode;
    if i < PROFILES {
      hide SetHeaterProfile;
      var d' := SetHeaterProfile(cal, d, i, temperature, duration).dev;
      ProfileWrites(cal, d, i, temperature, duration);
      OneProfileMatches(cal, d.settings, d.regs, d.regs, i, d.settings.temperature[i], d.settings.duration[i]);
      assert d.settings.temperature[i := d.settings.temperature[i]] == d.settings.temperature;
      assert d.settings.duration[i := d.settings.duration[i]] == d.settings.duration;
      OneProfileMatches(cal, d.settings, d.regs, d'.regs, i, temperature, duration);
    }
  }

  lemma UseWrites(d: Device, profile: int)
    requires Valid(d.settings) && HEATER_NOT_USED <= profile < PROFILES && d.settings.profile != profile
    ensures var d' := UseHeaterProfile(d, profile).dev;
            && d'.settings == d.settings.(profile := profile)
            && d'.regs == if d.bus >= 2 then d.regs[CTRL_GAS_1 := GasControl(d.settings, profile)] else d.regs
  {
    hide GasControl;
  }

  lemma GasControlMatches(cal: Calibration, s: Settings, r: Regs, profile: int, v: bv8)
    requires Valid(s) && Matches(cal, s, r) && HEATER_NOT_USED <= profile < PROFILES
    ensures Matches(cal, s.(profile := profile), r[CTRL_GAS_1 := v]) <==> NbConv(v) == ActiveIndex(profile)
  {
    hide OsrT, OsrP, OsrH, Filter, NbConv, Resistance, DurationCode, ActiveIndex;
    var r' := r[CTRL_GAS_1 := v];
    assert forall k :: 0 <= k < 256 && k != CTRL_GAS_1 ==> r'[k] == r[k];
  }

  lemma UseSurvives(cal: Calibration, d: Device, profile: int)
    requires Valid(d.settings) && Agrees(cal, d)
    ensures Agrees(cal, UseHeaterProfile(d, profile).dev) <==> Survives(cal, d, UseProfile(profile))
  {
    var r := d.regs;
    if HEATER_NOT_USED <= profile < PROFILES && profile != d.settings.profile {
      UseWrites(d, profile);
      GasControlFields(ActiveIndex(profile), Enabled(d.settings, profile));
      GasControlMatches(cal, d.settings, r, profile, GasControl(d.settings, profile));
      GasControlMatches(cal, d.settings, r, profile, r[CTRL_GAS_1]);
      assert r[CTRL_GAS_1 := r[CTRL_GAS_1]] == r;
    }
  }

  lemma AmbientSurvives(cal: Calibration, d: Device, ambient: int16)
    requires Valid(d.settings) && Agrees(cal, d)
    ensures Agrees(cal, SetAmbient(cal, d, ambient).dev) <==> Survives(cal, d, SetAmbientTemperature(ambient))
  {
    hide OsrT, OsrP, OsrH, Filter, NbConv, Resistance, DurationCode, ToInt8;
    if d.settings.ambient != ambient && d.bus >= 2 {
      var data := ResistanceCodes(cal, d.settings, ToInt8(ambient));
      var r' := WriteBlock(d.regs, RES_HEAT_BASE, data);
      forall i | 0 <= i < PROFILES ensures r'[RES_HEAT_BASE + i] == data[i] { }
      forall k | GAS_WAIT_BASE <= k < 256 ensures r'[k] == d.regs[k] { }
    }
  }

  lemma ModeOnly(r: bv8, mode: bv8)
    ensures OsrT(WithMode(r, mode)) == OsrT(r) && OsrP(WithMode(r, mode)) == OsrP(r)
  {
  }

  /** The protocol calls leave the settings alone and change at most the mode. */
  lemma ProtocolKeepsConfiguration(cal: Calibration, d: Device, c: Call)
    requires Valid(d.settings) && (c.Force? || c.PollBusy? || c.Fetch?)
    ensures var d' := Invoke(cal, d, c).dev;
            && d'.settings == d.settings
            && (d'.regs == d.regs || d'.regs == d.regs[CTRL_MEAS := WithMode(d.regs[CTRL_MEAS], FORCED_MODE)])
  {
  }

  lemma ModeMatches(cal: Calibration, s: Settings, r: Regs, mode: bv8)
    requires Valid(s) && Matches(cal, s, r)
    ensures Matches(cal, s, r[CTRL_MEAS := WithMode(r[CTRL_MEAS], mode)])
  {
    ModeOnly(r[CTRL_MEAS], mode);
  }

  /**
   * The cache's condition, for every call, argument and point of failure: the cache agrees with
   * the chip afterwards if and only if no write that mattered was lost.
   */
  lemma CallAgreesIff(cal: Calibration, d: Device, c: Call)
    requires Valid(d.settings) && Agrees(cal, d)
    ensures Agrees(cal, Invoke(cal, d, c).dev) <==> Survives(cal, d, c)
  {
    hide SetOversampling, SetFilterSize, SetHeaterProfile, UseHeaterProfile, SetAmbient, Survives, Matches;
    match c
    case SetOversamplingRates(t, p, h) => OversamplingSurvives(cal, d, t, p, h);
    case SetFilter(size) => FilterSurvives(cal, d, size);
    case SetProfile(i, temperature, duration) => ProfileSurvives(cal, d, i, temperature, duration);
    case UseProfile(profile) => UseSurvives(cal, d, profile);
    case SetAmbientTemperature(ambient) => AmbientSurvives(cal, d, ambient);
    case _ =>
      ProtocolSurvives(cal, d, c);
      ProtocolKeepsConfiguration(cal, d, c);
      ModeMatches(cal, d.settings, d.regs, FORCED_MODE);
  }

  lemma ProtocolSurvives(cal: Calibration, d: Device, c: Call)
    requires Valid(d.settings) && (c.Force? || c.PollBusy? || c.Fetch?)
    ensures Survives(cal, d, c)
  {
  }

  /** A call that reports no bus failure lost nothing. */
  lemma NoFailureSurvives(cal: Calibration, d: Device, c: Call)
    requires Valid(d.settings) && Invoke(cal, d, c).err != BusError
    ensures Survives(cal, d, c)
  {
    hide Resistance, DurationCode, EditRates, WithOsrH, WithFilter, GasControl, ResistanceCodes, WriteBlock, ToInt8;
    match c
    case SetOversamplingRates(t, p, h) =>
    case SetFilter(size) =>
    case SetProfile(i, temperature, duration) =>
    case UseProfile(profile) =>
    case SetAmbientTemperature(ambient) =>
    case _ =>
  }

  lemma CallAgrees(cal: Calibration, d: Device, c: Call)
    requires Valid(d.settings) && Agrees(cal, d) && Invoke(cal, d, c).err != BusError
    ensures Agrees(cal, Invoke(cal, d, c).dev)
  {
    hide Survives, Invoke, Agrees;
    NoFailureSurvives(cal, d, c);
    CallAgreesIff(cal, d, c);
  }

  predicate StepSurvives(cal: Calibration, d: Device, e: Event)
    requires Valid(d.settings)
  {
    e.Called? ==> Survives(cal, d.(bus := e.bus), e.call)
  }

  lemma StepAgreesIff(cal: Calibration, d: Device, e: Event)
    requires Valid(d.settings) && Agrees(cal, d)
    ensures Agrees(cal, Step(cal, d, e).dev) <==> StepSurvives(cal, d, e)
  {
    hide Survives, Invoke, OsrT, OsrP, OsrH, Filter, NbConv, Resistance, DurationCode;
    match e
    case ChipChange(r) =>
    case Called(c, bus) => CallAgreesIff(cal, d.(bus := bus), c);
  }

  /**
   * Every call that meets no bus failure, and every change of the chip's own, keeps the cache
   * and the chip in agreement.
   */
  lemma StepAgrees(cal: Calibration, d: Device, e: Event)
    requires Valid(d.settings) && Agrees(cal, d) && Step(cal, d, e).err != BusError
    ensures Agrees(cal, Step(cal, d, e).dev)
  {
    hide Survives, Invoke, Agrees;
    StepAgreesIff(cal, d, e);
    if e.Called? {
      NoFailureSurvives(cal, d.(bus := e.bus), e.call);
    }
  }

  // ------------------------------------------------------------------------ all runs

  function Run(cal: Calibration, d: Device, events: seq<Event>): (d': Device)
    requires Valid(d.settings)
    ensures Valid(d'.settings)
  {
    if events == [] then d
    else Step(cal, Run(cal, d, events[..|events| - 1]), events[|events| - 1]).dev
  }

  /** No call of the run met a bus failure. */
  predicate Quiet(cal: Calibration, d: Device, events: seq<Event>)
    requires Valid(d.settings)
  {
    events != [] ==>
      var front := events[..|events| - 1];
      Quiet(cal, d, front) && Step(cal, Run(cal, d, front), events[|events| - 1]).err != BusError
  }

  lemma ResetMatches(cal: Calibration, regs: Regs)
    ensures Matches(cal, NO_SETTINGS.(ambient := 25), AfterReset(regs))
  {
    var r := AfterReset(regs);
    assert forall k :: RES_HEAT_BASE <= k <= CONFIG ==> r[k] == 0;
    assert Encode(0) == 0;
  }

  /** After a successful initialisation the cache agrees with the chip, the gas switch included. */
  lemma InitAgrees(cal: Calibration, d: Device)
    requires InitSensor(cal, d).err == Ok
    ensures Valid(InitSensor(cal, d).dev.settings) && Agrees(cal, InitSensor(cal, d).dev)
    ensures GasAgrees(InitSensor(cal, d).dev) && !InitSensor(cal, d).dev.started
  {
    var d0 := Device(NO_SETTINGS.(ambient := 25), false, 0, AfterReset(d.regs), d.bus - 7);
    ResetMatches(cal, d.regs);
    InitReachesDefaults(cal, d);
    DefaultsAgree(cal, d0);
  }

  lemma InitReachesDefaults(cal: Calibration, d: Device)
    requires InitSensor(cal, d).err == Ok
    ensures d.bus >= 7
    ensures InitSensor(cal, d)
         == Defaults(cal, Device(NO_SETTINGS.(ambient := 25), false, 0, AfterReset(d.regs), d.bus - 7))
  {
  }

  lemma DefaultsAgree(cal: Calibration, d: Device)
    requires Valid(d.settings) && Agrees(cal, d) && Defaults(cal, d).err == Ok
    requires d.settings.profile == HEATER_NOT_USED
    ensures Agrees(cal, Defaults(cal, d).dev) && GasAgrees(Defaults(cal, d).dev)
    ensures Defaults(cal, d).dev.started == d.started
  {
    CallAgrees(cal, d, SetOversamplingRates(1, 1, 1));
    RatesAndFilterKeepRest(d);
    CallAgrees(cal, SetOversampling(d, 1, 1, 1).dev, SetFilter(2));
    DefaultHeaterAgrees(cal, SetFilterSize(SetOversampling(d, 1, 1, 1).dev, 2).dev);
  }

  lemma RatesAndFilterKeepRest(d: Device)
    requires Valid(d.settings)
    ensures var d2 := SetFilterSize(SetOversampling(d, 1, 1, 1).dev, 2).dev;
            d2.settings.profile == d.settings.profile && d2.started == d.started
  {
  }

  lemma DefaultHeaterAgrees(cal: Calibration, d: Device)
    requires Valid(d.settings) && Agrees(cal, d) && d.settings.profile == HEATER_NOT_USED
    requires var o := SetHeaterProfile(cal, d, 0, 320, 150);
             o.err == Ok && UseHeaterProfile(o.dev, 0).err == Ok
    ensures var d' := UseHeaterProfile(SetHeaterProfile(cal, d, 0, 320, 150).dev, 0).dev;
            Agrees(cal, d') && GasAgrees(d') && d'.started == d.started
  {
    var d1 := SetHeaterProfile(cal, d, 0, 320, 150).dev;
    CallAgrees(cal, d, SetProfile(0, 320, 150));
    CallAgrees(cal, d1, UseProfile(0));
    ActivationSetsSwitch(d1, 0);
  }

  /** A successful activation sets the gas switch to what the profile asks for. */
  lemma ActivationSetsSwitch(d: Device, profile: int)
    requires Valid(d.settings) && HEATER_NOT_USED <= profile < PROFILES && d.settings.profile != profile
    requires UseHeaterProfile(d, profile).err == Ok
    ensures GasAgrees(UseHeaterProfile(d, profile).dev)
  {
    GasControlFields(ActiveIndex(profile), Enabled(d.settings, profile));
  }

  /** Main result: over every run without bus failures the cache agrees with the chip throughout. */
  lemma {:induction false} CacheAgreesOverRuns(cal: Calibration, d: Device, events: seq<Event>)
    requires Valid(d.settings) && Agrees(cal, d) && Quiet(cal, d, events)
    ensures Agrees(cal, Run(cal, d, events))
  {
    if events != [] {
      var front := events[..|events| - 1];
      CacheAgreesOverRuns(cal, d, front);
      StepAgrees(cal, Run(cal, d, front), events[|events| - 1]);
    }
  }

  /** From a successful initialisation on. */
  lemma CacheAgreesAfterInit(cal: Calibration, d: Device, events: seq<Event>)
    requires InitSensor(cal, d).err == Ok && Valid(InitSensor(cal, d).dev.settings)
    requires Quiet(cal, InitSensor(cal, d).dev, events)
    ensures Agrees(cal, Run(cal, InitSensor(cal, d).dev, events))
  {
    hide InitSensor, Agrees, Run, Quiet;
    InitAgrees(cal, d);
    CacheAgreesOverRuns(cal, InitSensor(cal, d).dev, events);
  }

  /** The call activates a profile: an accepted index other than the active one. */
  predicate Activates(d: Device, e: Event)
  {
    && e.Called? && e.call.UseProfile?
    && HEATER_NOT_USED <= e.call.profile < PROFILES && e.call.profile != d.settings.profile
  }

  /**
   * Whether the profile was enabled when the last activation of the run took place; before the
   * first one, what the gas switch was at the start.
   */
  function SwitchedTo(cal: Calibration, d: Device, events: seq<Event>): bool
    requires Valid(d.settings)
  {
    if events == [] then RunGas(d.regs[CTRL_GAS_1])
    else
      var front, e := events[..|events| - 1], events[|events| - 1];
      var before := Run(cal, d, front);
      if Activates(before, e) then Enabled(before.settings, e.call.profile) else SwitchedTo(cal, d, front)
  }

  lemma SwitchStep(cal: Calibration, d: Device, e: Event)
    requires Valid(d.settings) && Step(cal, d, e).err != BusError
    ensures RunGas(Step(cal, d, e).dev.regs[CTRL_GAS_1])
         == if Activates(d, e) then Enabled(d.settings, e.call.profile) else RunGas(d.regs[CTRL_GAS_1])
  {
    hide RunGas;
    if e.Called? {
      var b := d.(bus := e.bus);
      if Activates(d, e) {
        ActivationSetsSwitch(b, e.call.profile);
      } else if !e.call.UseProfile? {
        GasRegisterKept(cal, b, e.call);
      }
    }
  }

  /**
   * Main result: over every run without bus failures the chip measures gas exactly if the profile
   * was enabled when it was last activated, so the switch agrees with the settings if and only
   * if the active profile is as enabled now as it was then.
   */
  lemma {:induction false} SwitchFollowsActivations(cal: Calibration, d: Device, events: seq<Event>)
    requires Valid(d.settings) && Quiet(cal, d, events)
    ensures RunGas(Run(cal, d, events).regs[CTRL_GAS_1]) == SwitchedTo(cal, d, events)
    ensures var now := Run(cal, d, events).settings;
            GasAgrees(Run(cal, d, events)) <==> SwitchedTo(cal, d, events) == Enabled(now, now.profile)
  {
    hide RunGas, Step, Enabled, Activates;
    if events != [] {
      var front := events[..|events| - 1];
      SwitchFollowsActivations(cal, d, front);
      SwitchStep(cal, Run(cal, d, front), events[|events| - 1]);
    }
  }

  /**
   * From an agreeing state the gas switch goes stale in exactly one way: a call that rewrites the
   * active profile from enabled to disabled or back, because only an activation writes the switch.
   */
  lemma GasSwitchStaleIff(cal: Calibration, d: Device, e: Event)
    requires Valid(d.settings) && GasAgrees(d) && Step(cal, d, e).err != BusError
    ensures GasAgrees(Step(cal, d, e).dev)
            <==> !(&& e.Called? && e.call.SetProfile? && e.call.i == d.settings.profile
                   && (e.call.temperature != 0 && e.call.duration != 0)
                      != Enabled(d.settings, d.settings.profile))
  {
    hide RunGas, Activates;
    SwitchStep(cal, d, e);
    EnabledAfter(cal, d, e);
  }

  /** Whether the active profile is enabled after the step. */
  lemma EnabledAfter(cal: Calibration, d: Device, e: Event)
    requires Valid(d.settings)
    ensures var s := Step(cal, d, e).dev.settings;
            Enabled(s, s.profile)
            == if Activates(d, e) then Enabled(d.settings, e.call.profile)
               else if e.Called? && e.call.SetProfile? && e.call.i == d.settings.profile then
                 e.call.temperature != 0 && e.call.duration != 0
               else Enabled(d.settings, d.settings.profile)
  {
    if e.Called? && !e.call.UseProfile? {
      EnabledKept(cal, d.(bus := e.bus), e.call);
    }
  }

  /**
   * An example: clearing the active profile's temperature leaves the chip measuring gas, and
   * activating the profile again is skipped.
   */
  lemma ClearedProfileKeepsMeasuring(cal: Calibration, d: Device, later: nat)
    requires Valid(d.settings) && GasAgrees(d) && Enabled(d.settings, d.settings.profile)
    ensures var p := d.settings.profile;
            var d1 := Step(cal, d, Called(SetProfile(p, 0, d.settings.duration[p]), 3)).dev;
            var d2 := Step(cal, d1, Called(UseProfile(p), later));
            && !Enabled(d1.settings, p) && RunGas(d1.regs[CTRL_GAS_1])
            && d2.err == Ok && d2.dev.regs == d1.regs
  {
    var p := d.settings.profile;
    GasRegisterKept(cal, d.(bus := 3), SetProfile(p, 0, d.settings.duration[p]));
  }

  lemma GasRegisterKept(cal: Calibration, d: Device, c: Call)
    requires Valid(d.settings) && !c.UseProfile?
    ensures Invoke(cal, d, c).dev.regs[CTRL_GAS_1] == d.regs[CTRL_GAS_1]
  {
    hide SetOversampling, SetFilterSize, SetHeaterProfile, SetAmbient;
    match c
    case SetAmbientTemperature(ambient) => AmbientKeepsGasRegister(cal, d, ambient);
    case SetProfile(i, temperature, duration) => ProfileKeepsGasRegister(cal, d, i, temperature, duration);
    case SetOversamplingRates(t, p, h) => OversamplingWrites(d, t, p, h);
    case SetFilter(size) => FilterKeepsGasRegister(d, size);
    case _ => ProtocolKeepsConfiguration(cal, d, c);
  }

  lemma AmbientKeepsGasRegister(cal: Calibration, d: Device, ambient: int16)
    requires Valid(d.settings)
    ensures SetAmbient(cal, d, ambient).dev.regs[CTRL_GAS_1] == d.regs[CTRL_GAS_1]
  {
    hide Resistance, ToInt8;
  }

  lemma ProfileKeepsGasRegister(cal: Calibration, d: Device, i: uint8, temperature: uint16, duration: uint16)
    requires Valid(d.settings)
    ensures SetHeaterProfile(cal, d, i, temperature, duration).dev.regs[CTRL_GAS_1] == d.regs[CTRL_GAS_1]
  {
    if i < PROFILES {
      hide SetHeaterProfile;
      ProfileWrites(cal, d, i, temperature, duration);
    }
  }

  lemma FilterKeepsGasRegister(d: Device, size: FilterSize)
    requires Valid(d.settings)
    ensures SetFilterSize(d, size).dev.regs[CTRL_GAS_1] == d.regs[CTRL_GAS_1]
  {
    if d.settings.filter != size {
      hide SetFilterSize;
      FilterWrites(d, size);
    }
  }

  lemma EnabledKept(cal: Calibration, d: Device, c: Call)
    requires Valid(d.settings) && !c.UseProfile?
    ensures var s := Invoke(cal, d, c).dev.settings;
            && s.profile == d.settings.profile
            && (!(c.SetProfile? && c.i == d.settings.profile) ==>
                  Enabled(s, s.profile) == Enabled(d.settings, s.profile))
  {
    match c
    case SetProfile(i, temperature, duration) =>
    case SetAmbientTemperature(ambient) =>
    case SetOversamplingRates(t, p, h) =>
    case SetFilter(size) =>
    case _ => ProtocolKeepsConfiguration(cal, d, c);
  }

  /**
   * A write lost on the bus is not repeated: the same call later reports success and does nothing,
   * with one exception, an ambient temperature that does not fit the eight bits it is kept in.
   */
  lemma LostWriteIsNotRetried(cal: Calibration, d: Device, c: Call, later: nat)
    requires Valid(d.settings) && Agrees(cal, d) && !Survives(cal, d, c)
    ensures var d1 := Invoke(cal, d, c).dev;
            && !Agrees(cal, d1)
            && (Invoke(cal, d1.(bus := later), c) == Outcome(d1.(bus := later), Ok)
                <==> (c.SetAmbientTemperature? ==> ToInt8(c.ambient) == c.ambient))
  {
    CallAgreesIff(cal, d, c);
    RepeatedCall(cal, d, c, later);
  }

  lemma RepeatedCall(cal: Calibration, d: Device, c: Call, later: nat)
    requires Valid(d.settings) && !Survives(cal, d, c)
    ensures var d1 := Invoke(cal, d, c).dev;
            Invoke(cal, d1.(bus := later), c) == Outcome(d1.(bus := later), Ok)
            <==> (c.SetAmbientTemperature? ==> ToInt8(c.ambient) == c.ambient)
  {
    if c.SetAmbientTemperature? {
      RepeatedAmbient(cal, d, c.ambient, later);
    } else {
      RepeatedSetter(cal, d, c, later);
    }
  }

  /** The setting is in the cache, whatever became of the writes. */
  predicate Cached(s: Settings, c: Call)
    requires Valid(s)
  {
    match c
    case SetOversamplingRates(t, p, h) => s.osrT == t && s.osrP == p && s.osrH == h
    case SetFilter(size) => s.filter == size
    case SetProfile(i, temperature, duration) =>
      i < PROFILES && s.temperature[i] == temperature && s.duration[i] == duration
    case UseProfile(profile) => s.profile == profile
    case _ => false
  }

  lemma RatesCached(d: Device, t: Rate, p: Rate, h: Rate)
    requires Valid(d.settings)
    ensures Cached(SetOversampling(d, t, p, h).dev.settings, SetOversamplingRates(t, p, h))
  {
    hide SetOversampling;
    OversamplingWrites(d, t, p, h);
  }

  lemma FilterCached(d: Device, size: FilterSize)
    requires Valid(d.settings)
    ensures Cached(SetFilterSize(d, size).dev.settings, SetFilter(size))
  {
    if d.settings.filter != size {
      hide SetFilterSize;
      FilterWrites(d, size);
    }
  }

  lemma ProfileCached(cal: Calibration, d: Device, i: uint8, temperature: uint16, duration: uint16)
    requires Valid(d.settings) && i < PROFILES
    ensures Cached(SetHeaterProfile(cal, d, i, temperature, duration).dev.settings,
                   SetProfile(i, temperature, duration))
  {
    hide SetHeaterProfile;
    ProfileWrites(cal, d, i, temperature, duration);
  }

  lemma UseCached(d: Device, profile: int)
    requires Valid(d.settings) && HEATER_NOT_USED <= profile < PROFILES
    ensures Cached(UseHeaterProfile(d, profile).dev.settings, UseProfile(profile))
  {
    if profile != d.settings.profile {
      hide UseHeaterProfile;
      UseWrites(d, profile);
    }
  }

  lemma CachedCallDoesNothing(cal: Calibration, d: Device, c: Call)
    requires Valid(d.settings) && Cached(d.settings, c)
    ensures Invoke(cal, d, c) == Outcome(d, Ok)
  {
    match c
    case SetOversamplingRates(t, p, h) =>
    case SetFilter(size) =>
    case SetProfile(i, temperature, duration) =>
    case UseProfile(profile) =>
  }

  lemma RepeatedSetter(cal: Calibration, d: Device, c: Call, later: nat)
    requires Valid(d.settings) && !Survives(cal, d, c) && !c.SetAmbientTemperature?
    ensures var d1 := Invoke(cal, d, c).dev; Invoke(cal, d1.(bus := later), c) == Outcome(d1.(bus := later), Ok)
  {
    SetterCaches(cal, d, c);
    CachedCallDoesNothing(cal, Invoke(cal, d, c).dev.(bus := later), c);
  }

  lemma SetterCaches(cal: Calibration, d: Device, c: Call)
    requires Valid(d.settings) && !Survives(cal, d, c) && !c.SetAmbientTemperature?
    ensures Cached(Invoke(cal, d, c).dev.settings, c)
  {
    hide SetOversampling, SetFilterSize, SetHeaterProfile, UseHeaterProfile, Cached;
    match c
    case SetOversamplingRates(t, p, h) => RatesCached(d, t, p, h);
    case SetFilter(size) => FilterCached(d, size);
    case SetProfile(i, temperature, duration) => ProfileCached(cal, d, i, temperature, duration);
    case UseProfile(profile) => UseCached(d, profile);
    case _ => assert false;
  }

  lemma RepeatedAmbient(cal: Calibration, d: Device, ambient: int16, later: nat)
    requires Valid(d.settings) && !Survives(cal, d, SetAmbientTemperature(ambient))
    ensures var d1 := SetAmbient(cal, d, ambient).dev;
            SetAmbient(cal, d1.(bus := later), ambient) == Outcome(d1.(bus := later), Ok)
            <==> ToInt8(ambient) == ambient
  {
    hide ResistanceCodes, WriteBlock, ToInt8;
  }

  // ------------------------------------------------------------- measurement protocol

  /**
   * What the protocol counts: successful starts, measurements consumed, successful fetches, and
   * whether a status with the new-data bit was read from the chip since the latest start.
   */
  datatype History = History(forced: nat, consumed: nat, fetched: nat, seenConsumed: nat, seen: bool)

  const START := History(0, 0, 0, 0, false)

  /** The call reads the status register of the chip. */
  predicate ReadsStatus(d: Device, c: Call, bus: nat)
  {
    && d.started && bus >= 2
    && (c.PollBusy? || (c.Fetch? && !NewData(d.status)))
  }

  function Record(cal: Calibration, h: History, d: Device, e: Event): History
    requires Valid(d.settings)
  {
    if e.ChipChange? then h
    else
      var o := Step(cal, d, e);
      var seen := h.seen || (ReadsStatus(d, e.call, e.bus) && NewData(d.regs[MEAS_STATUS_0]));
      if e.call.Force? && o.err == Ok then h.(forced := h.forced + 1, seen := false)
      else if e.call.Fetch? && d.started && !o.dev.started then
        History(h.forced, h.consumed + 1, h.fetched + (if o.err == Ok then 1 else 0),
                h.seenConsumed + (if seen then 1 else 0), seen)
      else h.(seen := seen)
  }

  function Account(cal: Calibration, d: Device, events: seq<Event>): History
    requires Valid(d.settings)
  {
    if events == [] then START
    else
      var front := events[..|events| - 1];
      Record(cal, Account(cal, d, front), Run(cal, d, front), events[|events| - 1])
  }

  predicate Balanced(h: History, d: Device)
  {
    && h.forced == h.consumed + (if d.started then 1 else 0)
    && h.fetched <= h.consumed
    && h.seenConsumed == h.consumed
    && (d.started && NewData(d.status) ==> h.seen)
  }

  lemma ConfigurationKeepsProtocol(cal: Calibration, d: Device, c: Call)
    requires Valid(d.settings) && !c.Force? && !c.PollBusy? && !c.Fetch?
    ensures var d' := Invoke(cal, d, c).dev; d'.started == d.started && d'.status == d.status
  {
    match c
    case SetProfile(i, temperature, duration) =>
    case SetAmbientTemperature(ambient) =>
    case SetOversamplingRates(t, p, h) =>
    case SetFilter(size) =>
    case UseProfile(profile) =>
  }

  lemma StepBalanced(cal: Calibration, h: History, d: Device, e: Event)
    requires Valid(d.settings) && Balanced(h, d)
    ensures Balanced(Record(cal, h, d, e), Step(cal, d, e).dev)
  {
    assert !NewData(0);
    if e.Called? && !e.call.Force? && !e.call.PollBusy? && !e.call.Fetch? {
      ConfigurationKeepsProtocol(cal, d.(bus := e.bus), e.call);
    }
  }

  /**
   * Main result: whatever fails on the bus, the successful starts are the consumed measurements
   * plus the one in flight, no fetch succeeds twice, and every consumed measurement had its
   * new-data bit read from the chip after the latest start.
   */
  lemma {:induction false} ProtocolBalanced(cal: Calibration, d: Device, events: seq<Event>)
    requires Valid(d.settings) && !d.started
    ensures Balanced(Account(cal, d, events), Run(cal, d, events))
  {
    if events != [] {
      var front := events[..|events| - 1];
      ProtocolBalanced(cal, d, front);
      StepBalanced(cal, Account(cal, d, front), Run(cal, d, front), events[|events| - 1]);
    }
  }

  /** A fetch proceeds only on new data, and nothing but a fetch that proceeds ends a measurement. */
  lemma OnlyFetchEndsMeasurement(cal: Calibration, d: Device, e: Event)
    requires Valid(d.settings) && d.started && !Step(cal, d, e).dev.started
    ensures e.Called? && e.call.Fetch?
    ensures NewData(d.status) || (e.bus >= 3 && NewData(d.regs[MEAS_STATUS_0]))
  {
  }
}
