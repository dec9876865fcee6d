/** Durations of the BME680: the heater's lossy one-byte encoding and the wait in RTOS ticks. */
module Bme680Timing {

  import opened Bits

  function Pow4(m: nat): (p: nat)
    ensures p >= 1
  {
    if m == 0 then 1 else 4 * Pow4(m - 1)
  }

  /** Mantissa and number of divisions by four until six bits are enough. */
  function Mantissa(d: nat): (v: nat)
    ensures v <= 63
  {
    if d <= 63 then d else Mantissa(d / 4)
  }

  function Shifts(d: nat): nat
  {
    if d <= 63 then 0 else 1 + Shifts(d / 4)
  }

  /** The byte written to GAS_WAIT: mantissa in bits 5..0, shifts in bits 7..6, cut to eight bits. */
  function Encode(d: uint16): (code: nat)
    ensures code < 256
  {
    Mantissa(d) + Shifts(d) % 4 * 64
  }

  /** The heating time the chip makes of that byte. */
  function Decode(code: nat): nat
  {
    code % 64 * Pow4(code / 64)
  }

  /** The loop of the driver; the or of the two disjoint parts is a sum, cut to eight bits. */
  method HeaterDuration(duration: uint16) returns (code: nat)
    ensures code == Encode(duration)
  {
    var d: nat := duration;
    var multiplier := 0;
    while d > 63
      invariant Mantissa(d) == Mantissa(duration)
      invariant multiplier + Shifts(d) == Shifts(duration)
    {
      d := d / 4;
      multiplier := multiplier + 1;
    }
    code := (d + multiplier * 64) % 256;
    EightBits(d, multiplier);
  }

  lemma EightBits(v: nat, m: nat)
    requires v <= 63
    ensures (v + m * 64) % 256 == v + m % 4 * 64
  {
    assert v + m * 64 == (v + m % 4 * 64) + 256 * (m / 4);
  }

  function Scaled(v: nat, m: nat): nat
  {
    v * Pow4(m)
  }

  /** What the chip can be told: six bits of mantissa, a multiplier of 1, 4, 16 or 64. */
  ghost predicate Representable(x: nat)
  {
    exists v: nat, m: nat :: v <= 63 && m <= 3 && x == Scaled(v, m)
  }

  lemma {:induction false} MantissaBounds(d: nat)
    ensures Mantissa(d) * Pow4(Shifts(d)) <= d < (Mantissa(d) + 1) * Pow4(Shifts(d))
    ensures Shifts(d) > 0 ==> Mantissa(d) >= 16
  {
    if d > 63 {
      MantissaBounds(d / 4);
      var v, p := Mantissa(d / 4), Pow4(Shifts(d / 4));
      TimesFour(v, p);
      TimesFour(v + 1, p);
    }
  }

  lemma TimesFour(v: nat, p: nat)
    ensures v * (4 * p) == 4 * (v * p)
  {
  }

  lemma FewShifts(d: nat)
    ensures d <= 4095 <==> Shifts(d) <= 3
    ensures d < 0x1_0000 ==> Shifts(d) <= 5
  {
    if d > 63 {
      assert Shifts(d) == 1 + Shifts(d / 4);
      if d / 4 > 63 {
        assert Shifts(d / 4) == 1 + Shifts(d / 4 / 4);
        if d / 4 / 4 > 63 {
          assert Shifts(d / 4 / 4) == 1 + Shifts(d / 4 / 4 / 4);
          if d / 4 / 4 / 4 > 63 {
            assert Shifts(d / 4 / 4 / 4) == 1 + Shifts(d / 4 / 4 / 4 / 4);
            assert d / 4 / 4 / 4 / 4 > 63 ==>
              Shifts(d / 4 / 4 / 4 / 4) == 1 + Shifts(d / 4 / 4 / 4 / 4 / 4);
          }
        }
      }
    }
  }

  lemma DecodeEncode(d: uint16)
    ensures Decode(Encode(d)) == Mantissa(d) * Pow4(Shifts(d) % 4)
  {
    hide Mantissa, Shifts, Pow4;
    var v, m := Mantissa(d), Shifts(d) % 4;
    assert (v + m * 64) % 64 == v && (v + m * 64) / 64 == m;
  }

  lemma {:induction false} Pow4Monotone(a: nat, b: nat)
    requires a <= b
    ensures Pow4(a) <= Pow4(b)
    decreases b
  {
    if a < b {
      Pow4Monotone(a, b - 1);
    }
  }

  /** Whatever is requested, the chip never heats longer than that. */
  lemma NeverLonger(d: uint16)
    ensures Decode(Encode(d)) <= d
  {
    DecodeEncode(d);
    MantissaBounds(d);
    Pow4Monotone(Shifts(d) % 4, Shifts(d));
    MulMonotone(Mantissa(d), Mantissa(d), Pow4(Shifts(d) % 4), Pow4(Shifts(d)));
  }

  /** No representable time lies above the encoded one and at most at the requested one. */
  lemma NothingBetween(d: nat, w: nat, n: nat)
    requires Shifts(d) <= 3 && w <= 63 && n <= 3 && Scaled(w, n) <= d
    ensures Scaled(w, n) <= Mantissa(d) * Pow4(Shifts(d))
  {
    var v, m := Mantissa(d), Shifts(d);
    MantissaBounds(d);
    if n >= m {
      Pow4Split(m, n);
      var k := Pow4(n - m);
      Rearrange(w, k, Pow4(m));
      Cancel(w * k, v, Pow4(m), d);
    } else {
      // a coarser mantissa of at least 16 is worth more than any finer one
      Pow4Monotone(n, m - 1);
      assert Pow4(m) == 4 * Pow4(m - 1);
      MulMonotone(w, 64, Pow4(n), Pow4(m - 1));
      MulMonotone(16, v, Pow4(m), Pow4(m));
    }
  }

  /** A multiple of p not above d is at most the last one. */
  lemma Cancel(a: nat, v: nat, p: nat, d: nat)
    requires a * p <= d < (v + 1) * p
    ensures a * p <= v * p
  {
    if a > v {
      MulMonotone(v + 1, a, p, p);
    } else {
      MulMonotone(a, v, p, p);
    }
  }

  lemma Rearrange(w: nat, k: nat, p: nat)
    ensures w * (k * p) == (w * k) * p
  {
  }

  lemma {:induction false} Pow4Split(m: nat, n: nat)
    requires m <= n
    ensures Pow4(n) == Pow4(n - m) * Pow4(m)
    decreases n
  {
    if m < n {
      Pow4Split(m, n - 1);
      Rearrange(4, Pow4(n - 1 - m), Pow4(m));
    }
  }

  lemma GreatestUpTo4095(d: uint16)
    requires d <= 4095
    ensures Representable(Decode(Encode(d))) && d - Decode(Encode(d)) < Pow4(Encode(d) / 64)
    ensures forall x: nat :: Representable(x) && x <= d ==> x <= Decode(Encode(d))
  {
    hide Mantissa, Pow4, Encode, Decode;
    DecodeEncode(d);
    MantissaBounds(d);
    FewShifts(d);
    MultiplierOf(d);
    assert Decode(Encode(d)) == Scaled(Mantissa(d), Shifts(d));
    forall x: nat | Representable(x) && x <= d ensures x <= Decode(Encode(d)) {
      var v: nat, m: nat :| v <= 63 && m <= 3 && x == Scaled(v, m);
      NothingBetween(d, v, m);
    }
    assert (Mantissa(d) + 1) * Pow4(Shifts(d)) == Mantissa(d) * Pow4(Shifts(d)) + Pow4(Shifts(d));
  }

  lemma MultiplierOf(d: uint16)
    ensures Encode(d) / 64 == Shifts(d) % 4
  {
    hide Mantissa, Shifts;
  }

  /** The largest representable time is 4032; from 4096 on much less than that is programmed. */
  lemma NotGreatestFrom4096(d: uint16)
    requires d > 4095
    ensures Representable(4032) && Decode(Encode(d)) < 4032 <= d
  {
    DecodeEncode(d);
    FewShifts(d);
    assert Pow4(3) == 4 * Pow4(2) == 16 * Pow4(1) == 64;
    assert Scaled(63, 3) == 4032;
    var m := Shifts(d) % 4;
    assert m <= 1;
    Pow4Monotone(m, 1);
    MulMonotone(Mantissa(d), 63, Pow4(m), 4);
  }

  /**
   * The encoding is the greatest representable time not above the requested one, with an error
   * below one unit of its multiplier, exactly up to 4095 ms; beyond, the multiplier wraps round.
   */
  lemma GreatestRepresentableIff(d: uint16)
    ensures (forall x: nat :: Representable(x) && x <= d ==> x <= Decode(Encode(d))) <==> d <= 4095
    ensures d <= 4095 ==> Representable(Decode(Encode(d))) && d - Decode(Encode(d)) < Pow4(Encode(d) / 64)
  {
    hide Representable, Decode, Encode, Pow4;
    if d <= 4095 {
      GreatestUpTo4095(d);
    } else {
      NotGreatestFrom4096(d);
    }
  }

  /** A heating time of 4096 ms is programmed as 16 ms. */
  lemma WrapsAt4096()
    ensures Decode(Encode(4096)) == 16
  {
    assert Mantissa(4096) == Mantissa(1024) == Mantissa(256) == Mantissa(64) == Mantissa(16);
    assert Shifts(4096) == 1 + Shifts(1024) == 2 + Shifts(256) == 3 + Shifts(64) == 4 + Shifts(16);
    DecodeEncode(4096);
  }

  // ------------------------------------------------------------------------- waiting

  /** The settings the duration depends on; heat is the heating time of the active profile, if any. */
  datatype Plan = Plan(osrT: nat, osrP: nat, osrH: nat, gas: bool, heat: uint16)

  predicate ValidPlan(p: Plan)
  {
    p.osrT <= 5 && p.osrP <= 5 && p.osrH <= 5
  }

  /** One oversampled conversion, in microseconds. */
  function Phase(osr: nat, extra: nat): nat
  {
    if osr == 0 then 0 else Pow2(osr - 1) * 2300 + extra
  }

  /** Wake-up, the three conversions, heating for the given time and the gas conversion. */
  function PhaseSum(p: Plan, heat: nat): nat
  {
    1250 + Phase(p.osrT, 0) + Phase(p.osrP, 575) + Phase(p.osrH, 575)
    + if p.gas then heat * 1000 + 2875 else 0
  }

  /** bme680_get_measurement_duration: microseconds, milliseconds with a margin, then ticks. */
  method MeasurementDuration(p: Plan, msPerTick: nat) returns (ticks: nat)
    requires ValidPlan(p) && msPerTick > 0
    ensures var t := PhaseSum(p, p.heat);
            t + 5000 + 1000 * msPerTick <= 1000 * (msPerTick * ticks) < t + 5000 + 2000 * msPerTick
    ensures PhaseSum(p, p.heat) + 999 < 0x1_0000_0000
  {
    var duration := 1250;
    if p.osrT != 0 {
      duration := duration + Pow2(p.osrT - 1) * 2300;
    }
    if p.osrP != 0 {
      duration := duration + Pow2(p.osrP - 1) * 2300 + 575;
    }
    if p.osrH != 0 {
      duration := duration + Pow2(p.osrH - 1) * 2300 + 575;
    }
    if p.gas {
      duration := duration + p.heat * 1000;
      duration := duration + 2300 + 575;
    }
    assert duration == PhaseSum(p, p.heat);
    SumBound(p);
    ticks := ToTicks(duration, msPerTick);
  }

  /** Microseconds to milliseconds, five more, and to ticks, rounded up, with one more. */
  method ToTicks(us: nat, msPerTick: nat) returns (ticks: nat)
    requires msPerTick > 0
    ensures us + 5000 + 1000 * msPerTick <= 1000 * (msPerTick * ticks) < us + 5000 + 2000 * msPerTick
  {
    var duration := us + 999;
    duration := duration / 1000;
    duration := duration + 5;
    TickRounding(duration, msPerTick);
    ticks := (duration + msPerTick - 1) / msPerTick;
    ticks := ticks + 1;
  }

  lemma SumBound(p: Plan)
    requires ValidPlan(p)
    ensures PhaseSum(p, p.heat) + 999 < 0x1_0000_0000
  {
    hide Pow2;
    PhaseBound(p.osrT);
    PhaseBound(p.osrP);
    PhaseBound(p.osrH);
  }

  lemma PhaseBound(osr: nat)
    requires osr <= 5
    ensures osr > 0 ==> Pow2(osr - 1) <= 16
  {
    assert Pow2(4) == 2 * Pow2(3) == 4 * Pow2(2) == 8 * Pow2(1) == 16;
    assert osr == 0 || osr == 1 || osr == 2 || osr == 3 || osr == 4 || osr == 5;
  }

  lemma TickRounding(ms: nat, p: nat)
    requires p > 0
    ensures var k := (ms + p - 1) / p; ms + p <= p * (k + 1) < ms + 2 * p
  {
    var k := (ms + p - 1) / p;
    assert (ms + p - 1) == p * k + (ms + p - 1) % p;
    assert p * (k + 1) == p * k + p;
  }

  /** The wait covers the measurement with the heating time the chip was really given. */
  lemma WaitCoversProgrammedHeating(p: Plan, msPerTick: nat, ticks: nat)
    requires ValidPlan(p) && msPerTick > 0
    requires PhaseSum(p, p.heat) + 5000 + 1000 * msPerTick <= 1000 * (msPerTick * ticks)
    ensures PhaseSum(p, Decode(Encode(p.heat))) + 5000 + 1000 * msPerTick <= 1000 * (msPerTick * ticks)
  {
    NeverLonger(p.heat);
  }
}
