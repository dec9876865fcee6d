/**
 * Pressure compensation in 32-bit signed arithmetic. C leaves an overflow undefined, so the
 * computation has a value only while every step fits; the model makes that visible.
 */
module Bme680Pressure {
  import opened Bits
  import opened Bme680Compensation

  /** A step that fits 32 bits, or none. */
  datatype Checked = Undefined | Value(v: int) {
    predicate IsFailure() { Undefined? }

    function PropagateFailure(): Checked
      requires Undefined?
    {
      Undefined
    }

    function Extract(): int
      requires Value?
    {
      v
    }
  }

  predicate Fits(x: int) { -0x8000_0000 <= x < 0x8000_0000 }

  function I32(x: int): Checked
  {
    if Fits(x) then Value(x) else Undefined
  }

  datatype PressureCal = PressureCal(p1: uint16, p2: int16, p3: int8, p4: int16, p5: int16,
                                     p6: int8, p7: int8, p8: int16, p9: int16, p10: uint8)

  const MAX_OVERFLOW_VAL := 0x4000_0000

  /** The first offset, from the fine temperature: var2 before it is applied. */
  function OffsetSteps(c: PressureCal, tFine: int): Checked
  {
    var var1 :- I32(tFine / 2 - 64000);
    var square :- I32((var1 / 4) * (var1 / 4));
    var scaled :- I32(square / 2048 * c.p6);
    var product :- I32(var1 * c.p5);
    var doubled :- I32(product * 2);
    var sum :- I32(scaled / 4 + doubled);
    var shifted :- I32(c.p4 * 0x1_0000);
    I32(sum / 4 + shifted)
  }

  /** The sensitivity: what the compensated reading is divided by. */
  function DivisorSteps(c: PressureCal, tFine: int): Checked
  {
    var var1 :- I32(tFine / 2 - 64000);
    var square :- I32((var1 / 4) * (var1 / 4));
    var factor :- I32(c.p3 * 32);
    var scaled :- I32(square / 8192 * factor);
    var product :- I32(c.p2 * var1);
    var sum :- I32(scaled / 8 + product / 2);
    var full :- I32((32768 + sum / 0x4_0000) * c.p1);
    Value(full / 32768)
  }

  /** C's division rounds toward zero. */
  function Quot(a: int, b: int): int
    requires b != 0
  {
    if (a >= 0) == (b > 0) then (if a >= 0 then a / b else -a / -b)
    else if a >= 0 then -(a / -b) else -(-a / b)
  }

  /** The division, in the order that keeps large values from overflowing. */
  function Divide(comp: int, divisor: int): Checked
  {
    if divisor == 0 then Undefined
    else if comp >= MAX_OVERFLOW_VAL then I32(Quot(comp, divisor) * 2)
    else
      var doubled :- I32(comp * 2);
      I32(Quot(doubled, divisor))
  }

  /** The second-order correction of a pressure. */
  function CorrectionSteps(c: PressureCal, p: int): Checked
  {
    var square :- I32((p / 8) * (p / 8));
    var n9 :- I32(c.p9 * (square / 8192));
    var n8 :- I32((p / 4) * c.p8);
    var e2 :- I32((p / 256) * (p / 256));
    var e3 :- I32(e2 * (p / 256));
    var n10 :- I32(e3 * c.p10);
    var n7 :- I32(c.p7 * 128);
    var s1 :- I32(n9 / 4096 + n8 / 8192);
    var s2 :- I32(s1 + n10 / 0x2_0000);
    var s3 :- I32(s2 + n7);
    I32(p + s3 / 16)
  }

  /** The multiplication by 3125 is unsigned and its result is read as signed. */
  function ConvertPressure(c: PressureCal, tFine: int, raw: raw20): Checked
  {
    var offset :- OffsetSteps(c, tFine);
    var divisor :- DivisorSteps(c, tFine);
    var difference :- I32(1048576 - raw - offset / 4096);
    var comp := ToInt32(U32(difference * 3125));
    var p :- Divide(comp, divisor);
    CorrectionSteps(c, p)
  }

  // -------------------------------------------------------- the formula without limits

  function Var1(tFine: int): int { tFine / 2 - 64000 }

  function SquareOf(tFine: int): int { Var1(tFine) / 4 * (Var1(tFine) / 4) }

  function Offset(c: PressureCal, tFine: int): int
  {
    (SquareOf(tFine) / 2048 * c.p6 / 4 + Var1(tFine) * c.p5 * 2) / 4 + c.p4 * 0x1_0000
  }

  function Divisor(c: PressureCal, tFine: int): int
  {
    (32768 + (SquareOf(tFine) / 8192 * (c.p3 * 32) / 8 + c.p2 * Var1(tFine) / 2) / 0x4_0000) * c.p1 / 32768
  }

  function Difference(c: PressureCal, tFine: int, raw: raw20): int
  {
    1048576 - raw - Offset(c, tFine) / 4096
  }

  /** The pressure before the correction, whichever way it was divided. */
  function Uncorrected(comp: int, divisor: int): int
    requires divisor > 0
  {
    if comp >= MAX_OVERFLOW_VAL then comp / divisor * 2 else comp * 2 / divisor
  }

  function Corrected(c: PressureCal, p: int): int
  {
    p + (c.p9 * ((p / 8) * (p / 8) / 8192) / 4096 + (p / 4) * c.p8 / 8192
         + (p / 256) * (p / 256) * (p / 256) * c.p10 / 0x2_0000 + c.p7 * 128) / 16
  }

  function PressureFormula(c: PressureCal, tFine: int, raw: raw20): int
    requires Divisor(c, tFine) > 0
  {
    Corrected(c, Uncorrected(Difference(c, tFine, raw) * 3125, Divisor(c, tFine)))
  }

  // --------------------------------------------------------------------- the bounds

  /** From minus 40 to plus 85 degrees. */
  predicate TemperatureInRange(tFine: int) { -204800 <= tFine <= 435200 }

  predicate CalibrationInRange(c: PressureCal)
  {
    && 2 <= c.p1 <= 57600 && -12900 <= c.p2 <= 12900
    && -25000 <= c.p4 <= 25000 && -6000 <= c.p5 <= 6000 && c.p10 <= 30
  }

  /** The reading is within what the sensitivity turns into at most 106239 pascal. */
  predicate ReadingInRange(c: PressureCal, tFine: int, raw: raw20)
  {
    var x := Difference(c, tFine, raw);
    0 <= x <= 687194 && 6250 * x <= 106239 * (28261 * c.p1 / 32768)
  }

  lemma SquareRange(tFine: int)
    requires TemperatureInRange(tFine)
    ensures -166400 <= Var1(tFine) <= 153600
    ensures 0 <= SquareOf(tFine) <= 1730560000
  {
    var q := Var1(tFine) / 4;
    MulRange(q, q, 41600, 41600);
    assert q * q >= 0;
  }

  lemma OffsetDefined(c: PressureCal, tFine: int)
    requires TemperatureInRange(tFine) && CalibrationInRange(c)
    ensures OffsetSteps(c, tFine) == Value(Offset(c, tFine))
  {
    SquareRange(tFine);
    MulRange(SquareOf(tFine) / 2048, c.p6, 845000, 128);
    MulRange(Var1(tFine), c.p5, 166400, 6000);
  }

  lemma DivisorDefined(c: PressureCal, tFine: int)
    requires TemperatureInRange(tFine) && CalibrationInRange(c)
    ensures DivisorSteps(c, tFine) == Value(Divisor(c, tFine))
    ensures 28261 * c.p1 / 32768 <= Divisor(c, tFine) && 1 <= Divisor(c, tFine)
  {
    SquareRange(tFine);
    var sensitivity := SquareOf(tFine) / 8192 * (c.p3 * 32) / 8 + c.p2 * Var1(tFine) / 2;
    MulRange(SquareOf(tFine) / 8192, c.p3 * 32, 211250, 4096);
    MulRange(c.p2, Var1(tFine), 12900, 166400);
    assert -4507 <= sensitivity / 0x4_0000 <= 4506;
    Scaled(32768 + sensitivity / 0x4_0000, c.p1);
  }

  lemma Scaled(k: int, p1: uint16)
    requires 28261 <= k <= 37274 && 2 <= p1 <= 57600
    ensures 28261 * p1 <= k * p1 < 0x8000_0000
    ensures 28261 * p1 / 32768 <= k * p1 / 32768 && 1 <= k * p1 / 32768
  {
    ScaledProduct(k, p1);
    ShiftMonotone(28261 * p1, k * p1);
    ShiftMonotone(56522, 28261 * p1);
  }

  lemma ScaledProduct(k: int, p1: uint16)
    requires 28261 <= k <= 37274
    ensures 28261 * p1 <= k * p1 <= 37274 * p1
  {
    assert (k - 28261) * p1 >= 0;
    assert (37274 - k) * p1 >= 0;
  }

  lemma ShiftMonotone(a: int, b: int)
    requires a <= b
    ensures a / 32768 <= b / 32768
  {
  }

  lemma QuotBounds(comp: int, divisor: int, low: int)
    requires 0 <= comp < 0x8000_0000 && 1 <= divisor && low <= divisor
    requires 2 * comp <= 106239 * low
    ensures 0 <= Uncorrected(comp, divisor) <= 106239
    ensures Divide(comp, divisor) == Value(Uncorrected(comp, divisor))
  {
    assert 106239 * low <= 106239 * divisor;
    DivUpper(2 * comp, divisor, 106239);
    BranchesAgree(comp, divisor);
  }

  lemma MulSteps(k: int, d: int)
    requires d >= 1
    ensures k >= 1 ==> k * d >= d
    ensures k >= 2 ==> k * d >= 2 * d
    ensures k <= -1 ==> k * d <= -d
  {
    assert k * d == (k - 1) * d + d == (k - 2) * d + 2 * d == (k + 1) * d - d;
    MulSigns(k - 1, d);
    MulSigns(k - 2, d);
    MulSigns(k + 1, d);
  }

  lemma MulSigns(k: int, d: int)
    requires d >= 1
    ensures k >= 0 ==> k * d >= 0
    ensures k <= 0 ==> k * d <= 0
  {
  }

  lemma DivUpper(a: int, d: int, k: int)
    requires d >= 1 && 0 <= a <= k * d
    ensures 0 <= a / d <= k
  {
    var q := a / d;
    assert a == q * d + a % d;
    assert (q - k) * d == q * d - k * d;
    MulSteps(q - k, d);
  }

  /** The two ways of dividing differ by at most one. */
  lemma BranchesAgree(comp: int, divisor: int)
    requires comp >= 0 && divisor >= 1
    ensures comp / divisor * 2 <= comp * 2 / divisor <= comp / divisor * 2 + 1
  {
    var q, r := comp / divisor, comp % divisor;
    assert comp == q * divisor + r;
    var x := comp * 2 / divisor;
    assert comp * 2 == x * divisor + comp * 2 % divisor;
    assert (x - 2 * q) * divisor == 2 * r - comp * 2 % divisor;
    Sandwich(x - 2 * q, divisor, 2 * r - comp * 2 % divisor);
  }

  lemma Sandwich(k: int, d: int, v: int)
    requires d >= 1 && k * d == v && -d < v < 2 * d
    ensures 0 <= k <= 1
  {
    MulSteps(k, d);
  }

  lemma CorrectionDefined(c: PressureCal, p: int)
    requires 0 <= p <= 106239 && c.p10 <= 30
    ensures CorrectionSteps(c, p) == Value(Corrected(c, p))
  {
    MulRange(p / 8, p / 8, 13279, 13279);
    assert (p / 8) * (p / 8) >= 0;
    MulRange(c.p9, (p / 8) * (p / 8) / 8192, 32768, 21525);
    MulRange(p / 4, c.p8, 26559, 32768);
    var e := p / 256;
    MulRange(e, e, 414, 414);
    MulRange(e * e, e, 171396, 414);
    MulRange(e * e * e, c.p10, 70957944, 30);
  }

  /**
   * Inside the bounds no step of the computation overflows and the divisor is not zero: the
   * result is the formula's, and so is its meaning.
   */
  lemma PressureDefined(c: PressureCal, tFine: int, raw: raw20)
    requires TemperatureInRange(tFine) && CalibrationInRange(c) && ReadingInRange(c, tFine, raw)
    ensures Divisor(c, tFine) > 0
    ensures ConvertPressure(c, tFine, raw) == Value(PressureFormula(c, tFine, raw))
  {
    OffsetDefined(c, tFine);
    DivisorDefined(c, tFine);
    var x, v := Difference(c, tFine, raw), Divisor(c, tFine);
    QuotBounds(x * 3125, v, 28261 * c.p1 / 32768);
    CorrectionDefined(c, Uncorrected(x * 3125, v));
    Assemble(c, tFine, raw, Offset(c, tFine), v, x, Uncorrected(x * 3125, v));
  }

  lemma Assemble(c: PressureCal, tFine: int, raw: raw20, offset: int, divisor: int, x: int, p: int)
    requires OffsetSteps(c, tFine) == Value(offset) && DivisorSteps(c, tFine) == Value(divisor)
    requires x == 1048576 - raw - offset / 4096 && 0 <= x <= 687194
    requires Divide(x * 3125, divisor) == Value(p)
    ensures ConvertPressure(c, tFine, raw) == CorrectionSteps(c, p)
  {
    UnsignedScale(x);
  }

  lemma UnsignedScale(x: int)
    requires 0 <= x <= 687194
    ensures ToInt32(U32(x * 3125)) == x * 3125
  {
  }

  /** A larger raw reading means a lower pressure before the correction, but for one unit. */
  lemma UncorrectedFalls(comp: int, comp': int, divisor: int)
    requires 0 <= comp <= comp' && divisor >= 1
    ensures Uncorrected(comp, divisor) <= Uncorrected(comp', divisor) + 1
  {
    BranchesAgree(comp, divisor);
    BranchesAgree(comp', divisor);
    DivMonotone(comp * 2, comp' * 2, divisor);
    DivMonotone(comp, comp', divisor);
  }

  lemma DivMonotone(a: int, b: int, d: int)
    requires a <= b && d >= 1
    ensures a / d <= b / d
  {
    var x, y := a / d, b / d;
    assert (x - y) * d == (a - a % d) - (b - b % d) by {
      assert a == x * d + a % d && b == y * d + b % d;
      assert (x - y) * d == x * d - y * d;
    }
    MulSteps(x - y, d);
  }

  /** The one unit is real: where the order of operations changes, more becomes less. */
  lemma BranchSwitchDips()
    ensures Uncorrected(0x3FFF_FFFF, 33000) == Uncorrected(0x4000_0000, 33000) + 1
  {
  }

  const ORDINARY := PressureCal(35710, -10311, 88, 8013, -104, 30, 36, -2371, -2424, 30)

  lemma OrdinaryOffset()
    ensures Offset(ORDINARY, 132569) == 525021498
  {
    assert Var1(132569) == 2284 && SquareOf(132569) == 326041;
    assert 326041 / 2048 * 30 / 4 == 1192 && 2284 * -104 * 2 == -475072;
    assert (1192 - 475072) / 4 == -118470 && 8013 * 0x1_0000 == 525139968;
  }

  lemma OrdinaryDivisor()
    ensures Divisor(ORDINARY, 132569) == 35660
  {
    assert Var1(132569) == 2284 && SquareOf(132569) == 326041;
    assert 326041 / 8192 * (88 * 32) / 8 == 13728 && -10311 * 2284 / 2 == -11775162;
    assert (13728 - 11775162) / 0x4_0000 == -45 && (32768 - 45) * 35710 / 32768 == 35660;
  }

  lemma OrdinaryCorrection()
    ensures Corrected(ORDINARY, 91208) == 91141
  {
    assert 91208 / 8 == 11401 && 11401 * 11401 / 8192 == 15867 && -2424 * 15867 / 4096 == -9391;
    assert 91208 / 4 * -2371 / 8192 == -6600 && 91208 / 256 == 356;
    assert 356 * 356 * 356 * 30 / 0x2_0000 == 10326 && 36 * 128 == 4608;
  }

  /** An ordinary reading of an ordinary sensor: 91141 pascal. */
  lemma OrdinaryPressure()
    ensures ConvertPressure(ORDINARY, 132569, 400000) == Value(91141)
  {
    hide Offset, Divisor, Corrected, ConvertPressure;
    OrdinaryOffset();
    OrdinaryDivisor();
    OrdinaryCorrection();
    assert Difference(ORDINARY, 132569, 400000) == 520397 && 520397 * 3125 == 1626240625;
    assert Uncorrected(1626240625, 35660) == 91208;
    assert 28261 * 35710 / 32768 == 30798 && 6250 * 520397 <= 106239 * 30798;
    PressureDefined(ORDINARY, 132569, 400000);
  }

  /** A calibration with p1 = 0 divides by zero, whatever is read. */
  lemma ZeroSensitivity(c: PressureCal, tFine: int, raw: raw20)
    requires c.p1 == 0
    ensures ConvertPressure(c, tFine, raw) == Undefined
  {
  }
}
