/**
 * Fixed-point compensation of the raw temperature and pressure, with the C types' arithmetic
 * written out. A right shift is a division that rounds down, which is what / does here for a
 * positive divisor.
 */
module Bme680Compensation {
  import opened Bits

  type int8 = x: int | -0x80 <= x < 0x80
  /** A raw reading of twenty bits. */
  type raw20 = x: int | 0 <= x < 0x10_0000

  const TWO32 := 0x1_0000_0000

  function U32(x: int): (u: int)
    ensures 0 <= u < TWO32
  {
    x % TWO32
  }

  function ToInt16(x: int): (i: int)
    ensures -0x8000 <= i < 0x8000
  {
    (x + 0x8000) % 0x1_0000 - 0x8000
  }

  function ToInt32(x: int): (i: int)
    ensures -0x8000_0000 <= i < 0x8000_0000
  {
    (x + 0x8000_0000) % TWO32 - 0x8000_0000
  }

  // ---------------------------------------------------------------------- temperature

  datatype TemperatureCal = TemperatureCal(t1: uint16, t2: int16, t3: int8)

  /** The two differences from the calibrated zero, as integers. */
  function Fine(c: TemperatureCal, raw: raw20): int { raw / 8 - 2 * c.t1 }

  function Coarse(c: TemperatureCal, raw: raw20): int { raw / 16 - c.t1 }

  function Square(c: TemperatureCal, raw: raw20): int
  {
    Coarse(c, raw) * Coarse(c, raw) / 4096
  }

  /**
   * The temperature in hundredths of a degree as the driver computes it. The raw value is
   * unsigned, so the differences and products are taken modulo 2^32 and shifted as such.
   */
  function ConvertTemperature(c: TemperatureCal, raw: raw20): (t: int)
    ensures -0x8000 <= t < 0x8000
  {
    var var1 := U32(U32(Fine(c, raw)) * U32(c.t2)) / 2048;
    var square := U32(U32(Coarse(c, raw)) * U32(Coarse(c, raw))) / 4096;
    var var2 := U32(square * U32(c.t3)) / 16384;
    var tFine := ToInt32(var1 + var2);
    ToInt16((tFine * 5 + 128) / 256)
  }

  /** The same formula over the integers, every shift rounding down. */
  function TemperatureFormula(c: TemperatureCal, raw: raw20): int
  {
    ((Fine(c, raw) * c.t2 / 2048 + Square(c, raw) * c.t3 / 16384) * 5 + 128) / 256
  }

  lemma MulRange(a: int, b: int, m: int, n: int)
    requires 0 <= m && 0 <= n
    requires -m <= a <= m && -n <= b <= n
    ensures -(m * n) <= a * b <= m * n
  {
    var x, y := if a < 0 then -a else a, if b < 0 then -b else b;
    assert x * y <= m * y by { assert (m - x) * y >= 0; }
    assert m * y <= m * n by { assert m * (n - y) >= 0; }
    assert a * b == x * y || a * b == -(x * y);
  }

  lemma U32Product(a: int, b: int)
    ensures U32(U32(a) * U32(b)) == U32(a * b)
  {
    var k, l := a / TWO32, b / TWO32;
    var u, v := U32(a), U32(b);
    assert a == k * TWO32 + u && b == l * TWO32 + v;
    assert a * b == u * v + (k * b + u * l) * TWO32 by {
      assert a * b == (k * TWO32 + u) * b == k * TWO32 * b + u * b;
      assert u * b == u * (l * TWO32 + v) == u * l * TWO32 + u * v;
    }
    ModShift(u * v, k * b + u * l);
  }

  lemma ModShift(x: int, k: int)
    ensures (x + k * TWO32) % TWO32 == x % TWO32
  {
    var q := x / TWO32;
    assert x + k * TWO32 == (q + k) * TWO32 + x % TWO32;
  }

  lemma TemperatureRanges(c: TemperatureCal, raw: raw20)
    ensures -TWO32 < Fine(c, raw) * c.t2 < TWO32
    ensures 0 <= Coarse(c, raw) * Coarse(c, raw) < TWO32
    ensures 0 <= Square(c, raw) < 0x10_0000
    ensures -TWO32 < Square(c, raw) * c.t3 < TWO32
  {
    MulRange(Fine(c, raw), c.t2, 131071, 32768);
    MulRange(Coarse(c, raw), Coarse(c, raw), 65535, 65535);
    assert Coarse(c, raw) * Coarse(c, raw) >= 0;
    MulRange(Square(c, raw), c.t3, 0xF_FFFF, 128);
  }

  /** What an unsigned shift makes of a product that may be negative. */
  lemma UnsignedShift(x: int, k: int)
    requires -TWO32 < x < TWO32 && (k == 2048 || k == 16384)
    ensures U32(x) / k == x / k + if x < 0 then TWO32 / k else 0
  {
  }

  lemma TemperatureInParts(c: TemperatureCal, raw: raw20)
    ensures ConvertTemperature(c, raw)
         == ToInt16(TemperatureFormula(c, raw)
                    + (if Fine(c, raw) * c.t2 < 0 then 40960 else 0)
                    + (if Square(c, raw) * c.t3 < 0 then 5120 else 0))
  {
    hide U32, Fine, Coarse, Square, ToInt16, ToInt32;
    FirstPart(c, raw);
    SquarePart(c, raw);
    SecondPart(c, raw);
    TemperatureRanges(c, raw);
    var p, s3 := Fine(c, raw) * c.t2, Square(c, raw) * c.t3;
    Rescale(p / 2048 + s3 / 16384, if p < 0 then 1 else 0, if s3 < 0 then 1 else 0);
  }

  lemma FirstPart(c: TemperatureCal, raw: raw20)
    ensures var p := Fine(c, raw) * c.t2;
            U32(U32(Fine(c, raw)) * U32(c.t2)) / 2048 == p / 2048 + if p < 0 then 0x20_0000 else 0
  {
    TemperatureRanges(c, raw);
    U32Product(Fine(c, raw), c.t2);
    UnsignedShift(Fine(c, raw) * c.t2, 2048);
  }

  lemma SquarePart(c: TemperatureCal, raw: raw20)
    ensures U32(U32(Coarse(c, raw)) * U32(Coarse(c, raw))) / 4096 == Square(c, raw)
  {
    TemperatureRanges(c, raw);
    SquareFits(Coarse(c, raw));
  }

  lemma SquareFits(q: int)
    requires 0 <= q * q < TWO32
    ensures U32(U32(q) * U32(q)) == q * q
  {
    U32Product(q, q);
  }

  lemma SecondPart(c: TemperatureCal, raw: raw20)
    ensures var s := Square(c, raw);
            U32(s * U32(c.t3)) / 16384 == s * c.t3 / 16384 + if s * c.t3 < 0 then 0x4_0000 else 0
  {
    hide Square, U32;
    TemperatureRanges(c, raw);
    SmallIsItself(Square(c, raw));
    U32Product(Square(c, raw), c.t3);
    UnsignedShift(Square(c, raw) * c.t3, 16384);
  }

  lemma SmallIsItself(x: int)
    requires 0 <= x < TWO32
    ensures U32(x) == x
  {
  }

  lemma Rescale(t: int, a: nat, b: nat)
    requires a <= 1 && b <= 1 && -0x100_0000 < t < 0x100_0000
    ensures ToInt32(t + 0x20_0000 * a + 0x4_0000 * b) == t + 0x20_0000 * a + 0x4_0000 * b
    ensures ((t + 0x20_0000 * a + 0x4_0000 * b) * 5 + 128) / 256 == (t * 5 + 128) / 256 + 40960 * a + 5120 * b
  {
  }

  lemma CorrectIffInParts(c: TemperatureCal, raw: raw20)
    ensures ConvertTemperature(c, raw) == TemperatureFormula(c, raw)
            <==> && -0x8000 <= TemperatureFormula(c, raw) < 0x8000
                 && !(Fine(c, raw) * c.t2 < 0) && !(Square(c, raw) * c.t3 < 0)
  {
    TemperatureInParts(c, raw);
    var a := if Fine(c, raw) * c.t2 < 0 then 40960 else 0;
    var b := if Square(c, raw) * c.t3 < 0 then 5120 else 0;
    Offset(TemperatureFormula(c, raw), a + b);
  }

  lemma Offset(t: int, off: int)
    requires 0 <= off < 0x1_0000
    ensures ToInt16(t + off) == t <==> -0x8000 <= t < 0x8000 && off == 0
  {
  }

  lemma CorrectFromZeroUpInParts(c: TemperatureCal, raw: raw20)
    requires c.t2 > 0 && c.t3 >= 0 && -0x8000 <= TemperatureFormula(c, raw) < 0x8000
    ensures ConvertTemperature(c, raw) == TemperatureFormula(c, raw) <==> raw >= 16 * c.t1
  {
    CorrectIffInParts(c, raw);
    TemperatureRanges(c, raw);
    MulSign(Fine(c, raw), c.t2);
    assert Square(c, raw) * c.t3 >= 0 by { MulSign(Square(c, raw), c.t3); }
    assert Fine(c, raw) < 0 <==> raw < 16 * c.t1;
  }

  lemma MulSign(a: int, b: int)
    requires b >= 0
    ensures a >= 0 ==> a * b >= 0
    ensures a < 0 && b > 0 ==> a * b < 0
  {
  }

  /**
   * The computed temperature for every calibration and every reading, in the reading and the three
   * calibration values: the integer formula, off by 409.60 degrees when the first product is
   * negative and by 51.20 when the second one is, cut to sixteen bits.
   */
  lemma TemperatureExactly(c: TemperatureCal, raw: raw20)
    ensures var p := (raw / 8 - 2 * c.t1) * c.t2;
            var q := raw / 16 - c.t1;
            var r := q * q / 4096 * c.t3;
            var t := ((p / 2048 + r / 16384) * 5 + 128) / 256
                     + (if p < 0 then 40960 else 0) + (if r < 0 then 5120 else 0);
            ConvertTemperature(c, raw) == (t + 32768) % 65536 - 32768
  {
    hide ConvertTemperature;
    TemperatureInParts(c, raw);
  }

  /** It is that formula exactly when neither product is negative and the result fits. */
  lemma TemperatureCorrectIff(c: TemperatureCal, raw: raw20)
    ensures var p := (raw / 8 - 2 * c.t1) * c.t2;
            var q := raw / 16 - c.t1;
            var r := q * q / 4096 * c.t3;
            var t := ((p / 2048 + r / 16384) * 5 + 128) / 256;
            ConvertTemperature(c, raw) == t <==> -32768 <= t <= 32767 && p >= 0 && r >= 0
  {
    CorrectIffInParts(c, raw);
  }

  /** With the signs real calibrations have, only readings below the calibrated zero go wrong. */
  lemma CorrectFromZeroUp(c: TemperatureCal, raw: raw20)
    requires c.t2 > 0 && c.t3 >= 0
    ensures var q := raw / 16 - c.t1;
            var t := (((raw / 8 - 2 * c.t1) * c.t2 / 2048 + q * q / 4096 * c.t3 / 16384) * 5 + 128) / 256;
            -32768 <= t <= 32767 ==> (ConvertTemperature(c, raw) == t <==> raw >= 16 * c.t1)
  {
    if -0x8000 <= TemperatureFormula(c, raw) < 0x8000 {
      CorrectFromZeroUpInParts(c, raw);
    }
  }

  /** An ordinary reading of an ordinary sensor: 25.89 degrees. */
  lemma RoomTemperature()
    ensures ConvertTemperature(TemperatureCal(26125, 26483, 3), 500000) == 2589
  {
    hide ConvertTemperature;
    TemperatureExactly(TemperatureCal(26125, 26483, 3), 500000);
    assert (500000 / 8 - 2 * 26125) * 26483 == 271450750 && 271450750 / 2048 == 132544;
    assert 500000 / 16 - 26125 == 5125 && 5125 * 5125 / 4096 * 3 / 16384 == 1;
  }

  /** A reading one step below the calibrated zero is reported as minus 245.76 degrees. */
  lemma JustBelowZero()
    ensures var c := TemperatureCal(1000, 26000, 3);
            TemperatureFormula(c, 15999) == 0 && ConvertTemperature(c, 15999) == -24576
  {
    var c := TemperatureCal(1000, 26000, 3);
    assert Fine(c, 15999) == -1 && Coarse(c, 15999) == -1;
    assert Square(c, 15999) == 0;
    TemperatureInParts(c, 15999);
  }

  /** From the calibrated zero up a larger reading never means a lower temperature. */
  lemma TemperatureMonotone(c: TemperatureCal, raw: raw20, raw': raw20)
    requires c.t2 >= 0 && c.t3 >= 0 && 16 * c.t1 <= raw <= raw'
    requires TemperatureFormula(c, raw) < 0x8000 && TemperatureFormula(c, raw') < 0x8000
    ensures ConvertTemperature(c, raw) <= ConvertTemperature(c, raw')
  {
    var f, f' := Fine(c, raw), Fine(c, raw');
    var q, q' := Coarse(c, raw), Coarse(c, raw');
    assert 0 <= f <= f' && 0 <= q <= q';
    MulMonotone(f, f', c.t2, c.t2);
    MulMonotone(q, q', q, q');
    MulMonotone(Square(c, raw), Square(c, raw'), c.t3, c.t3);
    MulSign(f, c.t2);
    MulSign(f', c.t2);
    MulSign(Square(c, raw), c.t3);
    MulSign(Square(c, raw'), c.t3);
    CorrectIffInParts(c, raw);
    CorrectIffInParts(c, raw');
  }
}
