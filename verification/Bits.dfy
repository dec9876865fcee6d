/** Bytes and their bits, least significant bit first, as they travel on a serial line. */
module Bits {

  type byte = x: int | 0 <= x < 256
  type uint8 = byte
  type uint16 = x: int | 0 <= x < 0x1_0000
  type int16 = x: int | -0x8000 <= x < 0x8000

  function Pow2(n: nat): (p: nat)
    ensures p >= 1
  {
    if n == 0 then 1 else 2 * Pow2(n - 1)
  }

  function Digit(bit: bool): (d: nat)
    ensures d < 2
  {
    if bit then 1 else 0
  }

  /** The n low bits of value, least significant first. */
  function ToBits(value: nat, n: nat): (bits: seq<bool>)
    ensures |bits| == n
    decreases n
  {
    if n == 0 then [] else [value % 2 == 1] + ToBits(value / 2, n - 1)
  }

  /** The number whose bits, least significant first, are the given ones. */
  function FromBits(bits: seq<bool>): nat
  {
    if bits == [] then 0 else Digit(bits[0]) + 2 * FromBits(bits[1..])
  }

  lemma {:induction false} FromToBits(value: nat, n: nat)
    requires value < Pow2(n)
    ensures FromBits(ToBits(value, n)) == value
  {
    if n > 0 {
      FromToBits(value / 2, n - 1);
      assert ToBits(value, n)[1..] == ToBits(value / 2, n - 1);
    }
  }

  lemma {:induction false} FromBitsBound(bits: seq<bool>)
    ensures FromBits(bits) < Pow2(|bits|)
  {
    if bits != [] {
      FromBitsBound(bits[1..]);
    }
  }

  /** Testing bit i with a mask sees the i-th bit sent. */
  lemma {:induction false} BitAt(value: nat, n: nat, i: nat)
    requires i < n
    ensures ToBits(value, n)[i] == (value / Pow2(i) % 2 == 1)
  {
    if i > 0 {
      BitAt(value / 2, n - 1, i - 1);
      HalveThenShift(value, i - 1);
    }
  }

  lemma HalveThenShift(value: nat, i: nat)
    ensures value / 2 / Pow2(i) == value / Pow2(i + 1)
  {
    var p := Pow2(i);
    var q, r := value / (2 * p), value % (2 * p);
    assert value == q * (2 * p) + r;
    assert value / 2 == q * p + r / 2;
    assert 0 <= r / 2 < p;
    assert (q * p + r / 2) / p == q by {
      DivUnique(q * p + r / 2, p, q, r / 2);
    }
  }

  lemma DivShift(value: nat, i: nat)
    ensures value / Pow2(i) / 2 == value / Pow2(i + 1)
  {
    var p := Pow2(i);
    var q, r := value / p, value % p;
    assert value == (q / 2) * (2 * p) + (q % 2 * p + r) by {
      assert q == q / 2 * 2 + q % 2;
      assert q * p == q / 2 * 2 * p + q % 2 * p;
    }
    assert q % 2 * p <= p by { assert q % 2 == 0 || q % 2 == 1; }
    DivUnique(value, 2 * p, q / 2, q % 2 * p + r);
  }

  lemma MulAtLeast(k: int, d: nat)
    ensures k >= 1 ==> k * d >= d
    ensures k <= -1 ==> k * d + d <= 0
  {
    assert k * d == (k - 1) * d + d == (k + 1) * d - d;
  }

  lemma MulMonotone(a: int, b: int, c: int, d: int)
    requires 0 <= a <= b && 0 <= c <= d
    ensures 0 <= a * c <= b * d
  {
    assert (b - a) * c >= 0;
    assert b * (d - c) >= 0;
    assert a * c >= 0;
  }

  lemma DivUnique(x: nat, d: nat, q: nat, r: nat)
    requires d > 0 && r < d && x == q * d + r
    ensures x / d == q
  {
    var k := x / d - q;
    assert k * d == r - x % d;
    MulAtLeast(k, d);
  }

  /** Appending one more significant bit. */
  lemma {:induction false} FromBitsSnoc(bits: seq<bool>, bit: bool)
    ensures FromBits(bits + [bit]) == FromBits(bits) + Digit(bit) * Pow2(|bits|)
  {
    if bits == [] {
      assert [] + [bit] == [bit];
    } else {
      FromBitsSnoc(bits[1..], bit);
      assert (bits + [bit])[1..] == bits[1..] + [bit];
    }
  }
}
