/** Decimal numbers as printf writes them and as they are read back. */
module Decimals {

  datatype Parsed<+T> = Fail | Done(value: T, rest: string)

  function Digit(d: nat): char
    requires d < 10
  {
    '0' + (d as char)
  }

  function Natural(n: nat): (s: string)
    ensures s != ""
    ensures n < 10 ==> |s| == 1
    ensures forall c :: c in s ==> '0' <= c <= '9'
  {
    if n < 10 then [Digit(n)] else Natural(n / 10) + [Digit(n % 10)]
  }

  /** The "%d" of an integer. */
  function Decimal(n: int): string
  {
    if n < 0 then "-" + Natural(-n) else Natural(n)
  }

  predicate IsDigit(c: char) { '0' <= c <= '9' }

  predicate StartsWithDigit(s: string) { s != "" && IsDigit(s[0]) }

  function ParseDigits(s: string, acc: nat): (p: Parsed<nat>)
    ensures p.Done? && |p.rest| <= |s|
    decreases |s|
  {
    if StartsWithDigit(s) then ParseDigits(s[1..], acc * 10 + (s[0] as int - '0' as int))
    else Done(acc, s)
  }

  lemma {:induction false} NaturalFirst(n: nat)
    ensures IsDigit(Natural(n)[0])
    ensures n > 0 ==> Natural(n)[0] != '0'
  {
    if n >= 10 {
      NaturalFirst(n / 10);
    }
  }

  lemma {:induction false} DigitsParse(n: nat, rest: string)
    ensures ParseDigits(Natural(n) + rest, 0) == ParseDigits(rest, n)
  {
    if n < 10 {
      assert (Natural(n) + rest)[1..] == rest;
    } else {
      var last := [Digit(n % 10)] + rest;
      DigitsParse(n / 10, last);
      assert Natural(n) + rest == Natural(n / 10) + last;
      assert last[1..] == rest;
    }
  }
}
