/** One sensor record as a line of the CSV file and as it is read back; numbers in hundredths. */
module SensorCsv {
  import opened Wrappers
  import opened Decimals

  datatype Record = Record(id: int, time: string, temperature: int, humidity: int, pressure: int,
                           gas: int, uv: int)

  const HEADER := "ID, Time, temperature, humidity, pressure, gas, uv\n"
  const LINE_BUFFER := 1024

  /** The "%.2f" of a number of hundredths. */
  function Fixed(n: int): string
  {
    (if n < 0 then "-" else "") + FixedAbs(if n < 0 then -n else n)
  }

  function FixedAbs(n: nat): string
  {
    Natural(n / 100) + ("." + [Digit(n / 10 % 10), Digit(n % 10)])
  }

  function Line(r: Record): string
  {
    Decimal(r.id) + ("," + (" " + r.time + ("," + (" " + Fixed(r.temperature) + ("," + (" " + Fixed(r.humidity)
      + ("," + (" " + Fixed(r.pressure) + ("," + (" " + Fixed(r.gas) + ("," + (" " + Fixed(r.uv) + "\n"))))))))))))
  }

  /** A time stamp without the separators of the file, and a line that fits the read buffer. */
  predicate Safe(r: Record)
  {
    (forall k :: 0 <= k < |r.time| ==> r.time[k] !in {',', '\n', '\0'}) && |Line(r)| < LINE_BUFFER
  }

  /** Reading keeps the blank behind the comma. */
  function Blanked(r: Record): Record
  {
    r.(time := " " + r.time)
  }

  // -------------------------------------------------------------------------- reading

  /** strtok with a comma: empty tokens are skipped. */
  function Tokens(s: string): (ts: seq<string>)
    ensures forall t :: t in ts ==> t != ""
    decreases |s|
  {
    if s == "" then []
    else if s[0] == ',' then Tokens(s[1..])
    else
      var n := TokenEnd(s);
      [s[..n]] + Tokens(s[n..])
  }

  function TokenEnd(s: string): (n: nat)
    ensures n <= |s| && (s != "" && s[0] != ',' ==> n > 0)
    ensures n < |s| ==> s[n] == ','
    ensures forall k :: 0 <= k < n ==> s[k] != ','
  {
    if s == "" || s[0] == ',' then 0 else 1 + TokenEnd(s[1..])
  }

  function SkipBlanks(s: string): string
  {
    if s != "" && s[0] in {' ', '\t', '\n', '\r'} then SkipBlanks(s[1..]) else s
  }

  function Atoi(s: string): int
  {
    var t := SkipBlanks(s);
    if t != "" && t[0] == '-' then -(ParseDigits(t[1..], 0).value as int) else ParseDigits(t, 0).value
  }

  /** atof for numbers with up to two decimals, in hundredths. */
  function Atof(s: string): int
  {
    var t := SkipBlanks(s);
    if t != "" && t[0] == '-' then -(AtofAbs(t[1..]) as int) else AtofAbs(t)
  }

  function AtofAbs(s: string): nat
  {
    var Done(whole, rest) := ParseDigits(s, 0);
    if |rest| >= 3 && rest[0] == '.' && IsDigit(rest[1]) && IsDigit(rest[2]) then
      whole * 100 + (rest[1] as int - '0' as int) * 10 + (rest[2] as int - '0' as int)
    else whole * 100
  }

  /** A line with fewer than seven fields makes the driver follow a null pointer. */
  function ParseLine(s: string): Option<Record>
  {
    var t := Tokens(s);
    if |t| < 7 then None
    else Some(Record(Atoi(t[0]), t[1], Atof(t[2]), Atof(t[3]), Atof(t[4]), Atof(t[5]), Atof(t[6])))
  }

  // ------------------------------------------------------------------------ round trip

  predicate NoComma(s: string)
  {
    forall k :: 0 <= k < |s| ==> s[k] != ','
  }

  lemma {:induction false} TokenEndAt(a: string, rest: string)
    requires NoComma(a) && (rest == "" || rest[0] == ',')
    ensures TokenEnd(a + rest) == |a|
  {
    if a != "" {
      TokenEndAt(a[1..], rest);
      assert (a + rest)[1..] == a[1..] + rest;
    } else {
      assert a + rest == rest;
    }
  }

  lemma FirstToken(a: string, rest: string)
    requires a != "" && NoComma(a)
    ensures Tokens(a + ("," + rest)) == [a] + Tokens(rest)
  {
    var s := a + ("," + rest);
    TokenEndAt(a, "," + rest);
    assert s[..|a|] == a && s[|a|..] == "," + rest;
    assert ("," + rest)[1..] == rest;
  }

  lemma LastToken(a: string)
    requires a != "" && NoComma(a)
    ensures Tokens(a) == [a]
  {
    TokenEndAt(a, "");
    assert a + "" == a && a[..|a|] == a && a[|a|..] == "";
    assert [a] + Tokens("") == [a];
  }

  lemma TwoMoreTokens(a: string, b: string, rest: string, ts: seq<string>)
    requires a != "" && b != "" && NoComma(a) && NoComma(b) && Tokens(rest) == ts
    ensures Tokens(a + ("," + (b + ("," + rest)))) == [a, b] + ts
  {
    FirstToken(b, rest);
    FirstToken(a, b + ("," + rest));
    assert [a] + ([b] + ts) == [a, b] + ts;
  }

  lemma SevenTokens(a: string, b: string, c: string, d: string, e: string, f: string, g: string)
    requires a != "" && b != "" && c != "" && d != "" && e != "" && f != "" && g != ""
    requires NoComma(a) && NoComma(b) && NoComma(c) && NoComma(d) && NoComma(e) && NoComma(f) && NoComma(g)
    ensures Tokens(a + ("," + (b + ("," + (c + ("," + (d + ("," + (e + ("," + (f + ("," + g))))))))))))
         == [a, b, c, d, e, f, g]
  {
    var from5 := e + ("," + (f + ("," + g)));
    var from3 := c + ("," + (d + ("," + from5)));
    LastToken(g);
    TwoMoreTokens(e, f, g, [g]);
    assert [e, f] + [g] == [e, f, g];
    TwoMoreTokens(c, d, from5, [e, f, g]);
    assert [c, d] + [e, f, g] == [c, d, e, f, g];
    TwoMoreTokens(a, b, from3, [c, d, e, f, g]);
    assert [a, b] + [c, d, e, f, g] == [a, b, c, d, e, f, g];
  }

  lemma DecimalShape(n: int)
    ensures Decimal(n) != "" && NoComma(Decimal(n))
  {
    forall k | 0 <= k < |Decimal(n)| ensures Decimal(n)[k] != ',' {
      assert Decimal(n)[k] in Decimal(n);
    }
  }

  lemma FixedShape(n: int)
    ensures NoComma(Fixed(n))
  {
    var m: nat := if n < 0 then -n else n;
    var whole := Natural(m / 100);
    forall k | 0 <= k < |whole| ensures whole[k] != ',' { assert whole[k] in whole; }
  }

  lemma AtoiDecimal(n: int)
    ensures Atoi(Decimal(n)) == n
  {
    var m: nat := if n < 0 then -n else n;
    NaturalFirst(m);
    DigitsParse(m, "");
    assert Natural(m) + "" == Natural(m);
    if n < 0 {
      assert Decimal(n)[1..] == Natural(m);
    }
  }

  lemma AtofAbsFixed(n: nat, end: string)
    requires end == "" || end == "\n"
    ensures AtofAbs(FixedAbs(n) + end) == n
  {
    var tail := "." + [Digit(n / 10 % 10), Digit(n % 10)];
    DigitsParse(n / 100, tail + end);
    assert (Natural(n / 100) + tail) + end == Natural(n / 100) + (tail + end);
    assert n == n / 100 * 100 + n / 10 % 10 * 10 + n % 10;
  }

  lemma AtofFixed(n: int, end: string)
    requires end == "" || end == "\n"
    ensures Atof(" " + Fixed(n) + end) == n
  {
    var m: nat := if n < 0 then -n else n;
    NaturalFirst(m / 100);
    AtofAbsFixed(m, end);
    BlankSkipped(Fixed(n) + end);
    assert " " + Fixed(n) + end == " " + (Fixed(n) + end);
    if n < 0 {
      assert (Fixed(n) + end)[1..] == FixedAbs(m) + end;
    } else {
      assert Fixed(n) == FixedAbs(m);
      assert (FixedAbs(m) + end)[0] == Natural(m / 100)[0];
    }
  }

  lemma BlankSkipped(s: string)
    requires s != "" && s[0] !in {' ', '\t', '\n', '\r'}
    ensures SkipBlanks(" " + s) == s
  {
    assert (" " + s)[1..] == s;
  }

  /** Reading a written line gives the record back, but for the blank before its time stamp. */
  lemma LineRoundTrip(r: Record)
    requires Safe(r)
    ensures ParseLine(Line(r)) == Some(Blanked(r))
  {
    DecimalShape(r.id);
    FixedShape(r.temperature);
    FixedShape(r.humidity);
    FixedShape(r.pressure);
    FixedShape(r.gas);
    FixedShape(r.uv);
    LineTokens(r);
    AtoiDecimal(r.id);
    AtofBlank(r.temperature);
    AtofBlank(r.humidity);
    AtofBlank(r.pressure);
    AtofBlank(r.gas);
    AtofFixed(r.uv, "\n");
  }

  lemma AtofBlank(n: int)
    ensures Atof(" " + Fixed(n)) == n
  {
    AtofFixed(n, "");
    assert " " + Fixed(n) + "" == " " + Fixed(n);
  }

  lemma LineTokens(r: Record)
    requires Safe(r)
    ensures Tokens(Line(r)) == [Decimal(r.id), " " + r.time, " " + Fixed(r.temperature), " " + Fixed(r.humidity),
                                " " + Fixed(r.pressure), " " + Fixed(r.gas), " " + Fixed(r.uv) + "\n"]
  {
    DecimalShape(r.id);
    FixedShape(r.temperature);
    FixedShape(r.humidity);
    FixedShape(r.pressure);
    FixedShape(r.gas);
    FixedShape(r.uv);
    SevenTokens(Decimal(r.id), " " + r.time, " " + Fixed(r.temperature), " " + Fixed(r.humidity),
                " " + Fixed(r.pressure), " " + Fixed(r.gas), " " + Fixed(r.uv) + "\n");
  }

  // --------------------------------------------------------------------------- the file

  /** The lines after a write: a counter of zero brings a header first. */
  function Appended(file: Option<seq<string>>, id: nat, line: string): seq<string>
  {
    var lines := if file.Some? then file.value else [];
    if id == 0 then lines + [HEADER] + [line] else lines + [line]
  }

  /** The SD card file: its lines, and the counter of records written since the last reset. */
  class Card {
    var file: Option<seq<string>>
    var id: nat

    constructor (file: Option<seq<string>>)
      ensures this.file == file && id == 0
    {
      this.file := file;
      id := 0;
    }

    /** Appends, creating the file if need be; the first record after a reset brings a header. */
    method Write(r: Record)
      modifies this
      ensures file == Some(Appended(old(file), old(id), Line(r)))
      ensures id == old(id) + 1
    {
      var lines := if file.Some? then file.value else [];
      if id == 0 {
        lines := lines + [HEADER];
      }
      id := id + 1;
      file := Some(lines + [Line(r)]);
    }

    /** Reads the whole file and takes the line asked for apart; None where nothing was read. */
    method Read(lineNumber: nat) returns (r: Option<Record>)
      requires file.Some?
      ensures r == if 1 <= lineNumber <= |file.value| then ParseLine(file.value[lineNumber - 1]) else None
    {
      r := None;
      var i := 0;
      while i < |file.value|
        invariant 0 <= i <= |file.value|
        invariant r == if 1 <= lineNumber <= i then ParseLine(file.value[lineNumber - 1]) else None
      {
        i := i + 1;
        if i == lineNumber {
          r := ParseLine(file.value[i - 1]);
        }
      }
    }
  }

  /** The file that holds these records. */
  function FileOf(records: seq<Record>): (lines: seq<string>)
    ensures |lines| == |records| + 1
    ensures forall k :: 0 <= k < |records| ==> lines[k + 1] == Line(records[k])
  {
    [HEADER] + seq(|records|, k requires 0 <= k < |records| => Line(records[k]))
  }

  lemma FileGrows(records: seq<Record>, r: Record)
    ensures FileOf(records + [r]) == FileOf(records) + [Line(r)]
  {
  }

  function BlankedAll(records: seq<Record>): (b: seq<Record>)
    ensures |b| == |records|
    ensures forall k :: 0 <= k < |records| ==> b[k] == Blanked(records[k])
  {
    seq(|records|, k requires 0 <= k < |records| => Blanked(records[k]))
  }

  lemma BlankedSnoc(records: seq<Record>, j: nat)
    requires j < |records|
    ensures BlankedAll(records[..j + 1]) == BlankedAll(records[..j]) + [Blanked(records[j])]
  {
  }

  /**
   * The drain loop undisturbed: every record of the file is read back once, in order, and the
   * file and the counter are reset.
   */
  method Drain(card: Card, ghost records: seq<Record>) returns (published: seq<Record>)
    requires card.file == Some(FileOf(records)) && card.id == |records|
    requires forall k :: 0 <= k < |records| ==> Safe(records[k])
    modifies card
    ensures published == BlankedAll(records)
    ensures card.file == None && card.id == 0
  {
    published := [];
    var line := 2;
    var j := 0;
    while j < card.id
      invariant 0 <= j <= |records| && line == j + 2
      invariant card.file == Some(FileOf(records)) && card.id == |records|
      invariant published == BlankedAll(records[..j])
    {
      LineRoundTrip(records[j]);
      BlankedSnoc(records, j);
      var r := card.Read(line);
      published := published + [r.value];
      line := line + 1;
      j := j + 1;
    }
    assert records[..j] == records;
    card.id := 0;
    card.file := None;
  }
}
