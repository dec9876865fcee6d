/**
 * JSON text as RFC 8259 defines it: a printer with the layout the firmware uses and an
 * independent parser. A character stands for one byte of the C buffers. The parser covers
 * strings, integers, arrays and objects; what it accepts is JSON.
 */
module Json {
  import opened Decimals
  import opened Wrappers

  datatype Json =
    | Str(text: string)
    | Num(n: int)
    | Arr(items: seq<Json>)
    | Obj(members: seq<Member>)

  datatype Member = Member(name: string, value: Json)

  // ---------------------------------------------------------------- printing

  const HEX := "0123456789abcdef"

  /** The "%04x" of a character below 32. */
  function Hex4(code: nat): string
    requires code < 32
  {
    "00" + [HEX[code / 16], HEX[code % 16]]
  }

  /** The escape sequence of one character, empty when it is printed as it is. */
  function EscapeTail(c: char): string
  {
    match c
    case '\\' => "\\"
    case '\"' => "\""
    case '\U{8}' => "b"
    case '\U{c}' => "f"
    case '\n' => "n"
    case '\r' => "r"
    case '\t' => "t"
    case _ => if c < ' ' then "u" + Hex4(c as int) else ""
  }

  function Escape(c: char): string
  {
    if EscapeTail(c) == "" then [c] else "\\" + EscapeTail(c)
  }

  function EscapeAll(s: string): string
  {
    if s == "" then "" else Escape(s[0]) + EscapeAll(s[1..])
  }

  function Quoted(s: string): string
  {
    "\"" + EscapeAll(s) + "\""
  }

  /** Array items go on lines of their own, object members do not. */
  function Print(v: Json): string
    decreases v, 0
  {
    match v
    case Str(text) => Quoted(text)
    case Num(n) => Decimal(n)
    case Arr(items) => "[" + PrintItems(items) + "]"
    case Obj(members) => "{" + PrintMembers(members) + "}"
  }

  function PrintItems(items: seq<Json>): string
    decreases items, 1
  {
    if items == [] then ""
    else Print(items[0]) + if |items| == 1 then "" else ",\n" + PrintItems(items[1..])
  }

  function PrintMembers(members: seq<Member>): string
    decreases members, 1
  {
    if members == [] then ""
    else
      Quoted(members[0].name)
      + (":" + (Print(members[0].value)
                + if |members| == 1 then "" else "," + PrintMembers(members[1..])))
  }

  // ----------------------------------------------------------------- parsing

  predicate StartsWith(s: string, c: char) { s != "" && s[0] == c }

  /** Insignificant whitespace of section 2. */
  function SkipWs(s: string): (r: string)
    ensures |r| <= |s|
  {
    if s != "" && s[0] in {' ', '\t', '\n', '\r'} then SkipWs(s[1..]) else s
  }

  function HexDigit(c: char): int
  {
    if '0' <= c <= '9' then c as int - '0' as int
    else if 'a' <= c <= 'f' then c as int - 'a' as int + 10
    else if 'A' <= c <= 'F' then c as int - 'A' as int + 10
    else -1
  }

  /** The part of a string after its opening quote (section 7); surrogates are not accepted. */
  function ParseChars(s: string): (p: Parsed<string>)
    ensures p.Done? ==> |p.rest| < |s|
  {
    if s == "" then Fail
    else if s[0] == '\"' then Done("", s[1..])
    else if s[0] == '\\' then
      if |s| < 2 then Fail
      else if s[1] == 'u' then
        if |s| < 6 then Fail
        else
          var a, b, c, d := HexDigit(s[2]), HexDigit(s[3]), HexDigit(s[4]), HexDigit(s[5]);
          var code := a * 4096 + b * 256 + c * 16 + d;
          if a < 0 || b < 0 || c < 0 || d < 0 || 0xD800 <= code < 0xE000 then Fail
          else Prepend(code as char, ParseChars(s[6..]))
      else
        match s[1]
        case '\"' => Prepend('\"', ParseChars(s[2..]))
        case '\\' => Prepend('\\', ParseChars(s[2..]))
        case '/' => Prepend('/', ParseChars(s[2..]))
        case 'b' => Prepend('\U{8}', ParseChars(s[2..]))
        case 'f' => Prepend('\U{c}', ParseChars(s[2..]))
        case 'n' => Prepend('\n', ParseChars(s[2..]))
        case 'r' => Prepend('\r', ParseChars(s[2..]))
        case 't' => Prepend('\t', ParseChars(s[2..]))
        case _ => Fail
    else if s[0] < ' ' then Fail
    else Prepend(s[0], ParseChars(s[1..]))
  }

  function Prepend(c: char, p: Parsed<string>): Parsed<string>
  {
    match p
    case Fail => Fail
    case Done(text, rest) => Done([c] + text, rest)
  }

  /** The integers of section 6: no leading zero. */
  function ParseNatural(s: string): (p: Parsed<nat>)
    ensures p.Done? ==> |p.rest| < |s|
  {
    if !StartsWithDigit(s) then Fail
    else if s[0] == '0' then if StartsWithDigit(s[1..]) then Fail else Done(0, s[1..])
    else ParseDigits(s[1..], s[0] as int - '0' as int)
  }

  function ParseNumber(s: string): (p: Parsed<int>)
    ensures p.Done? ==> |p.rest| < |s|
  {
    if StartsWith(s, '-') then
      match ParseNatural(s[1..])
      case Fail => Fail
      case Done(n, rest) => var m: int := n; Done(-m, rest)
    else
      match ParseNatural(s)
      case Fail => Fail
      case Done(n, rest) => Done(n, rest)
  }

  function ParseValue(s: string): (p: Parsed<Json>)
    ensures p.Done? ==> |p.rest| < |s|
    decreases |s|, 0
  {
    var t := SkipWs(s);
    if t == "" then Fail
    else if t[0] == '\"' then
      match ParseChars(t[1..])
      case Fail => Fail
      case Done(text, rest) => Done(Str(text), rest)
    else if t[0] == '[' then
      var u := SkipWs(t[1..]);
      if StartsWith(u, ']') then Done(Arr([]), u[1..])
      else
        match ParseItems(u)
        case Fail => Fail
        case Done(items, rest) => Done(Arr(items), rest)
    else if t[0] == '{' then
      var u := SkipWs(t[1..]);
      if StartsWith(u, '}') then Done(Obj([]), u[1..])
      else
        match ParseMembers(u)
        case Fail => Fail
        case Done(members, rest) => Done(Obj(members), rest)
    else
      match ParseNumber(t)
      case Fail => Fail
      case Done(n, rest) => Done(Num(n), rest)
  }

  function ParseItems(s: string): (p: Parsed<seq<Json>>)
    ensures p.Done? ==> |p.rest| < |s|
    decreases |s|, 1
  {
    match ParseValue(s)
    case Fail => Fail
    case Done(v, rest) =>
      var t := SkipWs(rest);
      if StartsWith(t, ']') then Done([v], t[1..])
      else if StartsWith(t, ',') then
        match ParseItems(t[1..])
        case Fail => Fail
        case Done(vs, rest) => Done([v] + vs, rest)
      else Fail
  }

  function ParseMembers(s: string): (p: Parsed<seq<Member>>)
    ensures p.Done? ==> |p.rest| < |s|
    decreases |s|, 1
  {
    var t := SkipWs(s);
    if !StartsWith(t, '\"') then Fail
    else
      match ParseChars(t[1..])
      case Fail => Fail
      case Done(name, rest) =>
        var u := SkipWs(rest);
        if !StartsWith(u, ':') then Fail
        else
          match ParseValue(u[1..])
          case Fail => Fail
          case Done(v, rest) =>
            var w := SkipWs(rest);
            if StartsWith(w, '}') then Done([Member(name, v)], w[1..])
            else if StartsWith(w, ',') then
              match ParseMembers(w[1..])
              case Fail => Fail
              case Done(ms, rest) => Done([Member(name, v)] + ms, rest)
            else Fail
  }

  /** A whole text: one value, whitespace around it, nothing else (section 2). */
  function ParseText(s: string): Parsed<Json>
  {
    match ParseValue(s)
    case Fail => Fail
    case Done(v, rest) => if SkipWs(rest) == "" then Done(v, "") else Fail
  }

  // -------------------------------------------------------------- round trip

  lemma EscapeParses(c: char, t: string)
    ensures ParseChars(Escape(c) + t) == Prepend(c, ParseChars(t))
  {
    if EscapeTail(c) == "" {
      assert ([c] + t)[1..] == t;
    } else if |EscapeTail(c)| == 1 {
      ShortEscapeParses(c, t);
    } else {
      LongEscapeParses(c, t);
    }
  }

  lemma ShortEscapeParses(c: char, t: string)
    requires |EscapeTail(c)| == 1
    ensures ParseChars("\\" + EscapeTail(c) + t) == Prepend(c, ParseChars(t))
  {
    var s := "\\" + EscapeTail(c) + t;
    assert s[2..] == t;
    assert s[1] == EscapeTail(c)[0];
  }

  lemma LongEscapeParses(c: char, t: string)
    requires |EscapeTail(c)| > 1
    ensures ParseChars("\\" + EscapeTail(c) + t) == Prepend(c, ParseChars(t))
  {
    var s := "\\" + EscapeTail(c) + t;
    var high, low := c as int / 16, c as int % 16;
    assert s[1] == 'u' && s[2] == s[3] == '0' && s[4] == HEX[high] && s[5] == HEX[low];
    assert s[6..] == t;
    HexDigits(high);
    HexDigits(low);
    assert (high * 16 + low) as char == c;
  }

  lemma HexDigits(d: nat)
    requires d < 16
    ensures HexDigit(HEX[d]) == d
  {
  }

  lemma CloseParses(rest: string)
    ensures ParseChars("\"" + rest) == Done("", rest)
  {
    assert ("\"" + rest)[1..] == rest;
  }

  lemma {:induction false} QuotedParses(text: string, rest: string)
    ensures ParseChars(EscapeAll(text) + ("\"" + rest)) == Done(text, rest)
  {
    hide ParseChars, Escape;
    var close := "\"" + rest;
    if text == "" {
      CloseParses(rest);
      assert EscapeAll(text) + close == close;
    } else {
      var e, tail := Escape(text[0]), EscapeAll(text[1..]);
      QuotedParses(text[1..], rest);
      EscapeParses(text[0], tail + close);
      assert (e + tail) + close == e + (tail + close);
      assert [text[0]] + text[1..] == text;
    }
  }

  lemma NaturalParses(n: nat, rest: string)
    requires !StartsWithDigit(rest)
    ensures ParseNatural(Natural(n) + rest) == Done(n, rest)
  {
    var s := Natural(n) + rest;
    NaturalFirst(n);
    DigitsParse(n, rest);
    if n == 0 {
      assert s[1..] == rest;
    } else {
      assert ParseDigits(s, 0) == ParseDigits(s[1..], s[0] as int - '0' as int);
    }
  }

  lemma NumberParses(n: int, rest: string)
    requires !StartsWithDigit(rest)
    ensures ParseNumber(Decimal(n) + rest) == Done(n, rest)
    ensures (Decimal(n) + rest)[0] == '-' || IsDigit((Decimal(n) + rest)[0])
  {
    hide Natural, ParseNatural;
    var m := if n < 0 then -n else n;
    NaturalFirst(m);
    NaturalParses(m, rest);
    if n < 0 {
      assert (Decimal(n) + rest)[1..] == Natural(m) + rest;
    }
  }

  // One lemma for each way the parser goes on after a printed part.

  predicate Solid(s: string)
  {
    s != "" && s[0] !in {' ', '\t', '\n', '\r'}
  }

  lemma StringStep(text: string, rest: string)
    ensures ParseValue(Quoted(text) + rest) == Done(Str(text), rest)
  {
    var s := Quoted(text) + rest;
    assert s[1..] == EscapeAll(text) + ("\"" + rest);
    QuotedParses(text, rest);
  }

  lemma NumberStep(n: int, rest: string)
    requires !StartsWithDigit(rest)
    ensures ParseValue(Decimal(n) + rest) == Done(Num(n), rest)
  {
    NumberParses(n, rest);
  }

  lemma EmptyArrayStep(s: string, rest: string)
    requires s == "[]" + rest
    ensures ParseValue(s) == Done(Arr([]), rest)
  {
    assert s[1..] == "]" + rest;
  }

  lemma ArrayStep(s: string, t: string, items: seq<Json>, rest: string)
    requires s == "[" + t && Solid(t) && t[0] != ']'
    requires ParseItems(t) == Done(items, rest)
    ensures ParseValue(s) == Done(Arr(items), rest)
  {
    assert s[1..] == t;
  }

  lemma EmptyObjectStep(s: string, rest: string)
    requires s == "{}" + rest
    ensures ParseValue(s) == Done(Obj([]), rest)
  {
    assert s[1..] == "}" + rest;
  }

  lemma ObjectStep(s: string, t: string, members: seq<Member>, rest: string)
    requires s == "{" + t && Solid(t) && t[0] != '}'
    requires ParseMembers(t) == Done(members, rest)
    ensures ParseValue(s) == Done(Obj(members), rest)
  {
    assert s[1..] == t;
  }

  lemma LastItem(s: string, v: Json, rest: string)
    requires ParseValue(s) == Done(v, "]" + rest)
    ensures ParseItems(s) == Done([v], rest)
  {
    assert ("]" + rest)[1..] == rest;
  }

  lemma MoreItems(s: string, v: Json, t: string, vs: seq<Json>, rest: string)
    requires ParseValue(s) == Done(v, ",\n" + t)
    requires ParseItems(t) == Done(vs, rest)
    ensures ParseItems(s) == Done([v] + vs, rest)
  {
    assert (",\n" + t)[1..] == "\n" + t;
    LeadingNewline(t);
  }

  lemma LeadingNewline(s: string)
    ensures ParseItems("\n" + s) == ParseItems(s)
  {
    assert ("\n" + s)[1..] == s;
    assert SkipWs("\n" + s) == SkipWs(s);
    assert ParseValue("\n" + s) == ParseValue(s);
  }

  /** s starts with a member name and goes on with a colon and t. */
  predicate Named(s: string, name: string, t: string)
  {
    var u := SkipWs(s);
    StartsWith(u, '\"') && ParseChars(u[1..]) == Done(name, ":" + t)
  }

  lemma NameStep(s: string, name: string, t: string)
    requires s == Quoted(name) + (":" + t)
    ensures Named(s, name, t)
  {
    hide ParseChars, EscapeAll;
    assert s[1..] == EscapeAll(name) + ("\"" + (":" + t));
    QuotedParses(name, ":" + t);
  }

  lemma LastMember(s: string, name: string, t: string, v: Json, rest: string)
    requires Named(s, name, t) && ParseValue(t) == Done(v, "}" + rest)
    ensures ParseMembers(s) == Done([Member(name, v)], rest)
  {
    hide ParseChars, ParseValue;
    assert (":" + t)[1..] == t;
    assert ("}" + rest)[1..] == rest;
  }

  lemma MoreMembers(s: string, name: string, t: string, v: Json, u: string, ms: seq<Member>,
                    rest: string)
    requires Named(s, name, t) && ParseValue(t) == Done(v, "," + u)
    requires ParseMembers(u) == Done(ms, rest)
    ensures ParseMembers(s) == Done([Member(name, v)] + ms, rest)
  {
    hide ParseChars, ParseValue;
    assert (":" + t)[1..] == t;
    assert ("," + u)[1..] == u;
  }

  lemma PrintIsSolid(v: Json)
    ensures Solid(Print(v)) && Print(v)[0] != ']'
  {
    if v.Num? {
      NaturalFirst(if v.n < 0 then -v.n else v.n);
    }
  }

  lemma ArrayCase(items: seq<Json>, rest: string)
    requires items == [] || ParseItems(PrintItems(items) + ("]" + rest)) == Done(items, rest)
    ensures ParseValue(Print(Arr(items)) + rest) == Done(Arr(items), rest)
  {
    var s, t := Print(Arr(items)) + rest, PrintItems(items) + ("]" + rest);
    assert s == "[" + t;
    if items == [] {
      EmptyArrayStep(s, rest);
    } else {
      PrintIsSolid(items[0]);
      assert t[0] == Print(items[0])[0];
      ArrayStep(s, t, items, rest);
    }
  }

  lemma ObjectCase(members: seq<Member>, rest: string)
    requires members == [] || ParseMembers(PrintMembers(members) + ("}" + rest)) == Done(members, rest)
    ensures ParseValue(Print(Obj(members)) + rest) == Done(Obj(members), rest)
  {
    var p := PrintMembers(members);
    Enclose("{", p, "}", rest);
    if members == [] {
      Enclose("{", "", "}", rest);
      assert "{" + "" + "}" == "{}";
      EmptyObjectStep(Print(Obj(members)) + rest, rest);
    } else {
      MembersSolid(members);
      FirstOf(p, "}" + rest);
      ObjectStep(Print(Obj(members)) + rest, p + ("}" + rest), members, rest);
    }
  }

  lemma Enclose(open: string, p: string, close: string, rest: string)
    ensures (open + p + close) + rest == open + (p + (close + rest))
  {
  }

  lemma FirstOf(p: string, q: string)
    requires p != ""
    ensures p + q != "" && (p + q)[0] == p[0]
  {
  }

  lemma MembersSolid(members: seq<Member>)
    requires members != []
    ensures PrintMembers(members) != "" && PrintMembers(members)[0] == '\"'
  {
    assert Quoted(members[0].name)[0] == '\"';
  }

  /** The central law: parsing what was printed gives the value back and stops where it ended. */
  lemma {:induction false} PrintParses(v: Json, rest: string)
    requires !StartsWithDigit(rest)
    ensures ParseValue(Print(v) + rest) == Done(v, rest)
    decreases v, 0
  {
    match v
    case Str(text) => StringStep(text, rest);
    case Num(n) => NumberStep(n, rest);
    case Arr(items) =>
      if items != [] {
        ItemsParse(items, rest);
      }
      ArrayCase(items, rest);
    case Obj(members) =>
      if members != [] {
        MembersParse(members, rest);
      }
      ObjectCase(members, rest);
  }

  lemma LastItemText(items: seq<Json>, close: string)
    requires |items| == 1
    ensures PrintItems(items) + close == Print(items[0]) + close
  {
    assert Print(items[0]) + "" == Print(items[0]);
  }

  lemma MoreItemsText(items: seq<Json>, close: string)
    requires |items| > 1
    ensures PrintItems(items) + close
         == Print(items[0]) + (",\n" + (PrintItems(items[1..]) + close))
  {
    Nest3(Print(items[0]), ",\n", PrintItems(items[1..]), close);
  }

  lemma LastMemberText(members: seq<Member>, close: string)
    requires |members| == 1
    ensures PrintMembers(members) + close
         == Quoted(members[0].name) + (":" + (Print(members[0].value) + close))
  {
    Nest5(Quoted(members[0].name), ":", Print(members[0].value), "", "", close);
    assert "" + ("" + close) == close;
    assert "" + "" == "";
  }

  lemma MoreMembersText(members: seq<Member>, close: string)
    requires |members| > 1
    ensures PrintMembers(members) + close
         == Quoted(members[0].name)
            + (":" + (Print(members[0].value) + ("," + (PrintMembers(members[1..]) + close))))
  {
    Nest5(Quoted(members[0].name), ":", Print(members[0].value), ",", PrintMembers(members[1..]), close);
  }

  lemma Nest3(a: string, b: string, c: string, d: string)
    ensures (a + (b + c)) + d == a + (b + (c + d))
  {
  }

  lemma Nest5(a: string, b: string, c: string, d: string, e: string, f: string)
    ensures (a + (b + (c + (d + e)))) + f == a + (b + (c + (d + (e + f))))
  {
  }

  lemma {:induction false} ItemsParse(items: seq<Json>, rest: string)
    requires items != []
    ensures ParseItems(PrintItems(items) + ("]" + rest)) == Done(items, rest)
    decreases items, 1
  {
    var s, close := PrintItems(items) + ("]" + rest), "]" + rest;
    assert items == [items[0]] + items[1..];
    if |items| == 1 {
      LastItemText(items, close);
      PrintParses(items[0], close);
      LastItem(s, items[0], rest);
      assert items == [items[0]];
    } else {
      var more := PrintItems(items[1..]);
      MoreItemsText(items, close);
      PrintParses(items[0], ",\n" + (more + close));
      ItemsParse(items[1..], rest);
      MoreItems(s, items[0], more + close, items[1..], rest);
    }
  }

  lemma {:induction false} MembersParse(members: seq<Member>, rest: string)
    requires members != []
    ensures ParseMembers(PrintMembers(members) + ("}" + rest)) == Done(members, rest)
    decreases members, 1
  {
    var s, close := PrintMembers(members) + ("}" + rest), "}" + rest;
    var m := members[0];
    var value := Print(m.value);
    assert members == [m] + members[1..];
    if |members| == 1 {
      LastMemberText(members, close);
      PrintParses(m.value, close);
      NameStep(s, m.name, value + close);
      LastMember(s, m.name, value + close, m.value, rest);
      assert members == [Member(m.name, m.value)];
    } else {
      var more := PrintMembers(members[1..]);
      MoreMembersText(members, close);
      PrintParses(m.value, "," + (more + close));
      MembersParse(members[1..], rest);
      NameStep(s, m.name, value + ("," + (more + close)));
      MoreMembers(s, m.name, value + ("," + (more + close)), m.value, more + close, members[1..], rest);
    }
  }

  /** A printed value followed by a line feed is a JSON text of that value. */
  lemma PrintLineParses(v: Json)
    ensures ParseText(Print(v) + "\n") == Done(v, "")
  {
    PrintParses(v, "\n");
    assert SkipWs("\n") == SkipWs("\n"[1..]) == "";
  }

  // ------------------------------------------------------------------- looking up

  /** The value a reader finds under a name. */
  function Field(v: Json, name: string): Option<Json>
  {
    if v.Obj? then Find(v.members, name) else None
  }

  function Find(members: seq<Member>, name: string): Option<Json>
  {
    if members == [] then None
    else if members[0].name == name then Some(members[0].value)
    else Find(members[1..], name)
  }

  lemma {:induction false} FoundAt(members: seq<Member>, k: nat)
    requires k < |members|
    requires forall j :: 0 <= j < k ==> members[j].name != members[k].name
    ensures Find(members, members[k].name) == Some(members[k].value)
  {
    if k > 0 {
      FoundAt(members[1..], k - 1);
    }
  }
}
