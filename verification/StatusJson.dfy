/** The connection status as the web page polls it, printed into a buffer of fixed size. */
module StatusJson {
  import opened Decimals
  import opened Wrappers
  import opened Json
  import opened JsonPrinter
  import opened CStrings

  const JSON_IP_INFO_SIZE := 159

  datatype Reason = ConnectionOk | FailedAttempt | UserDisconnect | LostConnection

  function Code(reason: Reason): nat
  {
    match reason
    case ConnectionOk => 0
    case FailedAttempt => 1
    case UserDisconnect => 2
    case LostConnection => 3
  }

  type octet = x: int | 0 <= x < 256

  datatype Ip = Ip(a: octet, b: octet, c: octet, d: octet)

  datatype IpInfo = IpInfo(ip: Ip, netmask: Ip, gw: Ip)

  function DottedQuad(ip: Ip): string
  {
    Natural(ip.a) + "." + Natural(ip.b) + "." + Natural(ip.c) + "." + Natural(ip.d)
  }

  /** Without a connection the three addresses are printed as "0". */
  function Shown(reason: Reason, ip: Ip): string
  {
    if reason == ConnectionOk then DottedQuad(ip) else "0"
  }

  function Tail(reason: Reason, info: IpInfo): string
  {
    ",\"ip\":\"" + Shown(reason, info.ip) + "\",\"netmask\":\"" + Shown(reason, info.netmask)
    + "\",\"gw\":\"" + Shown(reason, info.gw) + "\",\"urc\":" + Decimal(Code(reason)) + "}\n"
  }

  /** The whole text, had the buffer no end. */
  function Text(ssid: string, reason: Reason, info: IpInfo): string
  {
    "{\"ssid\":" + Quoted(ssid) + Tail(reason, info)
  }

  lemma QuadShape(ip: Ip)
    ensures 7 <= |DottedQuad(ip)| <= 15
    ensures forall k :: 0 <= k < |DottedQuad(ip)| ==> Plain(DottedQuad(ip)[k])
    ensures NUL !in DottedQuad(ip)
  {
    NaturalLength(ip.a);
    NaturalLength(ip.b);
    NaturalLength(ip.c);
    NaturalLength(ip.d);
    DotsAndDigits(Natural(ip.a), Natural(ip.b), Natural(ip.c), Natural(ip.d));
  }

  lemma DotsAndDigits(a: string, b: string, c: string, d: string)
    requires forall x :: x in a || x in b || x in c || x in d ==> '0' <= x <= '9'
    ensures var s := a + "." + b + "." + c + "." + d;
            NUL !in s && forall k :: 0 <= k < |s| ==> Plain(s[k])
  {
    var s := a + "." + b + "." + c + "." + d;
    forall k | 0 <= k < |s| ensures Plain(s[k]) {
      assert s[k] in s;
    }
  }

  lemma ShownShape(reason: Reason, ip: Ip)
    ensures 1 <= |Shown(reason, ip)| <= 15
    ensures forall k :: 0 <= k < |Shown(reason, ip)| ==> Plain(Shown(reason, ip)[k])
    ensures NUL !in Shown(reason, ip)
  {
    QuadShape(ip);
  }

  /** The length of the text, the SSID escaped. */
  lemma TextLength(ssid: string, reason: Reason, info: IpInfo)
    ensures |Text(ssid, reason, info)|
         == |ssid| + EscapeCount(ssid) + 49
            + |Shown(reason, info.ip)| + |Shown(reason, info.netmask)| + |Shown(reason, info.gw)|
  {
    EscapedLength(ssid);
    NaturalLength(Code(reason));
    assert |Quoted(ssid)| == |ssid| + EscapeCount(ssid) + 2;
    TailLength(Shown(reason, info.ip), Shown(reason, info.netmask), Shown(reason, info.gw), reason);
  }

  lemma TailLength(ip: string, netmask: string, gw: string, reason: Reason)
    ensures |",\"ip\":\"" + ip + "\",\"netmask\":\"" + netmask + "\",\"gw\":\"" + gw
             + "\",\"urc\":" + Decimal(Code(reason)) + "}\n"| == |ip| + |netmask| + |gw| + 39
  {
    NaturalLength(Code(reason));
  }

  lemma TailHasNoNul(reason: Reason, info: IpInfo)
    ensures NUL !in Tail(reason, info)
  {
    ShownShape(reason, info.ip);
    ShownShape(reason, info.netmask);
    ShownShape(reason, info.gw);
    DecimalHasNoNul(Code(reason));
    NoNulBetween(Shown(reason, info.ip), Shown(reason, info.netmask), Shown(reason, info.gw),
                 Decimal(Code(reason)));
  }

  lemma NoNulBetween(a: string, b: string, c: string, d: string)
    requires NUL !in a && NUL !in b && NUL !in c && NUL !in d
    ensures NUL !in ",\"ip\":\"" + a + "\",\"netmask\":\"" + b + "\",\"gw\":\"" + c
                    + "\",\"urc\":" + d + "}\n"
  {
  }

  /** The beginning of the text, printed without a look at the size of the buffer. */
  function Head(ssid: string): string
  {
    "{\"ssid\":" + Quoted(ssid)
  }

  const SIZE_LIMIT := 0x1_0000_0000

  /** The size passed to snprintf: an unsigned difference of 32 bits. */
  function Remaining(length: nat): (n: nat)
    ensures n < SIZE_LIMIT
  {
    (JSON_IP_INFO_SIZE - length) % SIZE_LIMIT
  }

  /** snprintf with a size of zero writes nothing at all. */
  function Appended(head: string, tail: string): string
  {
    head + if Remaining(|head|) == 0 then "" else Truncated(tail, Remaining(|head|))
  }

  /**
   * The array is the memory from the start of the buffer on, which has JSON_IP_INFO_SIZE bytes.
   * If the SSID leaves room, the text is cut where the buffer ends and nothing behind is touched.
   * If it ends one byte too late nothing follows it, and beyond that the size wraps round, so the
   * whole text is written past the end of the buffer.
   */
  method GenerateIpInfo(ssid: Option<seq<char>>, reason: Reason, info: IpInfo, memory: array<char>)
    requires memory.Length > JSON_IP_INFO_SIZE + 10
    requires ssid.Some? ==> NUL in ssid.value && memory.Length > 6 * |CString(ssid.value)| + 100
    modifies memory
    ensures ssid.None? ==> Holds(memory, "{}\n")
    ensures ssid.Some? ==>
              var s := CString(ssid.value);
              var varying := |s| + EscapeCount(s);
              && (varying <= 148 ==> Holds(memory, Truncated(Text(s, reason, info), JSON_IP_INFO_SIZE)))
              && (varying == 149 ==> Holds(memory, Head(s)) && |Head(s)| == JSON_IP_INFO_SIZE)
              && (149 < varying < 0x8000_0000 ==>
                    Holds(memory, Text(s, reason, info)) && |Text(s, reason, info)| > JSON_IP_INFO_SIZE)
    ensures (ssid.Some? ==> |CString(ssid.value)| + EscapeCount(CString(ssid.value)) <= 148) ==>
              forall k :: JSON_IP_INFO_SIZE <= k < memory.Length ==> memory[k] == old(memory[k])
  {
    hide Quoted, Tail, CString, EscapeCount, Remaining, Truncated, Text;
    if ssid.None? {
      StrCpy(memory, "{}\n");
      return;
    }
    ghost var s := CString(ssid.value);
    ghost var head := Head(s);
    SsidFitsIff(s);
    TailHasNoNul(reason, info);
    TailBound(reason, info);
    StrCpy(memory, "{\"ssid\":");
    AppendQuoted(memory, ssid.value, "{\"ssid\":");
    var length := StrLen(memory, head);
    var remaining := Remaining(length);
    if remaining != 0 {
      var rest := Truncated(Tail(reason, info), remaining);
      StrCat(memory, rest, head);
    } else {
      assert head + "" == head;
    }
    assert Holds(memory, Appended(head, Tail(reason, info)));
    WhatIsAppended(s, reason, info);
    RemainingIs(length);
    TextIsHeadAndTail(s, reason, info);
    TailLonger(reason, info);
  }

  lemma TailLonger(reason: Reason, info: IpInfo)
    ensures Tail(reason, info) != ""
  {
  }

  lemma TailBound(reason: Reason, info: IpInfo)
    ensures |Tail(reason, info)| <= 84
    ensures forall n: nat :: n > 0 ==>
              |Truncated(Tail(reason, info), n)| <= 84 && NUL !in Truncated(Tail(reason, info), n)
  {
    ShownShape(reason, info.ip);
    ShownShape(reason, info.netmask);
    ShownShape(reason, info.gw);
    TailLength(Shown(reason, info.ip), Shown(reason, info.netmask), Shown(reason, info.gw), reason);
    TailHasNoNul(reason, info);
  }

  lemma RemainingIs(length: nat)
    ensures length <= JSON_IP_INFO_SIZE ==> Remaining(length) == JSON_IP_INFO_SIZE - length
    ensures JSON_IP_INFO_SIZE < length < SIZE_LIMIT ==> Remaining(length) == SIZE_LIMIT + JSON_IP_INFO_SIZE - length
  {
  }

  lemma HeadLength(s: string)
    ensures |Head(s)| == |s| + EscapeCount(s) + 10
  {
    hide Quoted, EscapeCount;
    EscapedLength(s);
  }

  /** What the size makes of the text: cut, nothing after the SSID, or all of it. */
  lemma WhatIsAppended(s: string, reason: Reason, info: IpInfo)
    ensures var varying, text := |s| + EscapeCount(s), Appended(Head(s), Tail(reason, info));
            && (varying <= 148 ==> text == Truncated(Text(s, reason, info), JSON_IP_INFO_SIZE))
            && (varying == 149 ==> text == Head(s))
            && (149 < varying < 0x8000_0000 ==> text == Text(s, reason, info))
    ensures |Head(s)| == |s| + EscapeCount(s) + 10
  {
    hide Head, Tail, Text, EscapeCount, Remaining;
    HeadLength(s);
    RemainingIs(|Head(s)|);
    TailBound(reason, info);
    TextIsHeadAndTail(s, reason, info);
    if |Head(s)| < JSON_IP_INFO_SIZE {
      TruncatedTail(Head(s), Tail(reason, info), JSON_IP_INFO_SIZE);
    } else if |Head(s)| == JSON_IP_INFO_SIZE {
      assert Head(s) + "" == Head(s);
    }
  }

  lemma TextIsHeadAndTail(s: string, reason: Reason, info: IpInfo)
    ensures Text(s, reason, info) == Head(s) + Tail(reason, info)
  {
    hide Quoted, Tail;
  }

  /** Where the quoted SSID ends, and when that is inside the buffer. */
  lemma SsidFitsIff(ssid: string)
    ensures |Quoted(ssid)| + 8 < JSON_IP_INFO_SIZE <==> |ssid| + EscapeCount(ssid) <= 148
    ensures |Quoted(ssid)| <= 6 * |ssid| + 2
  {
    EscapedLength(ssid);
    EscapesAtMostFive(ssid);
  }

  lemma TruncatedTail(s: string, tail: string, size: nat)
    requires |s| < size
    ensures s + Truncated(tail, size - |s|) == Truncated(s + tail, size)
  {
  }

  // ------------------------------------------------------------------ main results

  predicate NoUnicodeEscape(s: string)
  {
    forall k :: 0 <= k < |s| ==> s[k] >= ' ' || Extra(s[k]) == 1
  }

  lemma {:induction false} EscapeCountBound(s: string)
    requires NoUnicodeEscape(s)
    ensures EscapeCount(s) <= |s|
  {
    if s != "" {
      EscapeCountBound(s[..|s| - 1]);
    }
  }

  /** An SSID of at most 32 characters without a \u escape never reaches the end of the buffer. */
  lemma NeverTruncated(ssid: string, reason: Reason, info: IpInfo)
    requires |ssid| <= 32 && NoUnicodeEscape(ssid)
    ensures Truncated(Text(ssid, reason, info), JSON_IP_INFO_SIZE) == Text(ssid, reason, info)
    ensures |Quoted(ssid)| + 8 < JSON_IP_INFO_SIZE
  {
    EscapeCountBound(ssid);
    EscapedLength(ssid);
    TextLength(ssid, reason, info);
    ShownShape(reason, info.ip);
    ShownShape(reason, info.netmask);
    ShownShape(reason, info.gw);
  }

  /** In general the text is complete exactly when what varies in it takes at most 109 bytes. */
  lemma CompleteIff(ssid: string, reason: Reason, info: IpInfo)
    ensures Truncated(Text(ssid, reason, info), JSON_IP_INFO_SIZE) == Text(ssid, reason, info)
            <==> |ssid| + EscapeCount(ssid) + |Shown(reason, info.ip)|
                 + |Shown(reason, info.netmask)| + |Shown(reason, info.gw)| <= 109
  {
    TextLength(ssid, reason, info);
  }

  const FULL := Ip(255, 255, 255, 255)

  /** The buffer has no byte to spare: 32 quotation marks and three full addresses fill it. */
  lemma BoundIsReached(ssid: string)
    requires |ssid| == 32 && forall k :: 0 <= k < |ssid| ==> ssid[k] == '\"'
    ensures |Text(ssid, ConnectionOk, IpInfo(FULL, FULL, FULL))| == JSON_IP_INFO_SIZE - 1
  {
    AllQuotes(ssid);
    TextLength(ssid, ConnectionOk, IpInfo(FULL, FULL, FULL));
    NaturalLength(255);
    assert |DottedQuad(FULL)| == 15;
  }

  /** With control characters it does not fit: eleven of them and full addresses are too long. */
  lemma ControlCharactersTruncate(ssid: string)
    requires |ssid| == 11 && forall k :: 0 <= k < |ssid| ==> ssid[k] == '\U{1}'
    ensures Truncated(Text(ssid, ConnectionOk, IpInfo(FULL, FULL, FULL)), JSON_IP_INFO_SIZE)
         != Text(ssid, ConnectionOk, IpInfo(FULL, FULL, FULL))
  {
    AllControl(ssid);
    CompleteIff(ssid, ConnectionOk, IpInfo(FULL, FULL, FULL));
    NaturalLength(255);
    assert |DottedQuad(FULL)| == 15;
  }

  /** With twenty-five of them the SSID alone is written past the end of the buffer. */
  lemma ControlCharactersOverrun(ssid: string)
    requires |ssid| == 25 && forall k :: 0 <= k < |ssid| ==> ssid[k] == '\U{1}'
    ensures |Quoted(ssid)| + 8 >= JSON_IP_INFO_SIZE
  {
    AllControl(ssid);
    SsidFitsIff(ssid);
  }

  lemma {:induction false} AllControl(s: string)
    requires forall k :: 0 <= k < |s| ==> s[k] == '\U{1}'
    ensures EscapeCount(s) == 5 * |s|
  {
    if s != "" {
      AllControl(s[..|s| - 1]);
    }
  }

  function StatusValue(ssid: string, reason: Reason, info: IpInfo): (v: Json)
    ensures v.Obj? && |v.members| == 5
  {
    Obj([Member("ssid", Str(ssid)), Member("ip", Str(Shown(reason, info.ip))),
         Member("netmask", Str(Shown(reason, info.netmask))),
         Member("gw", Str(Shown(reason, info.gw))), Member("urc", Num(Code(reason)))])
  }

  lemma FirstNamesPrint()
    ensures Quoted("ssid") == "\"ssid\"" && Quoted("ip") == "\"ip\""
    ensures Quoted("netmask") == "\"netmask\""
  {
    PlainPrints("ssid", "\"ssid\"");
    PlainPrints("ip", "\"ip\"");
    PlainPrints("netmask", "\"netmask\"");
  }

  lemma LastNamesPrint()
    ensures Quoted("gw") == "\"gw\"" && Quoted("urc") == "\"urc\""
  {
    PlainPrints("gw", "\"gw\"");
    PlainPrints("urc", "\"urc\"");
  }

  lemma ShownPrints(reason: Reason, ip: Ip)
    ensures Print(Str(Shown(reason, ip))) == "\"" + Shown(reason, ip) + "\""
  {
    ShownShape(reason, ip);
    PlainPrints(Shown(reason, ip), "\"" + Shown(reason, ip) + "\"");
  }

  /** The complete text decodes to the five fields it was made from. */
  lemma StatusDecodes(ssid: string, reason: Reason, info: IpInfo)
    ensures ParseText(Text(ssid, reason, info)) == Done(StatusValue(ssid, reason, info), "")
  {
    TextIsPrinted(ssid, reason, info);
    PrintLineParses(StatusValue(ssid, reason, info));
  }

  /** An address in dotted decimal, read back: four numbers below 256 with dots between them. */
  function ParseQuad(s: string): Option<Ip>
  {
    var a := ParseOctet(s, ".");
    if a.Fail? then None
    else
      var b := ParseOctet(a.rest, ".");
      if b.Fail? then None
      else
        var c := ParseOctet(b.rest, ".");
        if c.Fail? then None
        else
          var d := ParseOctet(c.rest, "");
          if d.Fail? || d.rest != "" then None else Some(Ip(a.value, b.value, c.value, d.value))
  }

  function ParseOctet(s: string, end: string): Parsed<octet>
  {
    if !StartsWithDigit(s) then Fail
    else
      var p := ParseDigits(s, 0);
      if p.value < 256 && end <= p.rest then Done(p.value, p.rest[|end|..]) else Fail
  }

  lemma OctetParses(n: octet, end: string, rest: string)
    requires rest == "" || !IsDigit(rest[0])
    requires end <= rest
    ensures ParseOctet(Natural(n) + rest, end) == Done(n, rest[|end|..])
  {
    NaturalFirst(n);
    DigitsParse(n, rest);
  }

  lemma QuadParses(ip: Ip)
    ensures ParseQuad(DottedQuad(ip)) == Some(ip)
  {
    hide Natural, ParseOctet;
    var d := Natural(ip.d);
    var c := Natural(ip.c) + ("." + d);
    var b := Natural(ip.b) + ("." + c);
    assert DottedQuad(ip) == Natural(ip.a) + ("." + b);
    OctetParses(ip.a, ".", "." + b);
    OctetParses(ip.b, ".", "." + c);
    OctetParses(ip.c, ".", "." + d);
    OctetParses(ip.d, "", "");
    assert d + "" == d && ("." + b)[1..] == b && ("." + c)[1..] == c && ("." + d)[1..] == d && ""[0..] == "";
  }

  /** The field shows the address of a connection, and "0" without one. */
  predicate Shows(v: Json, name: string, reason: Reason, ip: Ip)
  {
    var f := Field(v, name);
    && f.Some? && f.value.Str?
    && if reason == ConnectionOk then ParseQuad(f.value.text) == Some(ip) else f.value.text == "0"
  }

  /** What the web page reads from the complete text. */
  lemma StatusFields(ssid: string, reason: Reason, info: IpInfo)
    ensures var p := ParseText(Text(ssid, reason, info));
            && p.Done?
            && Field(p.value, "ssid") == Some(Str(ssid))
            && Shows(p.value, "ip", reason, info.ip)
            && Shows(p.value, "netmask", reason, info.netmask)
            && Shows(p.value, "gw", reason, info.gw)
            && Field(p.value, "urc")
               == Some(Num(if reason == ConnectionOk then 0
                           else if reason == FailedAttempt then 1
                           else if reason == UserDisconnect then 2
                           else 3))
  {
    hide ParseText, Text, DottedQuad, ParseQuad, Find;
    StatusDecodes(ssid, reason, info);
    var ms := StatusValue(ssid, reason, info).members;
    FoundAt(ms, 0);
    FoundAt(ms, 1);
    FoundAt(ms, 2);
    FoundAt(ms, 3);
    FoundAt(ms, 4);
    QuadParses(info.ip);
    QuadParses(info.netmask);
    QuadParses(info.gw);
  }

  lemma TextIsPrinted(ssid: string, reason: Reason, info: IpInfo)
    ensures Text(ssid, reason, info) == Print(StatusValue(ssid, reason, info)) + "\n"
  {
    hide Quoted, DottedQuad, Shown, Decimal;
    var v := StatusValue(ssid, reason, info);
    var ip, netmask, gw := Shown(reason, info.ip), Shown(reason, info.netmask), Shown(reason, info.gw);
    ShownPrints(reason, info.ip);
    ShownPrints(reason, info.netmask);
    ShownPrints(reason, info.gw);
    FirstNamesPrint();
    LastNamesPrint();
    PrintedStatus(v, Quoted(ssid), ip, netmask, gw, Decimal(Code(reason)));
  }

  lemma PrintedStatus(v: Json, q: string, ip: string, netmask: string, gw: string, urc: string)
    requires v.Obj? && |v.members| == 5
    requires Quoted(v.members[0].name) == "\"ssid\"" && Print(v.members[0].value) == q
    requires Quoted(v.members[1].name) == "\"ip\"" && Print(v.members[1].value) == "\"" + ip + "\""
    requires Quoted(v.members[2].name) == "\"netmask\""
    requires Print(v.members[2].value) == "\"" + netmask + "\""
    requires Quoted(v.members[3].name) == "\"gw\"" && Print(v.members[3].value) == "\"" + gw + "\""
    requires Quoted(v.members[4].name) == "\"urc\"" && Print(v.members[4].value) == urc
    ensures Print(v) + "\n"
         == "{\"ssid\":" + q + (",\"ip\":\"" + ip + "\",\"netmask\":\"" + netmask
            + "\",\"gw\":\"" + gw + "\",\"urc\":" + urc + "}\n")
  {
    FiveMembers(v.members, "\"ssid\"", q, "\"ip\"", ip, "\"netmask\"", netmask, "\"gw\"", gw,
                "\"urc\"", urc);
    Layout(q, ip, netmask, gw, urc);
  }

  lemma FiveMembers(ms: seq<Member>, n0: string, v0: string, n1: string, v1: string, n2: string,
                    v2: string, n3: string, v3: string, n4: string, v4: string)
    requires |ms| == 5
    requires Quoted(ms[0].name) == n0 && Print(ms[0].value) == v0
    requires Quoted(ms[1].name) == n1 && Print(ms[1].value) == "\"" + v1 + "\""
    requires Quoted(ms[2].name) == n2 && Print(ms[2].value) == "\"" + v2 + "\""
    requires Quoted(ms[3].name) == n3 && Print(ms[3].value) == "\"" + v3 + "\""
    requires Quoted(ms[4].name) == n4 && Print(ms[4].value) == v4
    ensures PrintMembers(ms)
         == n0 + (":" + (v0 + TextMember(n1, v1, TextMember(n2, v2, TextMember(n3, v3, NumberMember(n4, v4))))))
  {
    MemberText(ms, 4);
    MemberText(ms, 3);
    MemberText(ms, 2);
    MemberText(ms, 1);
    MemberText(ms, 0);
    assert ms[0..] == ms;
  }

  // The two layouts of the object, part by part.

  function NumberMember(name: string, v: string): string
  {
    "," + (name + (":" + (v + "")))
  }

  function TextMember(name: string, v: string, rest: string): string
  {
    "," + (name + (":" + (("\"" + v + "\"") + rest)))
  }

  lemma TextPart(name: string, open: string, v: string, rest: string, end: string, tail: string)
    requires (rest + "}") + "\n" == tail
    requires open == "," + name + ":\"" && end == "\"" + tail
    ensures (TextMember(name, v, rest) + "}") + "\n" == open + (v + end)
  {
    assert (TextMember(name, v, rest) + "}") + "\n" == TextMember(name, v, (rest + "}") + "\n");
  }

  lemma NumberPart(name: string, open: string, v: string)
    requires open == "," + name + ":"
    ensures (NumberMember(name, v) + "}") + "\n" == open + (v + "}\n")
  {
  }

  lemma FirstPart(name: string, open: string, q: string, rest: string)
    requires open == "{" + name + ":"
    ensures ("{" + (name + (":" + (q + rest))) + "}") + "\n" == (open + q) + ((rest + "}") + "\n")
  {
  }

  lemma Chain(a: string, b: string, c: string, d: string, e: string, f: string, g: string, h: string,
              i: string)
    ensures a + b + c + d + e + f + g + h + i
         == a + (b + (c + (d + (e + (f + (g + (h + i)))))))
  {
  }

  lemma Layout(q: string, ip: string, netmask: string, gw: string, urc: string)
    ensures ("{" + ("\"ssid\"" + (":" + (q + TextMember("\"ip\"", ip, TextMember("\"netmask\"", netmask,
               TextMember("\"gw\"", gw, NumberMember("\"urc\"", urc))))))) + "}") + "\n"
         == "{\"ssid\":" + q + (",\"ip\":\"" + ip + "\",\"netmask\":\"" + netmask
            + "\",\"gw\":\"" + gw + "\",\"urc\":" + urc + "}\n")
  {
    var u4 := NumberMember("\"urc\"", urc);
    var u3 := TextMember("\"gw\"", gw, u4);
    var u2 := TextMember("\"netmask\"", netmask, u3);
    var t4 := urc + "}\n";
    NumberPart("\"urc\"", ",\"urc\":", urc);
    Opening(",\"urc\":", "\",\"urc\":", t4);
    TextPart("\"gw\"", ",\"gw\":\"", gw, u4, "\",\"urc\":" + t4, ",\"urc\":" + t4);
    var t3 := gw + ("\",\"urc\":" + t4);
    Opening(",\"gw\":\"", "\",\"gw\":\"", t3);
    TextPart("\"netmask\"", ",\"netmask\":\"", netmask, u3, "\",\"gw\":\"" + t3, ",\"gw\":\"" + t3);
    var t2 := netmask + ("\",\"gw\":\"" + t3);
    Opening(",\"netmask\":\"", "\",\"netmask\":\"", t2);
    TextPart("\"ip\"", ",\"ip\":\"", ip, u2, "\",\"netmask\":\"" + t2, ",\"netmask\":\"" + t2);
    FirstPart("\"ssid\"", "{\"ssid\":", q, TextMember("\"ip\"", ip, u2));
    Chain(",\"ip\":\"", ip, "\",\"netmask\":\"", netmask, "\",\"gw\":\"", gw, "\",\"urc\":", urc, "}\n");
  }

  lemma Opening(open: string, closed: string, t: string)
    requires closed == "\"" + open
    ensures closed + t == "\"" + (open + t)
  {
  }
}
