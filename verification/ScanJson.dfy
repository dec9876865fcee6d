/** The access point list as the web page gets it: the filtered scan, printed as a JSON array. */
module ScanJson {
  import opened Decimals
  import opened Wrappers
  import opened Json
  import opened JsonPrinter
  import opened CStrings
  import opened ApFilter

  const MAX_AP_NUM := 15
  const JSON_ONE_APP_SIZE := 99
  const BUFFER_SIZE := MAX_AP_NUM * JSON_ONE_APP_SIZE + 4
  const SSID_SIZE := 32
  /** No entry is longer: every character of the SSID a \u escape, and the longest numbers. */
  const LONGEST_ENTRY := SSID_SIZE * 6 + 45

  /** The integer widths of the record's fields; authmode is one of the driver's few codes. */
  predicate InRange(ap: Ap)
  {
    |ap.ssid| <= SSID_SIZE && NUL !in ap.ssid && 0 <= ap.primary < 256 && -128 <= ap.rssi < 128 && 0 <= ap.authmode < 10
  }

  /** The part of an entry that snprintf prints. */
  function Numbers(ap: Ap, last: bool): string
  {
    ",\"chan\":" + Decimal(ap.primary) + ",\"rssi\":" + Decimal(ap.rssi) + ",\"auth\":"
    + Decimal(ap.authmode) + "}" + (if last then "]" else ",") + "\n"
  }

  function Entry(ap: Ap, last: bool): string
  {
    "{\"ssid\":" + Quoted(ap.ssid) + Numbers(ap, last)
  }

  function Join(parts: seq<string>): string
  {
    if parts == [] then "" else Join(parts[..|parts| - 1]) + parts[|parts| - 1]
  }

  function EntryTexts(aps: seq<Ap>): (parts: seq<string>)
    ensures |parts| == |aps|
    ensures forall i :: 0 <= i < |aps| ==> parts[i] == Entry(aps[i], i == |aps| - 1)
  {
    seq(|aps|, i requires 0 <= i < |aps| => Entry(aps[i], i == |aps| - 1))
  }

  function Rendered(aps: seq<Ap>): string
  {
    "[" + Join(EntryTexts(aps))
  }

  lemma NumbersLength(ap: Ap, last: bool)
    requires InRange(ap)
    ensures |Numbers(ap, last)| <= 35 < JSON_ONE_APP_SIZE
    ensures NUL !in Numbers(ap, last)
  {
    NaturalLength(ap.primary);
    NaturalLength(if ap.rssi < 0 then -ap.rssi else ap.rssi);
    NaturalLength(ap.authmode);
    DecimalHasNoNul(ap.primary);
    DecimalHasNoNul(ap.rssi);
    DecimalHasNoNul(ap.authmode);
  }

  lemma {:induction false} JoinGrows(parts: seq<string>, i: nat)
    requires i <= |parts|
    ensures |Join(parts[..i])| <= |Join(parts)|
    decreases |parts| - i
  {
    if i == |parts| {
      assert parts[..i] == parts;
    } else {
      JoinSnoc(parts, i);
      JoinGrows(parts, i + 1);
    }
  }

  lemma JoinSnoc(parts: seq<string>, i: nat)
    requires i < |parts|
    ensures Join(parts[..i + 1]) == Join(parts[..i]) + parts[i]
  {
    assert parts[..i + 1][..i] == parts[..i];
  }

  /** One entry: a fixed opening, the escaped SSID, the numbers. */
  method AppendEntry(buf: array<char>, ap: Ap, last: bool, ghost s: string)
    requires Holds(buf, s) && InRange(ap) && |s| + |Entry(ap, last)| < buf.Length
    modifies buf
    ensures Holds(buf, s + Entry(ap, last))
    ensures forall k :: |s + Entry(ap, last)| < k < buf.Length ==> buf[k] == old(buf[k])
  {
    NumbersLength(ap, last);
    StrCat(buf, "{\"ssid\":", s);
    CStringOf(ap.ssid, []);
    assert ap.ssid + [NUL] + [] == ap.ssid + [NUL];
    AppendQuoted(buf, ap.ssid + [NUL], s + "{\"ssid\":");
    var oneAp := Truncated(Numbers(ap, last), JSON_ONE_APP_SIZE);
    StrCat(buf, oneAp, s + "{\"ssid\":" + Quoted(ap.ssid));
    Nested(s, "{\"ssid\":", Quoted(ap.ssid), oneAp);
  }

  lemma Nested(a: string, b: string, c: string, d: string)
    ensures ((a + b) + c) + d == a + (b + c + d)
    ensures (a + b) + c == a + (b + c)
  {
  }

  /**
   * The array is the memory from the start of the list's buffer on; only its first BUFFER_SIZE
   * bytes are the buffer. The code does not look at that size: it writes the whole text, and
   * nothing behind it.
   */
  method GenerateList(records: array<Ap>, apNum: nat, memory: array<char>)
    requires apNum <= records.Length
    requires forall i :: 0 <= i < apNum ==> InRange(records[i])
    requires memory.Length > 1 + apNum * LONGEST_ENTRY
    modifies memory
    ensures Holds(memory, Rendered(records[..apNum]))
    ensures forall k :: |Rendered(records[..apNum])| < k < memory.Length ==> memory[k] == old(memory[k])
  {
    ghost var aps := records[..apNum];
    RenderedBound(aps);
    PrintEntries(records, apNum, memory);
  }

  method PrintEntries(records: array<Ap>, apNum: nat, buf: array<char>)
    requires apNum <= records.Length
    requires forall i :: 0 <= i < apNum ==> InRange(records[i])
    requires |Rendered(records[..apNum])| < buf.Length
    modifies buf
    ensures Holds(buf, Rendered(records[..apNum]))
    ensures forall k :: |Rendered(records[..apNum])| < k < buf.Length ==> buf[k] == old(buf[k])
  {
    hide Entry, Numbers, Quoted, InRange;
    ghost var aps := records[..apNum];
    ghost var parts := EntryTexts(aps);
    StrCpy(buf, "[");
    var i := 0;
    while i < apNum
      invariant 0 <= i <= apNum
      invariant Holds(buf, "[" + Join(parts[..i]))
      invariant forall k :: |Rendered(aps)| < k < buf.Length ==> buf[k] == old(buf[k])
    {
      JoinSnoc(parts, i);
      JoinGrows(parts, i + 1);
      Nested("[", Join(parts[..i]), parts[i], "");
      AppendEntry(buf, records[i], i == apNum - 1, "[" + Join(parts[..i]));
      i := i + 1;
    }
    assert parts[..apNum] == parts;
  }

  // ----------------------------------------------------------- what the text says

  function ApJson(ap: Ap): Json
  {
    Obj([Member("ssid", Str(ap.ssid)), Member("chan", Num(ap.primary)),
         Member("rssi", Num(ap.rssi)), Member("auth", Num(ap.authmode))])
  }

  function ListJson(aps: seq<Ap>): (v: Json)
    ensures v.Arr? && |v.items| == |aps|
  {
    Arr(seq(|aps|, i requires 0 <= i < |aps| => ApJson(aps[i])))
  }

  lemma EntryIsPrinted(ap: Ap, last: bool)
    ensures Entry(ap, last) == Print(ApJson(ap)) + if last then "]\n" else ",\n"
  {
    var q, a, b, c := Quoted(ap.ssid), Decimal(ap.primary), Decimal(ap.rssi), Decimal(ap.authmode);
    PrintApJson(ap);
    Reassociate("{\"ssid\":", q, ",\"chan\":", a, ",\"rssi\":", b, ",\"auth\":", c, "}",
                if last then "]" else ",", "\n");
    assert (if last then "]" else ",") + "\n" == if last then "]\n" else ",\n";
  }

  lemma PrintApJson(ap: Ap)
    ensures Print(ApJson(ap))
         == "{\"ssid\":" + (Quoted(ap.ssid) + (",\"chan\":" + (Decimal(ap.primary)
            + (",\"rssi\":" + (Decimal(ap.rssi) + (",\"auth\":" + (Decimal(ap.authmode) + "}")))))))
  {
    hide Quoted, Decimal;
    NamesPrint();
    FourMembers(ApJson(ap).members,
                "\"ssid\"", Quoted(ap.ssid), "\"chan\"", Decimal(ap.primary),
                "\"rssi\"", Decimal(ap.rssi), "\"auth\"", Decimal(ap.authmode));
    Braces(Quoted(ap.ssid), Decimal(ap.primary), Decimal(ap.rssi), Decimal(ap.authmode));
  }

  lemma NamesPrint()
    ensures Quoted("ssid") == "\"ssid\"" && Quoted("chan") == "\"chan\""
    ensures Quoted("rssi") == "\"rssi\"" && Quoted("auth") == "\"auth\""
  {
    hide Quoted;
    PlainPrints("ssid", "\"ssid\"");
    PlainPrints("chan", "\"chan\"");
    PlainPrints("rssi", "\"rssi\"");
    PlainPrints("auth", "\"auth\"");
  }

  lemma FourMembers(ms: seq<Member>, n0: string, v0: string, n1: string, v1: string, n2: string,
                    v2: string, n3: string, v3: string)
    requires |ms| == 4
    requires Quoted(ms[0].name) == n0 && Print(ms[0].value) == v0
    requires Quoted(ms[1].name) == n1 && Print(ms[1].value) == v1
    requires Quoted(ms[2].name) == n2 && Print(ms[2].value) == v2
    requires Quoted(ms[3].name) == n3 && Print(ms[3].value) == v3
    ensures PrintMembers(ms) == n0 + (":" + (v0 + ("," + (n1 + (":" + (v1 + ("," + (n2
            + (":" + (v2 + ("," + (n3 + (":" + (v3 + ""))))))))))))))
  {
    MemberText(ms, 3);
    MemberText(ms, 2);
    MemberText(ms, 1);
    MemberText(ms, 0);
    assert ms[0..] == ms;
  }

  lemma Braces(q: string, a: string, b: string, c: string)
    ensures "{" + ("\"ssid\"" + (":" + (q + ("," + ("\"chan\"" + (":" + (a + ("," + ("\"rssi\""
            + (":" + (b + ("," + ("\"auth\"" + (":" + (c + ""))))))))))))))) + "}"
         == "{\"ssid\":" + (q + (",\"chan\":" + (a + (",\"rssi\":" + (b + (",\"auth\":" + (c + "}")))))))
  {
    var t3 := c + "}";
    var t2 := b + (",\"auth\":" + t3);
    var t1 := a + (",\"rssi\":" + t2);
    assert (c + "") + "}" == t3;
    assert (b + ("," + ("\"auth\"" + (":" + (c + ""))))) + "}" == t2;
    assert (a + ("," + ("\"rssi\"" + (":" + (b + ("," + ("\"auth\"" + (":" + (c + ""))))))))) + "}" == t1;
  }

  lemma Reassociate(k0: string, q: string, k1: string, a: string, k2: string, b: string, k3: string,
                    c: string, close: string, e: string, eol: string)
    ensures k0 + q + (k1 + a + k2 + b + k3 + c + close + e + eol)
         == (k0 + (q + (k1 + (a + (k2 + (b + (k3 + (c + close)))))))) + (e + eol)
  {
  }

  // ------------------------------------------------------------------- main results

  lemma {:induction false} JoinIsItems(parts: seq<string>, items: seq<Json>, i: nat)
    requires |parts| == |items| && i < |items|
    requires forall k :: 0 <= k < |items| ==>
               parts[k] == Print(items[k]) + if k == |items| - 1 then "]\n" else ",\n"
    ensures JoinFrom(parts, i) == PrintItems(items[i..]) + "]\n"
    decreases |items| - i
  {
    if i == |items| - 1 {
      assert JoinFrom(parts, i + 1) == "";
      assert parts[i] + "" == parts[i];
      LastItemText(items[i..], "]\n");
    } else {
      JoinIsItems(parts, items, i + 1);
      assert items[i..][1..] == items[i + 1..];
      MoreItemsText(items[i..], "]\n");
      Comma(Print(items[i]), PrintItems(items[i + 1..]) + "]\n");
    }
  }

  lemma Comma(p: string, rest: string)
    ensures (p + ",\n") + rest == p + (",\n" + rest)
  {
  }

  /** The concatenation of the parts from i on. */
  function JoinFrom(parts: seq<string>, i: nat): string
    requires i <= |parts|
    decreases |parts| - i
  {
    if i == |parts| then "" else parts[i] + JoinFrom(parts, i + 1)
  }

  lemma {:induction false} JoinSplits(parts: seq<string>, i: nat)
    requires i <= |parts|
    ensures Join(parts) == Join(parts[..i]) + JoinFrom(parts, i)
    decreases |parts| - i
  {
    if i == |parts| {
      assert parts[..i] == parts;
    } else {
      JoinSplits(parts, i + 1);
      JoinSnoc(parts, i);
      assert (Join(parts[..i]) + parts[i]) + JoinFrom(parts, i + 1)
          == Join(parts[..i]) + (parts[i] + JoinFrom(parts, i + 1));
    }
  }

  lemma Brackets(joined: string, t: string)
    requires joined == "" + (t + "]\n")
    ensures "[" + joined == ("[" + t + "]") + "\n"
  {
  }

  /** A non-empty list is one well-formed JSON array that decodes to exactly its records in order. */
  lemma ListDecodes(aps: seq<Ap>)
    requires aps != []
    ensures ParseText(Rendered(aps)) == Done(ListJson(aps), "")
  {
    var v, parts := ListJson(aps), EntryTexts(aps);
    forall k | 0 <= k < |aps|
      ensures parts[k] == Print(v.items[k]) + if k == |aps| - 1 then "]\n" else ",\n"
    {
      EntryIsPrinted(aps[k], k == |aps| - 1);
    }
    JoinSplits(parts, 0);
    JoinIsItems(parts, v.items, 0);
    assert v.items[0..] == v.items && parts[..0] == [];
    Brackets(Join(parts), PrintItems(v.items));
    PrintLineParses(v);
  }

  /** What the web page reads from the text: for every record an object with its name and numbers. */
  lemma ListFields(aps: seq<Ap>, i: nat)
    requires i < |aps|
    ensures var p := ParseText(Rendered(aps));
            && p.Done? && p.value.Arr? && |p.value.items| == |aps|
            && Field(p.value.items[i], "ssid") == Some(Str(aps[i].ssid))
            && Field(p.value.items[i], "chan") == Some(Num(aps[i].primary))
            && Field(p.value.items[i], "rssi") == Some(Num(aps[i].rssi))
            && Field(p.value.items[i], "auth") == Some(Num(aps[i].authmode))
  {
    ListDecodes(aps);
    ApFields(aps[i]);
  }

  lemma ApFields(ap: Ap)
    ensures Field(ApJson(ap), "ssid") == Some(Str(ap.ssid)) && Field(ApJson(ap), "chan") == Some(Num(ap.primary))
    ensures Field(ApJson(ap), "rssi") == Some(Num(ap.rssi)) && Field(ApJson(ap), "auth") == Some(Num(ap.authmode))
  {
    var ms := ApJson(ap).members;
    FoundAt(ms, 0);
    FoundAt(ms, 1);
    FoundAt(ms, 2);
    FoundAt(ms, 3);
  }

  /** An empty list is left unclosed and is not JSON. */
  lemma EmptyListIsUnclosed()
    ensures Rendered([]) == "[" && ParseText(Rendered([])).Fail?
  {
    assert EntryTexts([]) == [];
    assert Rendered([]) == "[";
    assert "["[1..] == "";
    assert ParseItems("").Fail?;
  }

  /**
   * From raw scan to web page: the text decodes to the unique networks of the scan if and only
   * if the scan holds at least one network with a name.
   */
  lemma ScanTextDecodes(scan: seq<Ap>)
    ensures ParseText(Rendered(Unique(scan))) == Done(ListJson(Unique(scan)), "")
            <==> exists i :: 0 <= i < |scan| && scan[i].ssid != ""
  {
    UniqueNonEmpty(scan);
    if Unique(scan) != [] {
      ListDecodes(Unique(scan));
    } else {
      EmptyListIsUnclosed();
    }
  }

  // ------------------------------------------------------------------- the buffer

  /** What varies in an entry: the escaped SSID and the three numbers. */
  function Varying(ap: Ap): nat
  {
    |ap.ssid| + EscapeCount(ap.ssid) + |Decimal(ap.primary)| + |Decimal(ap.rssi)| + |Decimal(ap.authmode)|
  }

  function VaryingAll(aps: seq<Ap>): nat
  {
    if aps == [] then 0 else VaryingAll(aps[..|aps| - 1]) + Varying(aps[|aps| - 1])
  }

  /** The length of an entry, its SSID escaped; 99 bytes are enough up to 62 varying ones. */
  lemma EntryLength(ap: Ap, last: bool)
    ensures |Entry(ap, last)| == Varying(ap) + 37
    ensures |Entry(ap, last)| <= JSON_ONE_APP_SIZE <==> Varying(ap) <= 62
  {
    EscapedLength(ap.ssid);
  }

  lemma {:induction false} JoinLength(parts: seq<string>, aps: seq<Ap>)
    requires |parts| == |aps|
    requires forall k :: 0 <= k < |aps| ==> |parts[k]| == Varying(aps[k]) + 37
    ensures |Join(parts)| == VaryingAll(aps) + 37 * |aps|
  {
    hide Varying;
    if parts != [] {
      JoinLength(parts[..|parts| - 1], aps[..|aps| - 1]);
    }
  }

  /** The length of the whole list. */
  lemma RenderedLength(aps: seq<Ap>)
    ensures |Rendered(aps)| == 1 + VaryingAll(aps) + 37 * |aps|
  {
    hide Entry, Varying;
    forall k | 0 <= k < |aps| ensures |EntryTexts(aps)[k]| == Varying(aps[k]) + 37 {
      EntryLength(aps[k], k == |aps| - 1);
    }
    JoinLength(EntryTexts(aps), aps);
  }

  /** The text and its NUL lie in the allocated buffer exactly up to this length of what varies. */
  lemma FitsIff(aps: seq<Ap>)
    ensures |Rendered(aps)| < BUFFER_SIZE <==> VaryingAll(aps) + 37 * |aps| <= 1487
  {
    RenderedLength(aps);
  }

  lemma EntryBound(ap: Ap)
    requires InRange(ap)
    ensures Varying(ap) + 37 <= LONGEST_ENTRY
  {
    EscapesAtMostFive(ap.ssid);
    NaturalLength(ap.primary);
    NaturalLength(if ap.rssi < 0 then -ap.rssi else ap.rssi);
    NaturalLength(ap.authmode);
  }

  lemma {:induction false} VaryingBound(aps: seq<Ap>, size: nat)
    requires forall k :: 0 <= k < |aps| ==> Varying(aps[k]) + 37 <= size
    ensures VaryingAll(aps) + 37 * |aps| <= |aps| * size
  {
    hide Varying;
    if aps != [] {
      VaryingBound(aps[..|aps| - 1], size);
    }
  }

  lemma RenderedBound(aps: seq<Ap>)
    requires forall k :: 0 <= k < |aps| ==> InRange(aps[k])
    ensures |Rendered(aps)| <= 1 + |aps| * LONGEST_ENTRY
  {
    hide Varying, InRange;
    forall k | 0 <= k < |aps| ensures Varying(aps[k]) + 37 <= LONGEST_ENTRY { EntryBound(aps[k]); }
    VaryingBound(aps, LONGEST_ENTRY);
    RenderedLength(aps);
  }

  /** Entries within their slot fit the allocated buffer. */
  lemma ListFits(aps: seq<Ap>)
    requires |aps| <= MAX_AP_NUM
    requires forall k :: 0 <= k < |aps| ==> Varying(aps[k]) <= 62
    ensures |Rendered(aps)| < BUFFER_SIZE
  {
    VaryingBound(aps, JSON_ONE_APP_SIZE);
    FitsIff(aps);
  }

  const WORST := Ap(seq(32, _ => '\"'), 3, -100, 100, 0)

  /**
   * The 99 bytes set aside for an entry are ten short: 32 quotation marks, a three-digit channel
   * and a three-digit signal take 109, and fifteen such entries do not fit the buffer.
   */
  lemma SlotIsTenShort()
    ensures |Entry(WORST, false)| == JSON_ONE_APP_SIZE + 10
    ensures |Rendered(seq(MAX_AP_NUM, _ => WORST))| >= BUFFER_SIZE
  {
    AllQuotes(WORST.ssid);
    EntryLength(WORST, false);
    NaturalLength(100);
    NaturalLength(3);
    assert |Decimal(-100)| == 4;
    var aps := seq(MAX_AP_NUM, _ => WORST);
    VaryingSame(aps, 72);
    FitsIff(aps);
  }

  lemma {:induction false} VaryingSame(aps: seq<Ap>, size: nat)
    requires forall k :: 0 <= k < |aps| ==> Varying(aps[k]) == size
    ensures VaryingAll(aps) == |aps| * size
  {
    hide Varying;
    if aps != [] {
      VaryingSame(aps[..|aps| - 1], size);
    }
  }

  /**
   * A successful scan: the records are filtered in place and the list is printed, inside its
   * buffer exactly when the networks found vary by few enough bytes.
   */
  method ScanDone(records: array<Ap>, found: nat, memory: array<char>) returns (apNum: nat)
    requires found <= MAX_AP_NUM && found <= records.Length
    requires forall i :: 0 <= i < found ==> InRange(records[i])
    requires memory.Length > 1 + MAX_AP_NUM * LONGEST_ENTRY
    modifies records, memory
    ensures var networks := Unique(old(records[..found]));
            && apNum == |networks| && records[..apNum] == networks
            && Holds(memory, Rendered(networks))
            && (forall k :: |Rendered(networks)| < k < memory.Length ==> memory[k] == old(memory[k]))
            && (|Rendered(networks)| < BUFFER_SIZE <==> VaryingAll(networks) + 37 * |networks| <= 1487)
  {
    hide Unique, Rendered, VaryingAll;
    ghost var scan := records[..found];
    apNum := FilterUnique(records, found);
    UniqueInRange(scan);
    FitsIff(Unique(scan));
    forall i | 0 <= i < apNum ensures InRange(records[i]) {
      assert records[i] == records[..apNum][i];
    }
    GenerateList(records, apNum, memory);
  }

  lemma UniqueInRange(scan: seq<Ap>)
    requires forall i :: 0 <= i < |scan| ==> InRange(scan[i])
    ensures forall k :: 0 <= k < |Unique(scan)| ==> InRange(Unique(scan)[k])
  {
    UniqueIsFirstOfEachNetwork(scan);
    var h := Heads(scan, |scan|);
    forall k | 0 <= k < |h| ensures InRange(Unique(scan)[k]) {
      StrongestIsMax(scan, h[k], |scan|);
    }
  }
}
