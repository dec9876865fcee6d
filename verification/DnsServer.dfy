/** The captive portal's DNS answer: whatever is asked, the access point's own address. */
module DnsServer {
  import opened Bits
  import opened Wrappers
  import opened DnsMessage

  const DNS_QUERY_MAX_SIZE := 80
  const ANSWER_SIZE := 16
  const DNS_ANSWER_MAX_SIZE := DNS_QUERY_MAX_SIZE + 16

  type Address = a: seq<byte> | |a| == 4 witness [0, 0, 0, 0]

  /** The answer record: a pointer to offset 12, type A, class IN, no caching, the address. */
  function Answer(ip: Address): (a: seq<byte>)
    ensures |a| == ANSWER_SIZE
  {
    [0xC0, 0x0C, 0, 1, 0, 1, 0, 0, 0, 0, 0, 4] + ip
  }

  /** The header of the response. */
  function Turned(q: seq<byte>): (h: seq<byte>)
    requires HEADER_SIZE <= |q|
    ensures |h| == HEADER_SIZE
  {
    [q[0], q[1], 0x84, q[3] / 16 * 16, q[4], q[5], q[4], q[5], 0, 0, 0, 0]
  }

  /** The query with its header turned into a response, and the answer behind it. */
  function Response(q: seq<byte>, ip: Address): (r: seq<byte>)
    requires HEADER_SIZE <= |q|
    ensures |r| == |q| + ANSWER_SIZE
  {
    Turned(q) + q[HEADER_SIZE..] + Answer(ip)
  }

  /** The test the loop makes before it answers. */
  predicate Guard(length: int)
  {
    length > 0 && length + ANSWER_SIZE - 1 < DNS_ANSWER_MAX_SIZE
  }

  /** The terminator and the rest of the query have their place in the buffers. */
  predicate InBounds(length: int)
  {
    length < DNS_QUERY_MAX_SIZE && length - HEADER_SIZE >= 0 && length + ANSWER_SIZE <= DNS_ANSWER_MAX_SIZE
  }

  /** What passes the test stays in bounds except one to eleven bytes, and a full buffer of 80. */
  lemma GuardIsSafeIff(length: int)
    ensures Guard(length) <==> 1 <= length <= 80
    ensures (Guard(length) ==> InBounds(length)) <==> !(1 <= length < 12 || length == 80)
  {
  }

  /** What a turn comes to: nothing to do, an answer, or a copy of a negative length. */
  datatype Served = Ignored | Answered(sent: nat) | Undefined

  /**
   * One turn of the request loop on a datagram. The array is the memory from the start of the
   * query buffer on, which was cleared before the receive; the terminator of a full buffer goes
   * right behind it. A datagram shorter than a header makes the length of a copy negative.
   */
  method Serve(data: array<byte>, length: int, response: array<byte>, ip: Address) returns (served: Served)
    requires data.Length > DNS_QUERY_MAX_SIZE && response.Length == DNS_ANSWER_MAX_SIZE
    requires data != response && length <= DNS_QUERY_MAX_SIZE
    requires length > 0 ==> forall k :: length <= k < DNS_QUERY_MAX_SIZE ==> data[k] == 0
    modifies data, response
    ensures served == Undefined <==> 1 <= length < HEADER_SIZE
    ensures served == Ignored <==> length <= 0
    ensures length >= HEADER_SIZE ==>
              served == Answered(length + ANSWER_SIZE)
              && response[..served.sent] == Response(old(data[..length]), ip)
    ensures length != DNS_QUERY_MAX_SIZE ==> data[DNS_QUERY_MAX_SIZE] == old(data[DNS_QUERY_MAX_SIZE])
    ensures length == DNS_QUERY_MAX_SIZE ==> data[DNS_QUERY_MAX_SIZE] == 0
  {
    if !Guard(length) {
      return Ignored;
    }
    data[length] := 0;
    if length < HEADER_SIZE {
      return Undefined;
    }
    Respond(data, length, response, ip);
    served := Answered(length + ANSWER_SIZE);
  }

  /** The header turned, the rest of the query copied, and the answer behind it. */
  method Respond(data: array<byte>, length: nat, response: array<byte>, ip: Address)
    requires data.Length > DNS_QUERY_MAX_SIZE && response.Length == DNS_ANSWER_MAX_SIZE && data != response
    requires HEADER_SIZE <= length <= DNS_QUERY_MAX_SIZE && data[length] == 0
    requires forall k :: length <= k < DNS_QUERY_MAX_SIZE ==> data[k] == 0
    modifies data, response
    ensures response[..length + ANSWER_SIZE] == Response(old(data[..length]), ip)
    ensures data[length..] == old(data[length..])
  {
    ghost var q := data[..length];
    CopyQuery(data, length, response);
    Sanitize(data, length);
    var answer := Answer(ip);
    forall k | 0 <= k < ANSWER_SIZE { response[length + k] := answer[k]; }
    Assembled(response[..length + ANSWER_SIZE], q, ip);
  }

  lemma Assembled(r: seq<byte>, q: seq<byte>, ip: Address)
    requires HEADER_SIZE <= |q| && |r| == |q| + ANSWER_SIZE
    requires r[..|q|] == Turned(q) + q[HEADER_SIZE..]
    requires forall k :: 0 <= k < ANSWER_SIZE ==> r[|q| + k] == Answer(ip)[k]
    ensures r == Response(q, ip)
  {
    hide Answer, Turned;
    assert r[|q|..] == Answer(ip);
    assert r == r[..|q|] + r[|q|..];
  }

  /** The two copies of the query, the header turned in between. */
  method CopyQuery(data: array<byte>, length: nat, response: array<byte>)
    requires data.Length > DNS_QUERY_MAX_SIZE && response.Length == DNS_ANSWER_MAX_SIZE && data != response
    requires HEADER_SIZE <= length <= DNS_QUERY_MAX_SIZE
    modifies response
    ensures response[..length] == Turned(data[..length]) + data[HEADER_SIZE..length]
  {
    forall k | 0 <= k < HEADER_SIZE { response[k] := data[k]; }
    TurnHeader(response);
    forall k | HEADER_SIZE <= k < length { response[k] := data[k]; }
    assert response[..length] == response[..HEADER_SIZE] + response[HEADER_SIZE..length];
  }

  /** The query's header becomes the header of an authoritative answer. */
  method TurnHeader(response: array<byte>)
    requires response.Length == DNS_ANSWER_MAX_SIZE
    modifies response
    ensures response[..HEADER_SIZE] == Turned(old(response[..HEADER_SIZE]))
  {
    response[2] := 0x84;  // QR and AA set, opcode 0, TC and RD clear
    response[3] := response[3] / 16 * 16;  // RA and the reserved bits stay, RCode 0
    response[6], response[7] := response[4], response[5];
    response[8], response[9], response[10], response[11] := 0, 0, 0, 0;
  }

  /** The name made printable for the log; it only touches the query buffer. */
  method Sanitize(data: array<byte>, length: nat)
    requires HEADER_SIZE <= length <= DNS_QUERY_MAX_SIZE < data.Length
    requires data[length] == 0 && forall k :: length <= k < DNS_QUERY_MAX_SIZE ==> data[k] == 0
    modifies data
    ensures forall k :: 0 <= k < data.Length ==>
              data[k] == old(data[k])
              || (HEADER_SIZE < k < length && data[k] == 46 && (old(data[k]) < 32 || old(data[k]) > 122))
  {
    ghost var end := if length > HEADER_SIZE then length else HEADER_SIZE + 1;
    var c := HEADER_SIZE + 1;
    while data[c] != 0
      invariant HEADER_SIZE < c <= end && data[end] == 0
      invariant forall k :: c <= k < data.Length ==> data[k] == old(data[k])
      invariant forall k :: 0 <= k < c ==>
                  data[k] == old(data[k])
                  || (HEADER_SIZE < k < length && data[k] == 46 && (old(data[k]) < 32 || old(data[k]) > 122))
      decreases end - c
    {
      if data[c] < 32 || data[c] > 122 {
        data[c] := 46;
      }
      c := c + 1;
    }
  }

  // ------------------------------------------------------------------ main results

  lemma ResponseExtends(q: seq<byte>, ip: Address)
    requires HEADER_SIZE <= |q|
    ensures Extends(q, Response(q, ip))
    ensures forall k :: 0 <= k < ANSWER_SIZE ==> Response(q, ip)[|q| + k] == Answer(ip)[k]
  {
  }

  /** The header keeps the ID and the question count and says: authoritative answer, no error. */
  lemma ResponseHeader(q: seq<byte>, ip: Address)
    requires HEADER_SIZE <= |q|
    ensures var h, r := ParseHeader(q), ParseHeader(Response(q, ip));
            r == Header(h.id, true, 0, true, false, false, h.ra, 0, h.qd, h.qd, 0, 0)
  {
    var r := Response(q, ip);
    FirstBytes(q, ip);
    FlagBits(q[3]);
    assert U16(r, 0) == U16(q, 0) && U16(r, 4) == U16(q, 4) == U16(r, 6) && U16(r, 8) == 0 && U16(r, 10) == 0;
  }

  /** The reserved bits of the header and everything behind it come back as they were. */
  lemma RestIsEchoed(q: seq<byte>, ip: Address)
    requires HEADER_SIZE <= |q|
    ensures Response(q, ip)[3] == q[3] / 16 * 16 && Response(q, ip)[12..|q|] == q[12..]
  {
    hide Answer;
    FirstBytes(q, ip);
    Middle(Turned(q), q[HEADER_SIZE..], Answer(ip));
    assert |q| == |Turned(q)| + |q[HEADER_SIZE..]|;
  }

  lemma Middle(a: seq<byte>, b: seq<byte>, c: seq<byte>)
    ensures (a + b + c)[|a|..|a| + |b|] == b
  {
    var s := a + b + c;
    forall k | 0 <= k < |b| ensures s[|a|..|a| + |b|][k] == b[k] {
      assert s[|a| + k] == (a + b)[|a| + k] == b[k];
    }
  }

  lemma FirstBytes(q: seq<byte>, ip: Address)
    requires HEADER_SIZE <= |q|
    ensures forall k :: 0 <= k < HEADER_SIZE ==> Response(q, ip)[k] == Turned(q)[k]
  {
    hide Answer, Turned;
  }

  /** The upper half of the second flag byte is kept, the lower one cleared. */
  lemma FlagBits(b: byte)
    ensures b / 16 * 16 % 16 == 0 && b / 16 * 16 / 128 == b / 128
  {
  }

  /** A compressed name that points to offset 12 is the name that starts there. */
  lemma PointerResolves(q: seq<byte>, r: seq<byte>, name: Name, next: nat)
    requires Extends(q, r) && |q| + 2 <= |r|
    requires r[|q|] == 0xC0 && r[|q| + 1] == 0x0C
    requires ParseName(q, HEADER_SIZE, HEADER_SIZE) == Some(At(name, next))
    ensures ParseName(r, |q|, |q|) == Some(At(name, |q| + 2))
  {
    NameStable(q, r, HEADER_SIZE, HEADER_SIZE);
    assert U16(r, |q|) == 0xC00C;
  }

  lemma AnswerInPlace(r: seq<byte>, n: nat, ip: Address, name: Name)
    requires |r| == n + ANSWER_SIZE && ParseName(r, n, n) == Some(At(name, n + 2))
    requires U16(r, n + 2) == 1 && U16(r, n + 4) == 1 && U16(r, n + 6) == 0 && U16(r, n + 8) == 0
    requires U16(r, n + 10) == 4 && r[n + 12..n + 16] == ip
    ensures ParseRecord(r, n) == Some(At(Record(name, 1, 1, 0, ip), n + ANSWER_SIZE))
  {
  }

  lemma AnswerBytes(q: seq<byte>, ip: Address)
    requires HEADER_SIZE <= |q|
    ensures var r, n := Response(q, ip), |q|;
            && r[n] == 0xC0 && r[n + 1] == 0x0C
            && U16(r, n + 2) == 1 && U16(r, n + 4) == 1 && U16(r, n + 6) == 0 && U16(r, n + 8) == 0
            && U16(r, n + 10) == 4 && r[n + 12..n + 16] == ip
  {
    hide Answer, Response;
    ResponseExtends(q, ip);
    AnswerFields(Response(q, ip), |q|, ip);
  }

  lemma AnswerFields(r: seq<byte>, n: nat, ip: Address)
    requires |r| == n + ANSWER_SIZE && forall k :: 0 <= k < ANSWER_SIZE ==> r[n + k] == Answer(ip)[k]
    ensures r[n] == 0xC0 && r[n + 1] == 0x0C
    ensures U16(r, n + 2) == 1 && U16(r, n + 4) == 1 && U16(r, n + 6) == 0 && U16(r, n + 8) == 0
    ensures U16(r, n + 10) == 4 && r[n + 12..n + 16] == ip
  {
    hide Answer;
    AnswerIndices(ip);
    var a := Answer(ip);
    assert r[n] == a[0] && r[n + 1] == a[1] && r[n + 2] == a[2] && r[n + 3] == a[3];
    assert r[n + 4] == a[4] && r[n + 5] == a[5] && r[n + 6] == a[6] && r[n + 7] == a[7];
    assert r[n + 8] == a[8] && r[n + 9] == a[9] && r[n + 10] == a[10] && r[n + 11] == a[11];
    assert r[n + 12] == a[12] && r[n + 13] == a[13] && r[n + 14] == a[14] && r[n + 15] == a[15];
  }

  lemma AnswerIndices(ip: Address)
    ensures var a := Answer(ip);
            && a[0] == 0xC0 && a[1] == 0x0C && a[2] == 0 && a[3] == 1 && a[4] == 0 && a[5] == 1
            && a[6] == a[7] == a[8] == a[9] == a[10] == 0 && a[11] == 4
            && a[12] == ip[0] && a[13] == ip[1] && a[14] == ip[2] && a[15] == ip[3]
  {
  }

  /** The appended record answers for the name the first question asks about. */
  lemma AnswerParses(q: seq<byte>, ip: Address, name: Name, next: nat)
    requires HEADER_SIZE < |q|
    requires ParseName(q, HEADER_SIZE, HEADER_SIZE) == Some(At(name, next))
    ensures Records(Response(q, ip))(|q|) == Some(At(Record(name, 1, 1, 0, ip), |q| + ANSWER_SIZE))
  {
    hide ParseRecord, ParseName, Response, Answer, U16, Extends;
    ResponseExtends(q, ip);
    AnswerBytes(q, ip);
    PointerResolves(q, Response(q, ip), name, next);
    AnswerInPlace(Response(q, ip), |q|, ip, name);
  }

  /** What a parsed query is made of. */
  lemma QueryParts(q: seq<byte>)
    requires Parse(q).Some?
    ensures var h := ParseHeader(q);
            && Parse(q).value.header == h
            && ParseMany(Questions(q), HEADER_SIZE, h.qd).Some?
            && (h.qd > 0 ==> ParseQuestion(q, HEADER_SIZE).Some?)
            && var At(qs, pos) := ParseMany(Questions(q), HEADER_SIZE, h.qd).value;
               && Parse(q).value.questions == qs
               && ParseMany(Records(q), pos, RecordCount(h)).Some?
               && ParseMany(Records(q), pos, RecordCount(h)).value.next == |q|
  {
  }

  /** The questions of a longer message, and what is read behind the records of the query. */
  lemma LongerParts(q: seq<byte>, r: seq<byte>, qd: nat, n: nat, k: nat)
    requires Extends(q, r)
    requires ParseMany(Questions(q), HEADER_SIZE, qd).Some?
    requires ParseMany(Records(q), ParseMany(Questions(q), HEADER_SIZE, qd).value.next, n).Some?
    ensures var At(qs, pos) := ParseMany(Questions(q), HEADER_SIZE, qd).value;
            var At(rs, next) := ParseMany(Records(q), pos, n).value;
            && pos >= HEADER_SIZE
            && ParseMany(Questions(r), HEADER_SIZE, qd) == Some(At(qs, pos))
            && ParseMany(Records(r), pos, n + k)
               == match ParseMany(Records(r), next, k)
                  case None => None
                  case Some(At(more, end)) => Some(At(rs + more, end))
  {
    QuestionsAgree(q, r);
    RecordsAgree(q, r);
    ManyAppend(Questions(q), Questions(r), HEADER_SIZE, qd, 0);
    var At(qs, pos) := ParseMany(Questions(q), HEADER_SIZE, qd).value;
    assert qs + [] == qs;
    ManyAppend(Records(q), Records(r), pos, n, k);
  }

  /** Reading k records where the added answer starts: it is there, and nothing follows it. */
  lemma OneAnswer(q: seq<byte>, ip: Address, name: Name, next: nat, k: nat)
    requires HEADER_SIZE < |q|
    requires ParseName(q, HEADER_SIZE, HEADER_SIZE) == Some(At(name, next))
    ensures ParseMany(Records(Response(q, ip)), |q|, k)
         == if k == 0 then Some(At([], |q|))
            else if k == 1 then Some(At([Record(name, 1, 1, 0, ip)], |q| + ANSWER_SIZE))
            else None
  {
    if k > 0 {
      var r := Response(q, ip);
      AnswerParses(q, ip, name, next);
      assert Records(r)(|r|) == ParseRecord(r, |r|) == None;
      assert [Record(name, 1, 1, 0, ip)] + [] == [Record(name, 1, 1, 0, ip)];
    }
  }

  /**
   * For every query with one question and no records the response is a complete message: same ID
   * and question, authoritative, no error, and exactly one A record of class IN that gives the
   * access point's address for the name asked about.
   */
  lemma SingleQuestionAnswered(q: seq<byte>, ip: Address)
    requires Parse(q).Some?
    requires Parse(q).value.header.qd == 1 && RecordCount(Parse(q).value.header) == 0
    ensures var asked := Parse(q).value;
            Parse(Response(q, ip))
              == Some(Message(Header(asked.header.id, true, 0, true, false, false, asked.header.ra, 0,
                                     1, 1, 0, 0),
                              asked.questions,
                              [Record(asked.questions[0].name, 1, 1, 0, ip)]))
    ensures |Response(q, ip)| == |q| + 16
  {
    QueryParts(q);
    ResponseHeader(q, ip);
    ResponseExtends(q, ip);
    LongerParts(q, Response(q, ip), 1, 0, 1);
    var At(question, pos) := ParseQuestion(q, HEADER_SIZE).value;
    assert ParseMany(Questions(q), HEADER_SIZE, 1) == Some(At([question] + [], pos));
    OneAnswer(q, ip, question.name, ParseName(q, HEADER_SIZE, HEADER_SIZE).value.next, 1);
    var answer := [Record(question.name, 1, 1, 0, ip)];
    assert [] + answer == answer;
  }

  /**
   * In general a well-formed query gets a well-formed response exactly when its records number
   * one less than its questions: the answer count is copied from the question count, but only
   * one record is added and the query's own records stay in between.
   */
  lemma WellFormedIff(q: seq<byte>, ip: Address)
    requires Parse(q).Some?
    ensures Parse(Response(q, ip)).Some?
            <==> RecordCount(Parse(q).value.header) + 1 == Parse(q).value.header.qd
  {
    QueryParts(q);
    if ParseHeader(q).qd <= RecordCount(ParseHeader(q)) {
      RecordsLeftOver(q, ip);
    } else {
      AnswersMissing(q, ip);
    }
  }

  lemma RecordsLeftOver(q: seq<byte>, ip: Address)
    requires Parse(q).Some? && ParseHeader(q).qd <= RecordCount(ParseHeader(q))
    ensures Parse(Response(q, ip)).None?
  {
    var r, h := Response(q, ip), ParseHeader(q);
    QueryParts(q);
    ResponseHeader(q, ip);
    ResponseExtends(q, ip);
    LongerParts(q, r, h.qd, RecordCount(h), 0);
    TooFewAnswers(q, r, h.qd, RecordCount(h));
    ParsedIff(r, h.qd);
  }

  lemma AnswersMissing(q: seq<byte>, ip: Address)
    requires Parse(q).Some? && ParseHeader(q).qd > RecordCount(ParseHeader(q))
    ensures Parse(Response(q, ip)).Some? <==> ParseHeader(q).qd == RecordCount(ParseHeader(q)) + 1
  {
    var qd, n := ParseHeader(q).qd, RecordCount(ParseHeader(q));
    QueryParts(q);
    ResponseHeader(q, ip);
    ResponseExtends(q, ip);
    OneAnswer(q, ip, ParseQuestion(q, HEADER_SIZE).value.value.name,
              ParseName(q, HEADER_SIZE, HEADER_SIZE).value.next, qd - n);
    ReadsOn(q, Response(q, ip), qd, n);
  }

  /** When the added record is the only thing left, exactly one more record can be read. */
  lemma ReadsOn(q: seq<byte>, r: seq<byte>, qd: nat, n: nat)
    requires Extends(q, r) && n < qd
    requires ParseHeader(r).qd == qd && RecordCount(ParseHeader(r)) == qd
    requires ParseMany(Questions(q), HEADER_SIZE, qd).Some?
    requires var pos := ParseMany(Questions(q), HEADER_SIZE, qd).value.next;
             ParseMany(Records(q), pos, n).Some? && ParseMany(Records(q), pos, n).value.next == |q|
    requires var rest := ParseMany(Records(r), |q|, qd - n);
             if qd == n + 1 then rest.Some? && rest.value.next == |r| else rest.None?
    ensures Parse(r).Some? <==> qd == n + 1
  {
    hide ParseMany, Parse, Questions, Records, ParseHeader;
    LongerParts(q, r, qd, n, qd - n);
    ParsedIff(r, qd);
  }

  lemma ParsedIff(r: seq<byte>, qd: nat)
    requires |r| >= HEADER_SIZE
    requires ParseHeader(r).qd == qd && RecordCount(ParseHeader(r)) == qd
    requires ParseMany(Questions(r), HEADER_SIZE, qd).Some?
    ensures var read := ParseMany(Records(r), ParseMany(Questions(r), HEADER_SIZE, qd).value.next, qd);
            Parse(r).Some? <==> read.Some? && read.value.next == |r|
  {
  }

  /** With too many records in the query the reader stops before the end of the response. */
  lemma TooFewAnswers(q: seq<byte>, r: seq<byte>, qd: nat, n: nat)
    requires Extends(q, r) && qd <= n
    requires ParseMany(Questions(q), HEADER_SIZE, qd).Some?
    requires var pos := ParseMany(Questions(q), HEADER_SIZE, qd).value.next;
             pos >= HEADER_SIZE && ParseMany(Records(q), pos, n).Some?
             && ParseMany(Records(q), pos, n).value.next == |q|
    ensures var pos := ParseMany(Questions(q), HEADER_SIZE, qd).value.next;
            var read := ParseMany(Records(r), pos, qd);
            read.Some? && read.value.next <= |q|
  {
    RecordsAgree(q, r);
    RecordsAgree(q, q);
    var pos := ParseMany(Questions(q), HEADER_SIZE, qd).value.next;
    FewerParts(Records(q), pos, n, qd);
    ManyAppend(Records(q), Records(r), pos, qd, 0);
  }
}
