/** A parser for DNS messages as sections 4.1.1 to 4.1.4 of RFC 1035 lay them out. */
module DnsMessage {
  import opened Bits
  import opened Wrappers

  const HEADER_SIZE := 12

  datatype Header = Header(id: nat, qr: bool, opcode: nat, aa: bool, tc: bool, rd: bool, ra: bool,
                           rcode: nat, qd: nat, an: nat, ns: nat, ar: nat)

  type Name = seq<seq<byte>>

  datatype Question = Question(name: Name, qtype: nat, qclass: nat)

  datatype Record = Record(name: Name, rtype: nat, rclass: nat, ttl: nat, rdata: seq<byte>)

  /** The answer, authority and additional records in the order they come. */
  datatype Message = Message(header: Header, questions: seq<Question>, records: seq<Record>)

  /** A parsed part and where the next one starts. */
  datatype At<+T> = At(value: T, next: nat)

  function U16(m: seq<byte>, pos: nat): nat
    requires pos + 2 <= |m|
  {
    var high: nat := m[pos];
    high * 256 + m[pos + 1]
  }

  function ParseHeader(m: seq<byte>): Header
    requires HEADER_SIZE <= |m|
  {
    Header(U16(m, 0), m[2] / 128 % 2 == 1, m[2] / 8 % 16, m[2] / 4 % 2 == 1, m[2] / 2 % 2 == 1,
           m[2] % 2 == 1, m[3] / 128 % 2 == 1, m[3] % 16,
           U16(m, 4), U16(m, 6), U16(m, 8), U16(m, 10))
  }

  /**
   * Labels up to the root or a pointer (section 4.1.4). A pointer leads to a prior place: past
   * the header and before the name it continues.
   */
  function ParseName(m: seq<byte>, pos: nat, start: nat): (r: Option<At<Name>>)
    ensures r.Some? ==> pos < r.value.next <= |m|
    decreases start, |m| - pos
  {
    if pos >= |m| then None
    else if m[pos] == 0 then Some(At([], pos + 1))
    else if m[pos] < 64 then
      if pos + 1 + m[pos] > |m| then None
      else
        match ParseName(m, pos + 1 + m[pos], start)
        case None => None
        case Some(At(rest, next)) => Some(At([m[pos + 1..pos + 1 + m[pos]]] + rest, next))
    else if m[pos] < 192 || pos + 2 > |m| then None
    else
      var target := U16(m, pos) - 0xC000;
      if target < HEADER_SIZE || target >= start then None
      else
        match ParseName(m, target, target)
        case None => None
        case Some(At(rest, _)) => Some(At(rest, pos + 2))
  }

  function ParseQuestion(m: seq<byte>, pos: nat): (r: Option<At<Question>>)
    ensures r.Some? ==> pos < r.value.next <= |m|
  {
    match ParseName(m, pos, pos)
    case None => None
    case Some(At(name, next)) =>
      if next + 4 > |m| then None
      else Some(At(Question(name, U16(m, next), U16(m, next + 2)), next + 4))
  }

  function ParseRecord(m: seq<byte>, pos: nat): (r: Option<At<Record>>)
    ensures r.Some? ==> pos < r.value.next <= |m|
  {
    match ParseName(m, pos, pos)
    case None => None
    case Some(At(name, next)) =>
      if next + 10 > |m| then None
      else
        var end := next + 10 + U16(m, next + 8);
        if end > |m| then None
        else
          Some(At(Record(name, U16(m, next), U16(m, next + 2),
                         U16(m, next + 4) * 0x1_0000 + U16(m, next + 6), m[next + 10..end]), end))
  }

  type Parser<!T> = nat -> Option<At<T>>

  /** n parts, one behind the other. */
  function ParseMany<T>(one: Parser<T>, pos: nat, n: nat): (r: Option<At<seq<T>>>)
    ensures r.Some? ==> |r.value.value| == n
    decreases n
  {
    if n == 0 then Some(At([], pos))
    else
      match one(pos)
      case None => None
      case Some(At(x, next)) =>
        match ParseMany(one, next, n - 1)
        case None => None
        case Some(At(xs, end)) => Some(At([x] + xs, end))
  }

  function Questions(m: seq<byte>): Parser<Question>
  {
    (pos: nat) => ParseQuestion(m, pos)
  }

  function Records(m: seq<byte>): Parser<Record>
  {
    (pos: nat) => ParseRecord(m, pos)
  }

  /** The number of records the header announces. */
  function RecordCount(h: Header): nat
  {
    h.an + h.ns + h.ar
  }

  /** A message is read to its last byte. */
  function Parse(m: seq<byte>): (r: Option<Message>)
  {
    if |m| < HEADER_SIZE then None
    else
      var h := ParseHeader(m);
      match ParseMany(Questions(m), HEADER_SIZE, h.qd)
      case None => None
      case Some(At(qs, pos)) =>
        match ParseMany(Records(m), pos, RecordCount(h))
        case None => None
        case Some(At(rs, end)) => if end == |m| then Some(Message(h, qs, rs)) else None
  }

  // ------------------------------------------------ parsing in a longer message

  /** The bytes after the header are those of m, with more behind them. */
  predicate Extends(m: seq<byte>, long: seq<byte>)
  {
    HEADER_SIZE <= |m| <= |long| && forall k :: HEADER_SIZE <= k < |m| ==> long[k] == m[k]
  }

  lemma {:induction false} NameStable(m: seq<byte>, long: seq<byte>, pos: nat, start: nat)
    requires Extends(m, long) && pos >= HEADER_SIZE
    requires ParseName(m, pos, start).Some?
    ensures ParseName(long, pos, start) == ParseName(m, pos, start)
    decreases start, |m| - pos
  {
    if m[pos] == 0 {
    } else if m[pos] < 64 {
      NameStable(m, long, pos + 1 + m[pos], start);
      assert m[pos + 1..pos + 1 + m[pos]] == long[pos + 1..pos + 1 + m[pos]];
    } else {
      var target := U16(m, pos) - 0xC000;
      NameStable(m, long, target, target);
    }
  }

  lemma RecordStable(m: seq<byte>, long: seq<byte>, pos: nat)
    requires Extends(m, long) && pos >= HEADER_SIZE
    requires ParseRecord(m, pos).Some?
    ensures ParseRecord(long, pos) == ParseRecord(m, pos)
  {
    NameStable(m, long, pos, pos);
    var next, end := ParseName(m, pos, pos).value.next, ParseRecord(m, pos).value.next;
    assert m[next + 10..end] == long[next + 10..end];
  }

  lemma QuestionStable(m: seq<byte>, long: seq<byte>, pos: nat)
    requires Extends(m, long) && pos >= HEADER_SIZE
    requires ParseQuestion(m, pos).Some?
    ensures ParseQuestion(long, pos) == ParseQuestion(m, pos)
  {
    NameStable(m, long, pos, pos);
  }

  /** Where the first parser succeeds it moves on and the second one does the same. */
  ghost predicate Agrees<T>(one: Parser<T>, other: Parser<T>)
  {
    forall pos :: pos >= HEADER_SIZE && one(pos).Some? ==>
      one(pos).value.next > pos && other(pos) == one(pos)
  }

  lemma RecordsAgree(m: seq<byte>, long: seq<byte>)
    requires Extends(m, long)
    ensures Agrees(Records(m), Records(long))
  {
    forall pos | pos >= HEADER_SIZE && ParseRecord(m, pos).Some? { RecordStable(m, long, pos); }
  }

  lemma QuestionsAgree(m: seq<byte>, long: seq<byte>)
    requires Extends(m, long)
    ensures Agrees(Questions(m), Questions(long))
  {
    forall pos | pos >= HEADER_SIZE && ParseQuestion(m, pos).Some? { QuestionStable(m, long, pos); }
  }

  /** Reading n parts with the one parser and then k more with the other. */
  lemma {:induction false} ManyAppend<T>(one: Parser<T>, other: Parser<T>, pos: nat, n: nat, k: nat)
    requires Agrees(one, other) && pos >= HEADER_SIZE
    requires ParseMany(one, pos, n).Some?
    ensures var At(xs, next) := ParseMany(one, pos, n).value;
            && next >= pos
            && ParseMany(other, pos, n + k)
               == match ParseMany(other, next, k)
                  case None => None
                  case Some(At(more, end)) => Some(At(xs + more, end))
    decreases n
  {
    var At(xs, next) := ParseMany(one, pos, n).value;
    var rest := ParseMany(other, next, k);
    if n == 0 {
      assert rest.Some? ==> [] + rest.value.value == rest.value.value;
    } else {
      var At(x, after) := one(pos).value;
      ManyAppend(one, other, after, n - 1, k);
      assert rest.Some? ==> [x] + (xs[1..] + rest.value.value) == xs + rest.value.value;
    }
  }

  /** A shorter run of parts ends no later than the whole run. */
  lemma {:induction false} FewerParts<T>(one: Parser<T>, pos: nat, n: nat, k: nat)
    requires Agrees(one, one) && pos >= HEADER_SIZE
    requires k <= n && ParseMany(one, pos, n).Some?
    ensures ParseMany(one, pos, k).Some?
    ensures pos <= ParseMany(one, pos, k).value.next <= ParseMany(one, pos, n).value.next
    decreases k
  {
    if k > 0 {
      FewerParts(one, one(pos).value.next, n - 1, k - 1);
    } else {
      ManyAppend(one, one, pos, n, 0);
    }
  }
}
