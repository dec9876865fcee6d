/**
 * Store and forward: a writer task that moves queued records to the SD card while the network is
 * down, a reader task that publishes the card and then the queue while it is up. The tasks are
 * suspended and resumed by network events between any two of their steps.
 */
module StoreForward {
  import opened Wrappers
  import opened SensorCsv

  const QUEUE_LENGTH := 5

  /** Where the writer is: before its first suspension, waiting for the queue, record in hand. */
  datatype Writer = Booting | Receiving | Holding(r: Record)

  /**
   * Where the reader is: before the file test, before turn j of the drain loop, with a line read
   * in that turn, in the three steps after the loop, waiting for the queue, record in hand.
   */
  datatype Reader =
    | Checking
    | Draining(j: nat)
    | Sending(j: nat, line: Option<Record>)
    | ResetLine
    | ResetId
    | Unlinking
    | Waiting
    | Forwarding(r: Record)

  /** One publication; what cannot be read is garbage. */
  datatype Publication = FromFile(content: Option<Record>) | FromQueue(r: Record)

  /**
   * The shared state, and three histories: what was produced, what was written to the card, and
   * how many of the written records belong to files already deleted.
   */
  datatype State = State(queue: seq<Record>, writer: Writer, reader: Reader, writerOn: bool,
                         readerOn: bool, stateWrite: nat, file: Option<seq<string>>, id: nat, line: nat,
                         published: seq<Publication>, produced: seq<Record>, written: seq<Record>,
                         deleted: nat)

  datatype Label = Produce(r: Record) | WifiLost | WifiUp | WriterStep | ReaderStep

  /** A boot that finds this file on the card. */
  function Boot(file: Option<seq<string>>): State
  {
    State([], Booting, Checking, true, true, 1, file, 0, 2, [], [], [], 0)
  }

  predicate Initial(s: State)
  {
    s == Boot(None)
  }

  predicate NoLines(file: Option<seq<string>>)
  {
    file == None || file == Some([])
  }

  // -------------------------------------------------------------------------- steps

  function WriterTurn(s: State): State
  {
    match s.writer
    case Booting => s.(writerOn := false, writer := Receiving)
    case Receiving =>
      if s.queue == [] then s else s.(queue := s.queue[1..], writer := Holding(s.queue[0]))
    case Holding(r) =>
      s.(file := Some(Appended(s.file, s.id, Line(r))), id := s.id + 1, written := s.written + [r],
         writer := Receiving)
  }

  function ReadLine(file: Option<seq<string>>, line: nat): Option<Record>
  {
    if file.Some? && 1 <= line <= |file.value| then ParseLine(file.value[line - 1]) else None
  }

  function ReaderTurn(s: State): State
  {
    match s.reader
    case Checking => s.(reader := if s.file.Some? then Draining(0) else Waiting)
    case Draining(j) => s.(reader := if j < s.id then Sending(j, ReadLine(s.file, s.line)) else ResetLine)
    case Sending(j, r) =>
      s.(published := s.published + [FromFile(r)], line := s.line + 1, reader := Draining(j + 1))
    case ResetLine => s.(line := 2, reader := ResetId)
    case ResetId => s.(id := 0, reader := Unlinking)
    case Unlinking => s.(file := None, deleted := |s.written|, reader := Checking)
    case Waiting =>
      if s.queue == [] then s else s.(queue := s.queue[1..], reader := Forwarding(s.queue[0]))
    case Forwarding(r) => s.(published := s.published + [FromQueue(r)], reader := Checking)
  }

  /** wifi_event_handler: tasks are switched once for each loss. */
  function OnWifiLost(s: State): State
  {
    if s.stateWrite == 1 then s.(writerOn := true, readerOn := false, stateWrite := 2) else s
  }

  function OnWifiUp(s: State): State
  {
    s.(writerOn := false, readerOn := true, stateWrite := 1)
  }

  /** A step that is not enabled leaves the state alone: a full queue blocks the producer. */
  function Step(s: State, l: Label): State
  {
    match l
    case Produce(r) =>
      if |s.queue| < QUEUE_LENGTH then s.(queue := s.queue + [r], produced := s.produced + [r]) else s
    case WifiLost => OnWifiLost(s)
    case WifiUp => OnWifiUp(s)
    case WriterStep => if s.writerOn then WriterTurn(s) else s
    case ReaderStep => if s.readerOn then ReaderTurn(s) else s
  }

  function Run(s: State, run: seq<Label>): State
  {
    if run == [] then s else Step(Run(s, run[..|run| - 1]), run[|run| - 1])
  }

  // ------------------------------------------------------------------ what is where

  /** The reader is past its last test of the counter and has not deleted the file yet. */
  predicate InWindow(s: State)
  {
    s.reader.ResetLine? || s.reader.ResetId? || s.reader.Unlinking?
  }

  /** The step writes to the card in that window. */
  predicate WritesInWindow(s: State, l: Label)
  {
    l.WriterStep? && s.writerOn && s.writer.Holding? && InWindow(s)
  }

  /** Producers send records the file can hold; nothing is written in the window. */
  predicate Calm(s: State, l: Label)
  {
    (l.Produce? ==> Safe(l.r)) && !WritesInWindow(s, l)
  }

  predicate CalmRun(s: State, run: seq<Label>)
  {
    run != [] ==>
      var front := run[..|run| - 1];
      CalmRun(s, front) && Calm(Run(s, front), run[|run| - 1])
  }

  /** The records of the current file. */
  function InFile(s: State): seq<Record>
    requires s.deleted <= |s.written|
  {
    s.written[s.deleted..]
  }

  /** How many of them have been published. */
  function Drained(s: State): nat
    requires s.deleted <= |s.written|
  {
    match s.reader
    case Draining(j) => j
    case Sending(j, _) => j
    case ResetLine => |InFile(s)|
    case ResetId => |InFile(s)|
    case Unlinking => |InFile(s)|
    case _ => 0
  }

  function Hand(s: State): multiset<Record>
  {
    (if s.writer.Holding? then multiset{s.writer.r} else multiset{})
    + (if s.reader.Forwarding? then multiset{s.reader.r} else multiset{})
  }

  /** The contents published from the file, in order. */
  function FilePublications(p: seq<Publication>): seq<Option<Record>>
  {
    if p == [] then []
    else
      FilePublications(p[..|p| - 1]) + if p[|p| - 1].FromFile? then [p[|p| - 1].content] else []
  }

  function QueuePublications(p: seq<Publication>): seq<Record>
  {
    if p == [] then []
    else QueuePublications(p[..|p| - 1]) + if p[|p| - 1].FromQueue? then [p[|p| - 1].r] else []
  }

  function Somes(rs: seq<Record>): (o: seq<Option<Record>>)
    ensures |o| == |rs|
    ensures forall k :: 0 <= k < |rs| ==> o[k] == Some(Blanked(rs[k]))
  {
    seq(|rs|, k requires 0 <= k < |rs| => Some(Blanked(rs[k])))
  }

  /** The number of written records that were published from a file. */
  function Forwarded(s: State): nat
    requires s.deleted <= |s.written|
  {
    s.deleted + Drained(s)
  }

  // ------------------------------------------------------------------- the invariant

  predicate AllSafe(rs: seq<Record>)
  {
    forall k :: 0 <= k < |rs| ==> Safe(rs[k])
  }

  /** The file holds a header and the records of this file; the counter counts them. */
  predicate FileHolds(s: State)
    requires s.deleted <= |s.written|
  {
    if s.reader.Unlinking? then s.id == 0
    else
      && s.id == |InFile(s)|
      && if InFile(s) == [] then NoLines(s.file) else s.file == Some(FileOf(InFile(s)))
  }

  /** The reader's own variables match where it is. */
  predicate ReaderConsistent(s: State)
    requires s.deleted <= |s.written|
  {
    match s.reader
    case Draining(j) => j <= |InFile(s)| && s.line == j + 2
    case Sending(j, r) => j < |InFile(s)| && s.line == j + 2 && r == Some(Blanked(InFile(s)[j]))
    case ResetLine => true
    case _ => s.line == 2
  }

  predicate Invariant(s: State)
  {
    && s.deleted <= |s.written|
    && AllSafe(s.queue) && AllSafe(s.written) && (s.writer.Holding? ==> Safe(s.writer.r))
    && FileHolds(s) && ReaderConsistent(s)
    && Forwarded(s) <= |s.written|
    && FilePublications(s.published) == Somes(s.written[..Forwarded(s)])
    && multiset(s.produced)
       == multiset(s.queue) + Hand(s) + multiset(s.written) + multiset(QueuePublications(s.published))
  }

  // ------------------------------------------------------------------------- proofs

  lemma FilePublished(p: seq<Publication>, content: Option<Record>)
    ensures FilePublications(p + [FromFile(content)]) == FilePublications(p) + [content]
    ensures QueuePublications(p + [FromFile(content)]) == QueuePublications(p)
  {
    assert (p + [FromFile(content)])[..|p|] == p;
  }

  lemma QueuePublished(p: seq<Publication>, r: Record)
    ensures FilePublications(p + [FromQueue(r)]) == FilePublications(p)
    ensures QueuePublications(p + [FromQueue(r)]) == QueuePublications(p) + [r]
  {
    assert (p + [FromQueue(r)])[..|p|] == p;
  }

  lemma TakeFirst(q: seq<Record>)
    requires q != []
    ensures multiset(q) == multiset{q[0]} + multiset(q[1..])
  {
    assert q == [q[0]] + q[1..];
  }

  // Each step keeps the invariant; first the states, then the turns that lead there.

  /** The record in the writer's hand becomes the last line of the file. */
  function AfterWrite(s: State, r: Record): State
  {
    s.(file := Some(Appended(s.file, s.id, Line(r))), id := s.id + 1, written := s.written + [r], writer := Receiving)
  }

  lemma WriteExtendsFile(s: State, r: Record)
    requires Invariant(s) && s.writer == Holding(r) && !InWindow(s)
    ensures InFile(AfterWrite(s, r)) == InFile(s) + [r] && FileHolds(AfterWrite(s, r))
  {
    hide Line, ParseLine, QueuePublications, FilePublications, Somes, AllSafe, Safe, Hand, ReaderConsistent;
    assert InFile(AfterWrite(s, r)) == InFile(s) + [r];
    FileGrows(InFile(s), r);
    assert InFile(s) == [] ==> [] + [HEADER] + [Line(r)] == FileOf([r]) && [] + [r] == [r];
  }

  lemma WriteKeepsInvariant(s: State, r: Record)
    requires Invariant(s) && s.writer == Holding(r) && !InWindow(s)
    ensures Invariant(AfterWrite(s, r))
  {
    hide Line, ParseLine, FileHolds, FileOf, Appended, QueuePublications, FilePublications, Somes, Safe;
    WriteExtendsFile(s, r);
    assert AfterWrite(s, r).written[..Forwarded(s)] == s.written[..Forwarded(s)];
  }

  lemma WriterTakeKeepsInvariant(s: State)
    requires Invariant(s) && s.queue != [] && s.writer.Receiving?
    ensures Invariant(s.(queue := s.queue[1..], writer := Holding(s.queue[0])))
  {
    hide Line, ParseLine, FileOf, Somes, FilePublications, QueuePublications, Safe, FileHolds, ReaderConsistent;
    var s' := s.(queue := s.queue[1..], writer := Holding(s.queue[0]));
    TakeFirst(s.queue);
    CardFrame(s, s');
  }

  lemma ReaderTakeKeepsInvariant(s: State)
    requires Invariant(s) && s.queue != [] && s.reader.Waiting?
    ensures Invariant(s.(queue := s.queue[1..], reader := Forwarding(s.queue[0])))
  {
    hide Line, ParseLine, FileOf, Somes, FilePublications, QueuePublications, Safe;
    TakeFirst(s.queue);
  }

  /** The card's part of the invariant looks at neither the queue nor the writer nor the switches. */
  lemma CardFrame(s: State, s': State)
    requires s.deleted <= |s.written| && FileHolds(s) && ReaderConsistent(s)
    requires s'.reader == s.reader && s'.file == s.file && s'.id == s.id && s'.line == s.line
    requires s'.written == s.written && s'.deleted == s.deleted
    ensures FileHolds(s') && ReaderConsistent(s')
  {
    hide Line, FileOf;
  }

  lemma WriterKeepsInvariant(s: State)
    requires Invariant(s) && !(s.writer.Holding? && InWindow(s))
    ensures Invariant(WriterTurn(s))
  {
    if s.writer.Holding? {
      hide Invariant, Line, Appended;
      WriteKeepsInvariant(s, s.writer.r);
    } else if s.writer.Booting? {
      BootKeepsInvariant(s);
    } else if s.queue != [] {
      hide Invariant;
      WriterTakeKeepsInvariant(s);
    }
  }

  lemma BootKeepsInvariant(s: State)
    requires Invariant(s) && s.writer.Booting?
    ensures Invariant(s.(writerOn := false, writer := Receiving))
  {
    hide Line, ParseLine, FileOf, Somes, FilePublications, QueuePublications, Safe, AllSafe, FileHolds,
      ReaderConsistent;
    CardFrame(s, s.(writerOn := false, writer := Receiving));
  }

  /** A turn of the drain loop publishes the next written record. */
  lemma SendKeepsInvariant(s: State, j: nat, line: Option<Record>)
    requires Invariant(s) && s.reader == Sending(j, line)
    ensures Invariant(s.(published := s.published + [FromFile(line)], line := s.line + 1, reader := Draining(j + 1)))
  {
    hide Line, ParseLine, FileOf, FilePublications, QueuePublications, AllSafe, Safe;
    var k := Forwarded(s);
    FilePublished(s.published, line);
    assert InFile(s)[j] == s.written[k];
    SomesGrow(s.written, k);
  }

  lemma SomesGrow(rs: seq<Record>, k: nat)
    requires k < |rs|
    ensures Somes(rs[..k + 1]) == Somes(rs[..k]) + [Some(Blanked(rs[k]))]
  {
  }

  lemma LoopKeepsInvariant(s: State, j: nat)
    requires Invariant(s) && s.reader == Draining(j) && j < s.id
    ensures Invariant(s.(reader := Sending(j, ReadLine(s.file, s.line))))
  {
    hide Line, ParseLine, FileOf, Somes, FilePublications, QueuePublications, Safe;
    LineRoundTrip(InFile(s)[j]);
  }

  lemma LoopEndKeepsInvariant(s: State, j: nat)
    requires Invariant(s) && s.reader == Draining(j) && j >= s.id
    ensures Invariant(s.(reader := ResetLine))
  {
    hide Line, ParseLine, FileOf, Somes, FilePublications, QueuePublications, AllSafe, Safe;
  }

  lemma UnlinkKeepsInvariant(s: State)
    requires Invariant(s) && s.reader.Unlinking?
    ensures Invariant(s.(file := None, deleted := |s.written|, reader := Checking))
  {
    hide Line, ParseLine, FileOf, Somes, FilePublications, QueuePublications, AllSafe, Safe;
    assert InFile(s.(file := None, deleted := |s.written|, reader := Checking)) == [];
  }

  lemma ForwardKeepsInvariant(s: State, r: Record)
    requires Invariant(s) && s.reader == Forwarding(r)
    ensures Invariant(s.(published := s.published + [FromQueue(r)], reader := Checking))
  {
    hide Line, ParseLine, FileOf, Somes, FilePublications, QueuePublications, AllSafe, Safe;
    QueuePublished(s.published, r);
  }

  /** The file test and the two resets only move the reader on. */
  lemma CheckKeepsInvariant(s: State, reader: Reader)
    requires Invariant(s) && s.reader == Checking && (reader == Draining(0) || reader == Waiting)
    ensures Invariant(s.(reader := reader))
  {
    hide Line, ParseLine, FileOf, Somes, FilePublications, QueuePublications, AllSafe, Safe;
  }

  lemma ResetLineKeepsInvariant(s: State)
    requires Invariant(s) && s.reader == ResetLine
    ensures Invariant(s.(line := 2, reader := ResetId))
  {
    hide Line, ParseLine, FileOf, Somes, FilePublications, QueuePublications, AllSafe, Safe;
  }

  lemma ResetIdKeepsInvariant(s: State)
    requires Invariant(s) && s.reader == ResetId
    ensures Invariant(s.(id := 0, reader := Unlinking))
  {
    hide Line, ParseLine, FileOf, Somes, FilePublications, QueuePublications, AllSafe, Safe;
  }

  lemma ReaderKeepsInvariant(s: State)
    requires Invariant(s)
    ensures Invariant(ReaderTurn(s))
  {
    hide Invariant, ReadLine;
    match s.reader
    case Checking => CheckKeepsInvariant(s, if s.file.Some? then Draining(0) else Waiting);
    case Draining(j) => if j < s.id { LoopKeepsInvariant(s, j); } else { LoopEndKeepsInvariant(s, j); }
    case Sending(j, line) => SendKeepsInvariant(s, j, line);
    case ResetLine => ResetLineKeepsInvariant(s);
    case ResetId => ResetIdKeepsInvariant(s);
    case Unlinking => UnlinkKeepsInvariant(s);
    case Waiting => if s.queue != [] { ReaderTakeKeepsInvariant(s); }
    case Forwarding(r) => ForwardKeepsInvariant(s, r);
  }

  lemma ProduceKeepsInvariant(s: State, r: Record)
    requires Invariant(s) && Safe(r) && |s.queue| < QUEUE_LENGTH
    ensures Invariant(s.(queue := s.queue + [r], produced := s.produced + [r]))
  {
    hide Line, ParseLine, FileOf, Somes, FilePublications, QueuePublications, Safe, FileHolds, ReaderConsistent;
    CardFrame(s, s.(queue := s.queue + [r], produced := s.produced + [r]));
  }

  lemma SwitchKeepsInvariant(s: State, writerOn: bool, readerOn: bool, stateWrite: nat)
    requires Invariant(s)
    ensures Invariant(s.(writerOn := writerOn, readerOn := readerOn, stateWrite := stateWrite))
  {
    hide Line, ParseLine, FileOf, Somes, FilePublications, QueuePublications, AllSafe, Safe, FileHolds,
      ReaderConsistent;
    CardFrame(s, s.(writerOn := writerOn, readerOn := readerOn, stateWrite := stateWrite));
  }

  lemma EventKeepsInvariant(s: State)
    requires Invariant(s)
    ensures Invariant(OnWifiLost(s)) && Invariant(OnWifiUp(s))
  {
    hide Invariant;
    SwitchKeepsInvariant(s, true, false, 2);
    SwitchKeepsInvariant(s, false, true, 1);
  }

  lemma StepKeepsInvariant(s: State, l: Label)
    requires Invariant(s) && Calm(s, l)
    ensures Invariant(Step(s, l))
  {
    hide Invariant, WriterTurn, ReaderTurn, OnWifiLost, OnWifiUp, Safe;
    match l
    case Produce(r) => if |s.queue| < QUEUE_LENGTH { ProduceKeepsInvariant(s, r); }
    case WriterStep => if s.writerOn { WriterKeepsInvariant(s); }
    case ReaderStep => if s.readerOn { ReaderKeepsInvariant(s); }
    case _ => EventKeepsInvariant(s);
  }

  lemma {:induction false} RunKeepsInvariant(file: Option<seq<string>>, run: seq<Label>)
    requires NoLines(file) && CalmRun(Boot(file), run)
    ensures Invariant(Run(Boot(file), run))
  {
    hide Step, Calm, Line, ParseLine;
    if run == [] {
      assert Somes([]) == [];
    } else {
      hide Invariant;
      var front := run[..|run| - 1];
      RunKeepsInvariant(file, front);
      StepKeepsInvariant(Run(Boot(file), front), run[|run| - 1]);
    }
  }

  // ------------------------------------------------------------------- main results

  /**
   * Each produced record is queued, in a task's hand, written but not yet forwarded, published
   * from the file or published from the queue, and none is twice; what was published from the
   * file are the written records, in order.
   */
  predicate Accounted(t: State)
  {
    && t.deleted <= |t.written| && Forwarded(t) <= |t.written|
    && multiset(t.produced)
       == multiset(t.queue) + Hand(t) + multiset(t.written[Forwarded(t)..])
          + multiset(t.written[..Forwarded(t)]) + multiset(QueuePublications(t.published))
    && FilePublications(t.published) == Somes(t.written[..Forwarded(t)])
  }

  /**
   * The records not yet forwarded are on the card: reading it from the reader's line on gives
   * each of them, in order. The counter is their number with those of this file already
   * published, and a file with lines is there exactly when it is not zero.
   */
  predicate Readable(t: State)
    requires t.deleted <= |t.written|
  {
    && (if t.reader.Unlinking? then t.id == 0
        else t.id == |InFile(t)| && (NoLines(t.file) <==> InFile(t) == []))
    && (!t.reader.ResetLine? ==> t.line == if InWindow(t) then 2 else 2 + Drained(t))
    && (forall k :: Forwarded(t) <= k < |t.written| ==>
          ReadLine(t.file, 2 + k - t.deleted) == Some(Blanked(t.written[k])))
    && (t.reader.Sending? ==> t.reader.line == ReadLine(t.file, t.line))
  }

  predicate Conserved(t: State)
  {
    Accounted(t) && Readable(t)
  }

  lemma InvariantAccounts(t: State)
    requires Invariant(t)
    ensures Accounted(t)
  {
    hide Line, ParseLine, FileOf, Somes, FilePublications, QueuePublications, AllSafe, Safe, NoLines;
    assert t.written == t.written[..Forwarded(t)] + t.written[Forwarded(t)..];
  }

  /** Every record of the current file reads back from its line. */
  lemma FileReads(t: State, k: nat)
    requires Invariant(t) && !t.reader.Unlinking? && t.deleted <= k < |t.written|
    ensures ReadLine(t.file, 2 + k - t.deleted) == Some(Blanked(t.written[k]))
  {
    hide Line, ParseLine, Somes, FilePublications, QueuePublications, Safe, Hand;
    var j := k - t.deleted;
    assert InFile(t)[j] == t.written[k];
    LineRoundTrip(t.written[k]);
  }

  lemma InvariantReads(t: State)
    requires Invariant(t)
    ensures Readable(t)
  {
    hide Line, ParseLine, Somes, FilePublications, QueuePublications, AllSafe, Safe, Hand, ReadLine;
    forall k | Forwarded(t) <= k < |t.written|
      ensures ReadLine(t.file, 2 + k - t.deleted) == Some(Blanked(t.written[k]))
    {
      FileReads(t, k);
    }
    if t.reader.Sending? {
      FileReads(t, Forwarded(t));
    }
  }

  lemma InvariantConserves(t: State)
    requires Invariant(t)
    ensures Conserved(t)
  {
    hide Invariant, Accounted, Readable;
    InvariantAccounts(t);
    InvariantReads(t);
  }

  /** Main result: over every calm run every record is accounted for, and the unread ones are on the card. */
  lemma Conservation(s: State, run: seq<Label>)
    requires Initial(s) && CalmRun(s, run)
    ensures Conserved(Run(s, run)) && Run(s, run).file != Some([])
  {
    hide Run, CalmRun, Conserved, Invariant;
    RunKeepsInvariant(None, run);
    InvariantConserves(Run(s, run));
    FileNeverEmpty(s, run);
  }

  /** Without an empty file at the start there never is one: no lines means no file. */
  lemma {:induction false} FileNeverEmpty(s: State, run: seq<Label>)
    requires s.file != Some([])
    ensures Run(s, run).file != Some([])
  {
    hide Line, ParseLine;
    if run != [] {
      FileNeverEmpty(s, run[..|run| - 1]);
    }
  }

  lemma TooFewPublished(t: State)
    requires t.deleted <= |t.written| && Forwarded(t) == |t.written| && |FilePublications(t.published)| < |t.written|
    ensures !Accounted(t)
  {
    hide QueuePublications, FilePublications, Somes, Hand;
  }

  lemma AllPublished(s: State)
    requires Invariant(s) && InWindow(s)
    ensures |FilePublications(s.published)| == |s.written| && Forwarded(s) == |s.written|
  {
    hide Line, ParseLine, FileHolds, ReaderConsistent, QueuePublications, FilePublications, Somes, AllSafe, Safe, Hand;
  }

  /** A write between the reader's last test and the deletion is neither published nor readable. */
  lemma WindowWriteBreaks(s: State)
    requires Invariant(s) && InWindow(s) && s.writer.Holding?
    ensures !Accounted(WriterTurn(s))
  {
    hide Invariant, Accounted, FilePublications, Line, Appended;
    AllPublished(s);
    TooFewPublished(WriterTurn(s));
  }

  /** From a conserving run on, a step keeps conservation if and only if it is not such a write. */
  lemma ConservedUnlessWrittenInWindow(s: State, l: Label)
    requires Invariant(s) && (l.Produce? ==> Safe(l.r))
    ensures Conserved(Step(s, l)) <==> !WritesInWindow(s, l)
  {
    hide Invariant, Accounted, Readable, WriterTurn, ReaderTurn, InWindow, Safe;
    if WritesInWindow(s, l) {
      WindowWriteBreaks(s);
    } else {
      StepKeepsInvariant(s, l);
      InvariantConserves(Step(s, l));
    }
  }

  /**
   * Main result: for every run with records the file can hold, conservation holds throughout if
   * and only if the run never writes in the window.
   */
  lemma {:induction false} ConservedThroughoutIff(s: State, run: seq<Label>)
    requires Initial(s)
    requires forall k :: 0 <= k < |run| && run[k].Produce? ==> Safe(run[k].r)
    ensures (forall n :: 0 <= n <= |run| ==> Conserved(Run(s, run[..n]))) <==> CalmRun(s, run)
  {
    hide Conserved, Step, Safe, WritesInWindow, Invariant;
    assert run[..|run|] == run;
    if run == [] {
      Conservation(s, run);
    } else {
      var front, last := run[..|run| - 1], run[|run| - 1];
      ConservedThroughoutIff(s, front);
      assert forall n :: 0 <= n <= |front| ==> run[..n] == front[..n];
      if CalmRun(s, front) {
        RunKeepsInvariant(None, front);
        ConservedUnlessWrittenInWindow(Run(s, front), last);
      }
    }
  }

  /** What went to the card is published once each, in the order it was written, never garbage. */
  lemma FileOrder(s: State, run: seq<Label>)
    requires Initial(s) && CalmRun(s, run)
    ensures var t := Run(s, run);
            var p := FilePublications(t.published);
            && |p| <= |t.written|
            && forall k :: 0 <= k < |p| ==> p[k] == Some(Blanked(t.written[k]))
  {
    hide Run, CalmRun, FilePublications, QueuePublications, Hand, Blanked, Readable;
    Conservation(s, run);
  }

  /** What the reader does from inside the window to the end of it, uninterrupted. */
  function FinishReset(s: State): State
    requires InWindow(s)
  {
    match s.reader
    case ResetLine => ReaderTurn(ReaderTurn(ReaderTurn(s)))
    case ResetId => ReaderTurn(ReaderTurn(s))
    case Unlinking => ReaderTurn(s)
  }

  /** The reset touches nothing but the counters and the file. */
  lemma ResetFinished(s: State)
    requires InWindow(s)
    ensures var t := FinishReset(s);
            && t.file == None && t.reader == Checking && t.writer == s.writer && t.queue == s.queue
            && t.written == s.written && t.published == s.published && t.produced == s.produced
  {
    hide Line, ParseLine;
  }

  /**
   * The condition is needed: whatever calm run came before, a record written in the window is
   * deleted with the file. All others are accounted for, this one is nowhere.
   */
  lemma WindowWriteIsLost(s: State)
    requires Invariant(s) && InWindow(s) && s.writerOn && s.writer.Holding?
    ensures var t := FinishReset(Step(Step(s, WriterStep), WifiUp));
            var lost := s.writer.r;
            && t.file == None && t.reader == Checking && Hand(t) == multiset{}
            && t.written == s.written + [lost]
            && FilePublications(t.published) == Somes(s.written)
            && multiset(t.produced)
               == multiset(t.queue) + multiset(s.written) + multiset(QueuePublications(t.published))
                  + multiset{lost}
  {
    hide Line, ParseLine, FinishReset, ReaderTurn, FileOf, Appended, Somes, FilePublications, QueuePublications,
      AllSafe;
    ResetFinished(Step(Step(s, WriterStep), WifiUp));
    assert s.written[..|s.written|] == s.written;
  }

  /** Written just before the file is deleted, it also leaves the counter at one and no file. */
  lemma CounterSurvivesFile(s: State)
    requires Invariant(s) && s.reader.Unlinking? && s.writerOn && s.writer.Holding?
    ensures var t := FinishReset(Step(Step(s, WriterStep), WifiUp)); t.file == None && t.id == 1
  {
  }

  // ---------------------------------------------------------------- the event handler

  /** The flags the handler switches. */
  class Switches {
    var writerOn: bool
    var readerOn: bool
    var stateWrite: nat
    var stateWifi: nat

    constructor ()
      ensures writerOn && readerOn && stateWrite == 1 && stateWifi == 0
    {
      writerOn, readerOn, stateWrite, stateWifi := true, true, 1, 0;
    }

    ghost predicate Reflects(s: State)
      reads this
    {
      writerOn == s.writerOn && readerOn == s.readerOn && stateWrite == s.stateWrite
    }

    /** A loss switches the tasks once; later losses without an address in between do nothing. */
    method OnDisconnected(ghost s: State)
      requires Reflects(s)
      modifies this
      ensures Reflects(Step(s, WifiLost)) && stateWifi == 0
    {
      if stateWrite == 1 {
        writerOn := true;
        readerOn := false;
        stateWrite := stateWrite + 1;
      }
      stateWifi := 0;
    }

    method OnGotIp(ghost s: State)
      requires Reflects(s)
      modifies this
      ensures Reflects(Step(s, WifiUp)) && stateWifi == 1
    {
      writerOn := false;
      readerOn := true;
      stateWrite := 1;
      stateWifi := 1;
    }
  }

  /** Once the writer has suspended itself for the first time, the two tasks are never both running. */
  predicate OneAtATime(s: State)
  {
    && (s.stateWrite == 1 || s.stateWrite == 2)
    && (s.writer.Booting? || !(s.writerOn && s.readerOn))
    && (s.stateWrite == 2 ==> !s.readerOn)
    && (s.stateWrite == 1 ==> s.readerOn)
  }

  lemma {:induction false} TasksAlternate(s: State, run: seq<Label>)
    requires Initial(s)
    ensures OneAtATime(Run(s, run))
  {
    if run != [] {
      TasksAlternate(s, run[..|run| - 1]);
      AlternateStep(Run(s, run[..|run| - 1]), run[|run| - 1]);
    }
  }

  lemma AlternateStep(s: State, l: Label)
    requires OneAtATime(s)
    ensures OneAtATime(Step(s, l))
  {
    match l
    case Produce(r) =>
    case WifiLost =>
    case WifiUp =>
    case WriterStep =>
    case ReaderStep =>
  }
}
