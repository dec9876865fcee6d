/**
 * What the two tasks get done when they are left to run: the writer stores the whole queue, the
 * reader publishes the whole file and then the whole queue. And when they are left to run.
 */
module StoreForwardDelivery {
  import opened Wrappers
  import opened SensorCsv
  import opened StoreForward
  import opened StoreForwardRuns

  // ------------------------------------------------------------------ switching the tasks

  /** Who is running, after any step: the first loss, an address and the writer's start switch. */
  lemma SwitchesStep(s: State, l: Label)
    ensures var t := Step(s, l);
            (t.writerOn, t.readerOn, t.stateWrite)
              == if l == WifiLost && s.stateWrite == 1 then (true, false, 2)
                 else if l == WifiUp then (false, true, 1)
                 else if l == WriterStep && s.writerOn && s.writer == Booting then (false, s.readerOn, s.stateWrite)
                 else (s.writerOn, s.readerOn, s.stateWrite)
  {
    match l
    case Produce(_) =>
    case WifiLost =>
    case WifiUp =>
    case WriterStep =>
    case ReaderStep =>
  }

  /** A record is accepted exactly while fewer than five are queued. */
  lemma ProduceStep(s: State, r: Record)
    ensures Step(s, Produce(r))
         == if |s.queue| < 5 then s.(queue := s.queue + [r], produced := s.produced + [r]) else s
  {
  }

  // ---------------------------------------------------------------------- left to run

  function Repeat(l: Label, n: nat): seq<Label>
  {
    seq(n, _ => l)
  }

  lemma RunsOn(s: State, l: Label, n: nat)
    requires n > 0
    ensures Run(s, Repeat(l, n)) == Run(Step(s, l), Repeat(l, n - 1))
  {
    hide Step, CalmRun;
    RunAppend(s, [l], Repeat(l, n - 1));
    assert [l] + Repeat(l, n - 1) == Repeat(l, n);
    assert [l][..0] == [];
  }

  /** The lines the writer leaves for these records. */
  function LinesOf(rs: seq<Record>): seq<string>
  {
    seq(|rs|, k requires 0 <= k < |rs| => Line(rs[k]))
  }

  /** The file behind the lines already there; a file begun with the counter at zero gets a header. */
  function Stored(file: Option<seq<string>>, id: nat, rs: seq<Record>): Option<seq<string>>
  {
    if rs == [] then file
    else
      Some((match file case Some(lines) => lines case None => [])
           + (if id == 0 then ["ID, Time, temperature, humidity, pressure, gas, uv\n"] else [])
           + LinesOf(rs))
  }

  lemma StoredFirst(file: Option<seq<string>>, id: nat, rs: seq<Record>)
    requires rs != []
    ensures Stored(Some(Appended(file, id, Line(rs[0]))), id + 1, rs[1..]) == Stored(file, id, rs)
  {
    hide Line;
    var lines := match file case Some(lines) => lines case None => [];
    var header := if id == 0 then [HEADER] else [];
    assert LinesOf(rs) == [Line(rs[0])] + LinesOf(rs[1..]);
    var all := lines + header + [Line(rs[0])];
    assert Appended(file, id, Line(rs[0])) == all;
    assert all + LinesOf(rs[1..]) == lines + header + LinesOf(rs);
    if rs[1..] == [] {
      assert all == lines + header + LinesOf(rs);
    } else {
      assert Stored(Some(all), id + 1, rs[1..]) == Some(all + [] + LinesOf(rs[1..]));
      assert all + [] + LinesOf(rs[1..]) == all + LinesOf(rs[1..]);
    }
  }

  lemma WriterStoresOne(s: State)
    requires s.writerOn && s.writer == Receiving && s.queue != []
    ensures Step(Step(s, WriterStep), WriterStep)
         == s.(queue := s.queue[1..], written := s.written + [s.queue[0]], id := s.id + 1,
               file := Some(Appended(s.file, s.id, Line(s.queue[0]))))
  {
    hide Line, ParseLine, Appended;
  }

  /** Two turns a record: the queue goes to the card, front first, behind what is there. */
  lemma {:induction false} QueueIsStored(s: State)
    requires s.writerOn && s.writer == Receiving
    ensures Run(s, Repeat(WriterStep, 2 * |s.queue|))
         == s.(queue := [], written := s.written + s.queue, id := s.id + |s.queue|,
               file := Stored(s.file, s.id, s.queue))
    decreases |s.queue|
  {
    hide Step, Run, Line, Appended, Stored, Repeat;
    var n := 2 * |s.queue|;
    if s.queue == [] {
      NothingStored(s);
    } else {
      var t := Step(Step(s, WriterStep), WriterStep);
      WriterStoresOne(s);
      RunsOn(s, WriterStep, n);
      RunsOn(Step(s, WriterStep), WriterStep, n - 1);
      QueueIsStored(t);
      StoredFirst(s.file, s.id, s.queue);
      assert s.written + [s.queue[0]] + s.queue[1..] == s.written + s.queue;
    }
  }

  lemma NothingStored(s: State)
    requires s.queue == []
    ensures Run(s, Repeat(WriterStep, 0)) == s.(written := s.written + s.queue, file := Stored(s.file, s.id, s.queue))
  {
    assert s.written + [] == s.written;
  }

  function FromFiles(contents: seq<Option<Record>>): seq<Publication>
  {
    seq(|contents|, k requires 0 <= k < |contents| => FromFile(contents[k]))
  }

  function FromQueues(rs: seq<Record>): seq<Publication>
  {
    seq(|rs|, k requires 0 <= k < |rs| => FromQueue(rs[k]))
  }

  lemma ReaderForwardsOne(s: State)
    requires s.readerOn && s.reader == Checking && s.file == None && s.queue != []
    ensures Step(Step(Step(s, ReaderStep), ReaderStep), ReaderStep)
         == s.(queue := s.queue[1..], published := s.published + [FromQueue(s.queue[0])])
  {
    hide ParseLine;
  }

  /** Three turns a record: without a file the queue is published, front first. */
  lemma {:induction false} QueueIsForwarded(s: State)
    requires s.readerOn && s.reader == Checking && s.file == None
    ensures Run(s, Repeat(ReaderStep, 3 * |s.queue|))
         == s.(queue := [], published := s.published + FromQueues(s.queue))
    decreases |s.queue|
  {
    hide Step, Run, Repeat;
    var n := 3 * |s.queue|;
    if s.queue == [] {
      NothingForwarded(s);
    } else {
      var s1 := Step(s, ReaderStep);
      ReaderForwardsOne(s);
      RunsOn(s, ReaderStep, n);
      RunsOn(s1, ReaderStep, n - 1);
      RunsOn(Step(s1, ReaderStep), ReaderStep, n - 2);
      QueueIsForwarded(Step(Step(s1, ReaderStep), ReaderStep));
      assert s.published + [FromQueue(s.queue[0])] + FromQueues(s.queue[1..]) == s.published + FromQueues(s.queue);
    }
  }

  lemma NothingForwarded(s: State)
    requires s.queue == []
    ensures Run(s, Repeat(ReaderStep, 0)) == s.(published := s.published + FromQueues(s.queue))
  {
    assert s.published + [] == s.published;
  }

  /** The reader is in the drain loop over a file of these records, j of them published. */
  predicate Drains(s: State, rs: seq<Record>, j: nat)
  {
    && s.readerOn && s.reader == Draining(j) && j <= |rs| && s.line == j + 2
    && s.file == Some(FileOf(rs)) && s.id == |rs| && AllSafe(rs)
  }

  lemma LoopTurn(s: State, rs: seq<Record>, j: nat)
    requires Drains(s, rs, j) && j < |rs|
    ensures var t := Step(Step(s, ReaderStep), ReaderStep);
            && Drains(t, rs, j + 1)
            && t == s.(published := s.published + [FromFile(Some(Blanked(rs[j])))], line := j + 3,
                       reader := Draining(j + 1))
  {
    hide Line, ParseLine, Safe, Blanked;
    LineRoundTrip(rs[j]);
  }

  lemma LoopLeft(s: State, rs: seq<Record>)
    requires Drains(s, rs, |rs|)
    ensures Run(s, Repeat(ReaderStep, 4))
         == s.(line := 2, id := 0, file := None, deleted := |s.written|, reader := Checking)
  {
    hide Run, CalmRun, ParseLine, Line, FileOf, Safe;
    RunsOn(s, ReaderStep, 4);
    Finished(Step(s, ReaderStep));
    assert Repeat(ReaderStep, 3) == FINISH;
  }

  lemma {:induction false} LoopPublishes(s: State, rs: seq<Record>, j: nat)
    requires j <= |rs| && Drains(s, rs, j)
    ensures Run(s, Repeat(ReaderStep, 2 * (|rs| - j) + 4))
         == s.(published := s.published + FromFiles(Somes(rs)[j..]), line := 2, id := 0, file := None,
               deleted := |s.written|, reader := Checking)
    decreases |rs| - j
  {
    hide Run, Step, Repeat, Drains, Safe, Blanked;
    var n := 2 * (|rs| - j) + 4;
    if j == |rs| {
      LoopLeft(s, rs);
      assert s.published + FromFiles(Somes(rs)[j..]) == s.published;
    } else {
      LoopTurn(s, rs, j);
      RunsOn(s, ReaderStep, n);
      RunsOn(Step(s, ReaderStep), ReaderStep, n - 1);
      LoopPublishes(Step(Step(s, ReaderStep), ReaderStep), rs, j + 1);
      PublishedNext(s.published, Somes(rs), j);
    }
  }

  lemma PublishedNext(p: seq<Publication>, contents: seq<Option<Record>>, j: nat)
    requires j < |contents|
    ensures p + [FromFile(contents[j])] + FromFiles(contents[j + 1..]) == p + FromFiles(contents[j..])
  {
  }

  /**
   * Main result: whatever calm run came before, a reader that is left to run publishes every record
   * of the file, in order, then deletes the file and starts over.
   */
  lemma StoredIsDelivered(s: State)
    requires Invariant(s) && s.readerOn && s.reader == Checking && InFile(s) != []
    ensures Run(s, Repeat(ReaderStep, 2 * |InFile(s)| + 5))
         == s.(published := s.published + FromFiles(Somes(InFile(s))), id := 0, file := None,
               deleted := |s.written|)
  {
    hide Run, Line, ParseLine, FileOf, Somes, FilePublications, QueuePublications, Safe, Hand;
    var rs := InFile(s);
    var t := s.(reader := Draining(0));
    RunsOn(s, ReaderStep, 2 * |rs| + 5);
    LoopPublishes(t, rs, 0);
    assert Somes(rs)[0..] == Somes(rs);
  }

  /** The writer alone, with the reader outside its window. */
  lemma {:induction false} StoringKeepsInvariant(s: State, n: nat)
    requires Invariant(s) && s.reader == Checking
    ensures Invariant(Run(s, Repeat(WriterStep, n))) && Run(s, Repeat(WriterStep, n)).reader == Checking
    decreases n
  {
    hide Invariant, Run, Line, ParseLine, Appended, Repeat;
    if n == 0 {
      NoSteps(s, WriterStep);
    } else {
      StepKeepsInvariant(s, WriterStep);
      StoringKeepsInvariant(Step(s, WriterStep), n - 1);
      RunsOn(s, WriterStep, n);
    }
  }

  lemma NoSteps(s: State, l: Label)
    ensures Run(s, Repeat(l, 0)) == s
  {
  }

  /** The writer stores the queue, the network comes back, and the reader publishes the card. */
  function Outage(s: State): seq<Label>
    requires s.deleted <= |s.written|
  {
    Repeat(WriterStep, 2 * |s.queue|)
    + ([WifiUp] + Repeat(ReaderStep, 2 * |InFile(s) + s.queue| + 5))
  }

  /**
   * Main result: after an outage that lasts until the queue is stored, everything stored or queued
   * during it is published, in order, and nothing stays behind.
   */
  lemma OutageIsDelivered(s: State)
    requires Invariant(s) && s.writerOn && s.writer == Receiving && s.reader == Checking
    requires InFile(s) + s.queue != []
    ensures var t := Run(s, Outage(s));
            && t.published == s.published + FromFiles(Somes(InFile(s) + s.queue))
            && t.queue == [] && t.file == None && t.id == 0 && t.produced == s.produced
            && t.written == s.written + s.queue && t.deleted == |t.written|
  {
    hide Run, CalmRun, Invariant, Somes, Repeat, Stored, Line, ParseLine;
    var n := 2 * |s.queue|;
    var t := Run(s, Repeat(WriterStep, n));
    InvariantBounds(s);
    QueueIsStored(s);
    StoringKeepsInvariant(s, n);
    var u := Step(t, WifiUp);
    StepKeepsInvariant(t, WifiUp);
    assert InFile(u) == InFile(s) + s.queue;
    StoredIsDelivered(u);
    OneStep(t, WifiUp);
    RunAppend(t, [WifiUp], Repeat(ReaderStep, 2 * |InFile(s) + s.queue| + 5));
    RunAppend(s, Repeat(WriterStep, n), [WifiUp] + Repeat(ReaderStep, 2 * |InFile(s) + s.queue| + 5));
  }

  lemma InvariantBounds(s: State)
    requires Invariant(s)
    ensures s.deleted <= |s.written|
  {
  }

  lemma OneStep(s: State, l: Label)
    ensures Run(s, [l]) == Step(s, l)
  {
    hide Step;
    assert [l][..0] == [] && Run(s, []) == s;
  }
}
