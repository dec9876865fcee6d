/**
 * Runs from a boot, step by step: how a record gets lost in the reset window, and what becomes of
 * a file that an earlier boot left on the card.
 */
module StoreForwardRuns {
  import opened Wrappers
  import opened Decimals
  import opened SensorCsv
  import opened StoreForward

  /** A run given by the states it passes through. */
  predicate Trace(states: seq<State>, run: seq<Label>)
  {
    && |states| == |run| + 1
    && forall k :: 0 <= k < |run| ==> states[k + 1] == Step(states[k], run[k]) && Calm(states[k], run[k])
  }

  lemma {:induction false} TraceIsRun(states: seq<State>, run: seq<Label>)
    requires Trace(states, run)
    ensures Run(states[0], run) == states[|run|] && CalmRun(states[0], run)
  {
    hide Step, Calm;
    if run != [] {
      TraceIsRun(states[..|run|], run[..|run| - 1]);
    }
  }

  lemma {:induction false} RunAppend(s: State, run: seq<Label>, more: seq<Label>)
    ensures Run(s, run + more) == Run(Run(s, run), more)
    ensures CalmRun(s, run + more) <==> CalmRun(s, run) && CalmRun(Run(s, run), more)
    decreases |more|
  {
    hide Step, Calm;
    if more == [] {
      assert run + more == run;
    } else {
      RunAppend(s, run, more[..|more| - 1]);
      assert (run + more)[..|run + more| - 1] == run + more[..|more| - 1];
    }
  }

  /** The network is lost before the reader's first step, and a record goes to the card. */
  function StoreOne(r: Record): seq<Label>
  {
    [WriterStep, WifiLost, Produce(r), WriterStep, WriterStep]
  }

  lemma OneStored(file: Option<seq<string>>, r: Record)
    requires Safe(r)
    ensures CalmRun(Boot(file), StoreOne(r))
    ensures Run(Boot(file), StoreOne(r))
         == State([], Receiving, Checking, true, false, 2, Some(Appended(file, 0, Line(r))), 1, 2, [], [r], [r], 0)
  {
    hide Line, ParseLine, Appended, Safe;
    var s1 := Boot(file).(writerOn := false, writer := Receiving);
    var s2 := s1.(writerOn := true, readerOn := false, stateWrite := 2);
    var s3 := s2.(queue := [r], produced := [r]);
    var s4 := s3.(queue := [], writer := Holding(r));
    var s5 := s4.(file := Some(Appended(file, 0, Line(r))), id := 1, written := [r], writer := Receiving);
    assert [] + [r] == [r] && [r][1..] == [];
    TraceIsRun([Boot(file), s1, s2, s3, s4, s5], StoreOne(r));
  }

  /** What OneStored leaves on a card that was empty. */
  function WithOne(r: Record): State
  {
    State([], Receiving, Checking, true, false, 2, Some([HEADER, Line(r)]), 1, 2, [], [r], [r], 0)
  }

  lemma OneStoredOnEmptyCard(r: Record)
    requires Safe(r)
    ensures CalmRun(Boot(None), StoreOne(r)) && Run(Boot(None), StoreOne(r)) == WithOne(r)
  {
    hide Line, ParseLine, Safe, Run, CalmRun;
    OneStored(None, r);
    assert [] + [HEADER] + [Line(r)] == [HEADER, Line(r)];
  }

  /** The writer takes the next record, and the network comes back before it is written. */
  function HoldAnother(r: Record): seq<Label>
  {
    [Produce(r), WriterStep, WifiUp]
  }

  lemma AnotherHeld(s: State, r: Record)
    requires s.queue == [] && s.writer == Receiving && s.writerOn && Safe(r)
    ensures CalmRun(s, HoldAnother(r))
    ensures Run(s, HoldAnother(r))
         == s.(produced := s.produced + [r], writer := Holding(r), writerOn := false, readerOn := true, stateWrite := 1)
  {
    hide Line, ParseLine, Safe;
    var s1 := s.(queue := [r], produced := s.produced + [r]);
    var s2 := s1.(queue := [], writer := Holding(r));
    var s3 := s2.(writerOn := false, readerOn := true, stateWrite := 1);
    assert [] + [r] == [r] && [r][1..] == [];
    TraceIsRun([s, s1, s2, s3], HoldAnother(r));
  }

  const DRAIN_ONE := [ReaderStep, ReaderStep, ReaderStep, ReaderStep]

  /** The reader drains a counter of one: the second line is published, whatever it is. */
  lemma OneDrained(s: State, lines: seq<string>)
    requires s.readerOn && s.reader == Checking && s.file == Some(lines) && |lines| >= 2 && s.id == 1 && s.line == 2
    ensures CalmRun(s, DRAIN_ONE)
    ensures Run(s, DRAIN_ONE)
         == s.(published := s.published + [FromFile(ParseLine(lines[1]))], line := 3, reader := ResetLine)
  {
    hide Line, ParseLine;
    var content := ParseLine(lines[1]);
    var s1 := s.(reader := Draining(0));
    var s2 := s.(reader := Sending(0, content));
    var s3 := s.(published := s.published + [FromFile(content)], line := 3, reader := Draining(1));
    var s4 := s3.(reader := ResetLine);
    TraceIsRun([s, s1, s2, s3, s4], DRAIN_ONE);
  }

  const FINISH := [ReaderStep, ReaderStep, ReaderStep]

  lemma Finished(s: State)
    requires s.readerOn && s.reader == ResetLine
    ensures CalmRun(s, FINISH)
    ensures Run(s, FINISH) == s.(line := 2, id := 0, file := None, deleted := |s.written|, reader := Checking)
  {
    hide Line, ParseLine;
    var s1 := s.(line := 2, reader := ResetId);
    var s2 := s1.(id := 0, reader := Unlinking);
    var s3 := s2.(file := None, deleted := |s.written|, reader := Checking);
    TraceIsRun([s, s1, s2, s3], FINISH);
  }

  /** A boot, one record on the card, the next in the writer's hand, the first one drained. */
  function ToWindow(r1: Record, r2: Record): seq<Label>
  {
    StoreOne(r1) + HoldAnother(r2) + DRAIN_ONE
  }

  lemma WindowReached(r1: Record, r2: Record)
    requires Safe(r1) && Safe(r2)
    ensures CalmRun(Boot(None), ToWindow(r1, r2))
    ensures Run(Boot(None), ToWindow(r1, r2))
         == WithOne(r1).(produced := [r1, r2], writer := Holding(r2), writerOn := false, readerOn := true,
                         stateWrite := 1, published := [FromFile(Some(Blanked(r1)))], line := 3,
                         reader := ResetLine)
  {
    hide Run, CalmRun, Line, ParseLine, Safe;
    var s1 := WithOne(r1);
    var s2 := s1.(produced := [r1, r2], writer := Holding(r2), writerOn := false, readerOn := true, stateWrite := 1);
    OneStoredOnEmptyCard(r1);
    assert [r1] + [r2] == [r1, r2];
    AnotherHeld(s1, r2);
    OneDrained(s2, [HEADER, Line(r1)]);
    LineRoundTrip(r1);
    RunAppend(Boot(None), StoreOne(r1), HoldAnother(r2));
    RunAppend(Boot(None), StoreOne(r1) + HoldAnother(r2), DRAIN_ONE);
  }

  lemma {:induction false} StatesAreRun(states: seq<State>, run: seq<Label>)
    requires |states| == |run| + 1
    requires forall k :: 0 <= k < |run| ==> states[k + 1] == Step(states[k], run[k])
    ensures Run(states[0], run) == states[|run|]
  {
    hide Step;
    if run != [] {
      StatesAreRun(states[..|run|], run[..|run| - 1]);
    }
  }

  /** A loss lets the writer write although the reader is in its reset. */
  lemma WrittenInWindow(s: State, r: Record)
    requires s.writer == Holding(r) && s.stateWrite == 1
    ensures Run(s, [WifiLost, WriterStep, WifiUp])
         == s.(file := Some(Appended(s.file, s.id, Line(r))), id := s.id + 1, written := s.written + [r],
               writer := Receiving, writerOn := false, readerOn := true, stateWrite := 1)
  {
    hide Line, ParseLine, Appended;
    var s1 := s.(writerOn := true, readerOn := false, stateWrite := 2);
    var s2 := s1.(file := Some(Appended(s.file, s.id, Line(r))), id := s.id + 1, written := s.written + [r],
                  writer := Receiving);
    var s3 := s2.(writerOn := false, readerOn := true, stateWrite := 1);
    StatesAreRun([s, s1, s2, s3], [WifiLost, WriterStep, WifiUp]);
  }

  const WRITE_AND_FINISH := [WifiLost, WriterStep, WifiUp] + FINISH

  /**
   * From a boot: the network is lost once more between the loop's last test and the deletion, and
   * the second record, written then, is nowhere afterwards.
   */
  lemma LossFromBoot(r1: Record, r2: Record)
    requires Safe(r1) && Safe(r2)
    ensures var t := Run(Boot(None), ToWindow(r1, r2) + WRITE_AND_FINISH);
            && t.produced == [r1, r2] && t.published == [FromFile(Some(Blanked(r1)))]
            && t.queue == [] && Hand(t) == multiset{} && t.file == None && t.id == 0
  {
    hide Run, CalmRun, Line, ParseLine, Safe;
    var s := Run(Boot(None), ToWindow(r1, r2));
    WindowReached(r1, r2);
    WrittenInWindow(s, r2);
    var s3 := Run(s, [WifiLost, WriterStep, WifiUp]);
    Finished(s3);
    RunAppend(s, [WifiLost, WriterStep, WifiUp], FINISH);
    RunAppend(Boot(None), ToWindow(r1, r2), WRITE_AND_FINISH);
  }

  const WRITE_BEFORE_UNLINK := [ReaderStep, ReaderStep] + ([WifiLost, WriterStep, WifiUp] + [ReaderStep])

  /**
   * From a boot, with the write one moment before the deletion: the counter stays at one, so the
   * next file starts without a header, and its first record is never on a line that is read.
   */
  lemma CounterSurvivesFromBoot(r1: Record, r2: Record, r3: Record)
    requires Safe(r1) && Safe(r2)
    ensures var t := Run(Boot(None), ToWindow(r1, r2) + WRITE_BEFORE_UNLINK);
            && t.produced == [r1, r2] && t.published == [FromFile(Some(Blanked(r1)))]
            && t.queue == [] && Hand(t) == multiset{} && t.file == None && t.id == 1
            && Appended(t.file, t.id, Line(r3)) == [Line(r3)]
            && ReadLine(Some([Line(r3)]), t.line) == None
  {
    hide Run, CalmRun, Line, ParseLine, Safe;
    var s := Run(Boot(None), ToWindow(r1, r2));
    WindowReached(r1, r2);
    var s1 := s.(line := 2, reader := ResetId);
    var s2 := s1.(id := 0, reader := Unlinking);
    StatesAreRun([s, s1, s2], [ReaderStep, ReaderStep]);
    WrittenInWindow(s2, r2);
    var s3 := Run(s2, [WifiLost, WriterStep, WifiUp]);
    var s4 := s3.(file := None, deleted := |s3.written|, reader := Checking);
    StatesAreRun([s3, s4], [ReaderStep]);
    RunAppend(s2, [WifiLost, WriterStep, WifiUp], [ReaderStep]);
    RunAppend(s, [ReaderStep, ReaderStep], [WifiLost, WriterStep, WifiUp] + [ReaderStep]);
    RunAppend(Boot(None), ToWindow(r1, r2), WRITE_BEFORE_UNLINK);
    assert [] + [Line(r3)] == [Line(r3)];
  }

  /**
   * From a boot: a record the writer holds when the network comes back is overtaken by the next one,
   * which goes out from the queue while the writer is suspended.
   */
  lemma HeldRecordIsOvertaken(r1: Record, r2: Record) returns (run: seq<Label>)
    ensures var t := Run(Boot(None), run);
            && t.produced == [r1, r2] && t.published == [FromQueue(r2)] && t.writer == Holding(r1)
            && !t.writerOn && t.queue == [] && t.file == None
  {
    hide Line, ParseLine;
    var s1 := Boot(None).(writerOn := false, writer := Receiving);
    var s2 := s1.(writerOn := true, readerOn := false, stateWrite := 2);
    var s3 := s2.(queue := [r1], produced := [r1]);
    var s4 := s3.(queue := [], writer := Holding(r1));
    var s5 := s4.(writerOn := false, readerOn := true, stateWrite := 1);
    var s6 := s5.(queue := [r2], produced := [r1, r2]);
    var s7 := s6.(reader := Waiting);
    var s8 := s7.(queue := [], reader := Forwarding(r2));
    var s9 := s8.(published := [FromQueue(r2)], reader := Checking);
    run := [WriterStep, WifiLost, Produce(r1), WriterStep, WifiUp, Produce(r2), ReaderStep, ReaderStep, ReaderStep];
    assert [] + [r1] == [r1] && [r1][1..] == [] && [] + [r2] == [r2] && [r2][1..] == [];
    assert [r1] + [r2] == [r1, r2] && [] + [FromQueue(r2)] == [FromQueue(r2)];
    StatesAreRun([Boot(None), s1, s2, s3, s4, s5, s6, s7, s8, s9], run);
  }

  // -------------------------------------------------------------- leftover files

  /** A file left over from before the boot is deleted unread when nothing is written to it. */
  lemma LeftoverFileIsDeleted(lines: seq<string>)
    ensures var t := Run(Boot(Some(lines)), [ReaderStep, ReaderStep] + FINISH);
            t.file == None && t.published == [] && t.reader == Checking
  {
    hide Line, ParseLine;
    var s := Boot(Some(lines));
    var s1, s2 := s.(reader := Draining(0)), s.(reader := ResetLine);
    TraceIsRun([s, s1, s2], [ReaderStep, ReaderStep]);
    Finished(s2);
    RunAppend(s, [ReaderStep, ReaderStep], FINISH);
  }

  /** The run of a record stored behind leftover lines, and drained. */
  function StoreAndDrain(r: Record): seq<Label>
  {
    StoreOne(r) + ([WifiUp] + (DRAIN_ONE + FINISH))
  }

  /**
   * A record written behind leftover lines is deleted, and a line that is not its own is published
   * in its place: the second leftover one, or the header behind a single one.
   */
  lemma LeftoverTakesPlace(lines: seq<string>, r: Record)
    requires lines != [] && Safe(r)
    ensures CalmRun(Boot(Some(lines)), StoreAndDrain(r))
    ensures var t := Run(Boot(Some(lines)), StoreAndDrain(r));
            && t.published == [FromFile(ParseLine((lines + [HEADER])[1]))]
            && t.file == None && t.queue == [] && Hand(t) == multiset{}
            && t.produced == [r] && t.written == [r] && t.deleted == 1 && t.reader == Checking
  {
    hide Run, CalmRun, Line, ParseLine, Safe;
    var boot, all := Boot(Some(lines)), lines + [HEADER] + [Line(r)];
    OneStored(Some(lines), r);
    var s := Run(boot, StoreOne(r));
    var s1 := s.(writerOn := false, readerOn := true, stateWrite := 1);
    TraceIsRun([s, s1], [WifiUp]);
    OneDrained(s1, all);
    assert all[1] == (lines + [HEADER])[1];
    var s2 := Run(s1, DRAIN_ONE);
    Finished(s2);
    RunAppend(s1, DRAIN_ONE, FINISH);
    RunAppend(s, [WifiUp], DRAIN_ONE + FINISH);
    RunAppend(boot, StoreOne(r), [WifiUp] + (DRAIN_ONE + FINISH));
  }

  function Plain(id: nat): Record
  {
    Record(id, "", 0, 0, 0, 0, 0)
  }

  lemma PlainIsSafe(id: nat)
    requires id < 10
    ensures Safe(Plain(id))
  {
    assert Fixed(0) == FixedAbs(0) && |FixedAbs(0)| == 4;
    assert |Decimal(id)| == 1;
  }

  /** A leftover line cannot be what two different records read back as. */
  lemma LeftoverBreaks(lines: seq<string>) returns (run: seq<Label>)
    requires lines != []
    ensures CalmRun(Boot(Some(lines)), run) && !Accounted(Run(Boot(Some(lines)), run))
  {
    hide Run, CalmRun, Line, ParseLine, Safe, QueuePublications;
    PlainIsSafe(0);
    PlainIsSafe(1);
    var content := ParseLine((lines + [HEADER])[1]);
    var r := if content == Some(Blanked(Plain(0))) then Plain(1) else Plain(0);
    assert Blanked(Plain(0)) != Blanked(Plain(1));
    run := StoreAndDrain(r);
    LeftoverTakesPlace(lines, r);
    FilePublished([], content);
    assert [] + [FromFile(content)] == [FromFile(content)];
    assert [r][..1] == [r] && Somes([r])[0] == Some(Blanked(r));
  }

  /** The files a boot may find: conservation holds over all calm runs if and only if it has no lines. */
  lemma LeftoverConservesIff(file: Option<seq<string>>)
    ensures (forall run :: CalmRun(Boot(file), run) ==> Conserved(Run(Boot(file), run))) <==> NoLines(file)
    ensures (forall run :: CalmRun(Boot(file), run) ==> Accounted(Run(Boot(file), run))) <==> NoLines(file)
  {
    hide CalmRun, Run, Accounted, Readable, Invariant;
    if NoLines(file) {
      forall run | CalmRun(Boot(file), run) ensures Conserved(Run(Boot(file), run)) {
        RunKeepsInvariant(file, run);
        InvariantConserves(Run(Boot(file), run));
      }
    } else {
      var run := LeftoverBreaks(file.value);
    }
  }
}
