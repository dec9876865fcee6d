/**
 * The order in which records travel, over every run: who takes them from the queue, in which order
 * they reach the card and the broker, and that nothing stored stays behind.
 */
module StoreForwardOrder {
  import opened Wrappers
  import opened SensorCsv
  import opened StoreForward

  // ------------------------------------------------------------- taking from the queue

  /** A record a task has taken from the queue. */
  datatype Take = ByWriter(r: Record) | ByReader(r: Record)

  /** What a step takes: the record that is in a hand which was empty before. */
  function Takes(s: State, l: Label): seq<Take>
  {
    var t := Step(s, l);
    if !s.writer.Holding? && t.writer.Holding? then [ByWriter(t.writer.r)]
    else if !s.reader.Forwarding? && t.reader.Forwarding? then [ByReader(t.reader.r)]
    else []
  }

  /** All a run has taken, in the order of the takes. */
  function Taken(s: State, run: seq<Label>): seq<Take>
  {
    if run == [] then []
    else
      var front := run[..|run| - 1];
      Taken(s, front) + Takes(Run(s, front), run[|run| - 1])
  }

  function Records(takes: seq<Take>): (rs: seq<Record>)
    ensures |rs| == |takes| && forall k :: 0 <= k < |takes| ==> rs[k] == takes[k].r
  {
    seq(|takes|, k requires 0 <= k < |takes| => takes[k].r)
  }

  function WritersPart(takes: seq<Take>): seq<Record>
  {
    if takes == [] then []
    else
      var last := takes[|takes| - 1];
      WritersPart(takes[..|takes| - 1]) + if last.ByWriter? then [last.r] else []
  }

  function ReadersPart(takes: seq<Take>): seq<Record>
  {
    if takes == [] then []
    else
      var last := takes[|takes| - 1];
      ReadersPart(takes[..|takes| - 1]) + if last.ByReader? then [last.r] else []
  }

  function WritersHand(s: State): seq<Record>
  {
    if s.writer.Holding? then [s.writer.r] else []
  }

  function ReadersHand(s: State): seq<Record>
  {
    if s.reader.Forwarding? then [s.reader.r] else []
  }

  /** a is what remains of b when some of its elements are left out. */
  ghost predicate InOrder(a: seq<Record>, b: seq<Record>)
  {
    exists at: seq<nat> :: Picks(a, b, at)
  }

  predicate Picks(a: seq<Record>, b: seq<Record>, at: seq<nat>)
  {
    && |at| == |a|
    && (forall k :: 0 <= k < |a| ==> at[k] < |b| && b[at[k]] == a[k])
    && (forall j, k :: 0 <= j < k < |a| ==> at[j] < at[k])
  }

  // What one step does to the ends of the queue, the hands and the histories.

  /** The records taken so far, followed by the queue, are the records produced. */
  predicate QueueInOrder(s: State, takes: seq<Take>)
  {
    && Records(takes) + s.queue == s.produced
    && WritersPart(takes) == s.written + WritersHand(s)
    && ReadersPart(takes) == QueuePublications(s.published) + ReadersHand(s)
    && |s.queue| <= 5
  }

  lemma PartsSnoc(takes: seq<Take>, t: Take)
    ensures Records(takes + [t]) == Records(takes) + [t.r]
    ensures WritersPart(takes + [t]) == WritersPart(takes) + if t.ByWriter? then [t.r] else []
    ensures ReadersPart(takes + [t]) == ReadersPart(takes) + if t.ByReader? then [t.r] else []
  {
    assert (takes + [t])[..|takes|] == takes;
  }

  lemma TakeFront(taken: seq<Record>, queue: seq<Record>)
    requires queue != []
    ensures taken + queue == taken + [queue[0]] + queue[1..]
  {
  }

  lemma WriterInOrder(s: State, takes: seq<Take>)
    requires QueueInOrder(s, takes) && s.writerOn
    ensures QueueInOrder(Step(s, WriterStep), takes + Takes(s, WriterStep))
  {
    hide Line, ParseLine, Appended, QueuePublications, Records, WritersPart, ReadersPart;
    assert takes + [] == takes;
    match s.writer
    case Booting =>
    case Receiving =>
      if s.queue != [] {
        PartsSnoc(takes, ByWriter(s.queue[0]));
        TakeFront(Records(takes), s.queue);
      }
    case Holding(r) =>
  }

  lemma ReaderInOrder(s: State, takes: seq<Take>)
    requires QueueInOrder(s, takes) && s.readerOn
    ensures QueueInOrder(Step(s, ReaderStep), takes + Takes(s, ReaderStep))
  {
    hide Line, ParseLine, ReadLine, QueuePublications, FilePublications, Records, WritersPart, ReadersPart;
    assert takes + [] == takes;
    match s.reader
    case Checking =>
    case Draining(_) =>
    case Sending(_, content) => FilePublished(s.published, content);
    case ResetLine =>
    case ResetId =>
    case Unlinking =>
    case Waiting =>
      if s.queue != [] {
        PartsSnoc(takes, ByReader(s.queue[0]));
        TakeFront(Records(takes), s.queue);
      }
    case Forwarding(r) => QueuePublished(s.published, r);
  }

  lemma ProducedInOrder(s: State, takes: seq<Take>, r: Record)
    requires QueueInOrder(s, takes)
    ensures QueueInOrder(Step(s, Produce(r)), takes + Takes(s, Produce(r)))
  {
    hide QueuePublications, Records, WritersPart, ReadersPart;
    assert takes + [] == takes;
    assert Records(takes) + (s.queue + [r]) == Records(takes) + s.queue + [r];
  }

  lemma SwitchedInOrder(s: State, takes: seq<Take>, l: Label)
    requires QueueInOrder(s, takes)
    requires l.WifiLost? || l.WifiUp? || (l.WriterStep? && !s.writerOn) || (l.ReaderStep? && !s.readerOn)
    ensures QueueInOrder(Step(s, l), takes + Takes(s, l))
  {
    hide QueuePublications, Records, WritersPart, ReadersPart;
    assert takes + [] == takes;
  }

  lemma OrderStep(s: State, takes: seq<Take>, l: Label)
    requires QueueInOrder(s, takes)
    ensures QueueInOrder(Step(s, l), takes + Takes(s, l))
  {
    hide QueueInOrder, Step, Takes;
    match l
    case Produce(r) => ProducedInOrder(s, takes, r);
    case WriterStep => if s.writerOn { WriterInOrder(s, takes); } else { SwitchedInOrder(s, takes, l); }
    case ReaderStep => if s.readerOn { ReaderInOrder(s, takes); } else { SwitchedInOrder(s, takes, l); }
    case _ => SwitchedInOrder(s, takes, l);
  }

  /**
   * Main result: over every run, whatever the network does, the queue is first in, first out. What
   * was taken from it, in the order of the takes, followed by what is queued, is what was produced;
   * the writer's share are the written records and the one in its hand, the reader's share those
   * published from the queue and the one in its hand; and there are never more than five queued.
   */
  lemma {:induction false} FirstInFirstOut(s: State, run: seq<Label>)
    requires Initial(s)
    ensures QueueInOrder(Run(s, run), Taken(s, run))
  {
    hide Step, Takes;
    if run == [] {
    } else {
      hide QueueInOrder;
      var front := run[..|run| - 1];
      FirstInFirstOut(s, front);
      OrderStep(Run(s, front), Taken(s, front), run[|run| - 1]);
    }
  }

  // --------------------------------------------------------------- in production order

  lemma PicksSnoc(a: seq<Record>, b: seq<Record>, at: seq<nat>, r: Record)
    requires Picks(a, b, at)
    ensures Picks(a, b + [r], at)
    ensures Picks(a + [r], b + [r], at + [|b|])
  {
  }

  /** The shares are in the order of the takes. */
  lemma {:induction false} PartsInOrder(takes: seq<Take>) returns (writers: seq<nat>, readers: seq<nat>)
    ensures Picks(WritersPart(takes), Records(takes), writers)
    ensures Picks(ReadersPart(takes), Records(takes), readers)
  {
    if takes == [] {
      writers, readers := [], [];
    } else {
      hide Records, WritersPart, ReadersPart, Picks;
      var front, last := takes[..|takes| - 1], takes[|takes| - 1];
      writers, readers := PartsInOrder(front);
      assert takes == front + [last];
      PartsSnoc(front, last);
      PicksSnoc(WritersPart(front), Records(front), writers, last.r);
      PicksSnoc(ReadersPart(front), Records(front), readers, last.r);
      assert WritersPart(front) + [] == WritersPart(front) && ReadersPart(front) + [] == ReadersPart(front);
      if last.ByWriter? {
        writers := writers + [|Records(front)|];
      } else {
        readers := readers + [|Records(front)|];
      }
    }
  }

  lemma LongerTail(a: seq<Record>, b: seq<Record>, more: seq<Record>, at: seq<nat>)
    requires Picks(a, b, at)
    ensures InOrder(a, b + more)
  {
    assert Picks(a, b + more, at);
  }

  /** No record overtakes another on its way to the card, nor on its way from the queue to the broker. */
  lemma ProductionOrder(s: State, run: seq<Label>)
    requires Initial(s)
    ensures var t := Run(s, run);
            && InOrder(t.written + WritersHand(t), t.produced)
            && InOrder(QueuePublications(t.published) + ReadersHand(t), t.produced)
  {
    hide Run, Taken, InOrder, QueuePublications, WritersPart, ReadersPart;
    FirstInFirstOut(s, run);
    var takes := Taken(s, run);
    var writers, readers := PartsInOrder(takes);
    LongerTail(WritersPart(takes), Records(takes), Run(s, run).queue, writers);
    LongerTail(ReadersPart(takes), Records(takes), Run(s, run).queue, readers);
  }

  lemma PrefixInOrder(a: seq<Record>, more: seq<Record>, b: seq<Record>, n: nat)
    requires n <= |a| && InOrder(a + more, b)
    ensures InOrder(a[..n], b)
  {
    var at :| Picks(a + more, b, at);
    assert Picks(a[..n], b, at[..n]);
  }

  /**
   * Over every calm run the card is published in the order of production: the publications are what
   * some of the produced records, in their order, read back as.
   */
  lemma CardInProductionOrder(s: State, run: seq<Label>)
    requires Initial(s) && CalmRun(s, run)
    ensures var t := Run(s, run);
            exists rs :: InOrder(rs, t.produced) && FilePublications(t.published) == Somes(rs)
  {
    hide Run, CalmRun, InOrder, Readable, QueuePublications, FilePublications, Hand, Somes;
    var t := Run(s, run);
    Conservation(s, run);
    ProductionOrder(s, run);
    PrefixInOrder(t.written, WritersHand(t), t.produced, Forwarded(t));
  }
}
