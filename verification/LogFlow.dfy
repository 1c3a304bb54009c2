/** The log batcher under concurrency: any number of writers, and several
    flushers (ticker, flushNow, Close) whose "swap the buffer out" and "send" are
    separate steps that interleave freely. */
module LogFlow {
  import opened LogBatchers
  import opened Sums
  import opened Text

  /** Who took a batch: the ticker or the job thread (both send on the batcher's
      own context), or Close (which sends on a detached context). */
  datatype Flusher = Loop | Closer

  /** A batch is taken, then handed to StreamLogs on a context that is live or
      not, and ends delivered or dropped. */
  datatype Status = Taken | InFlight(live: bool) | Delivered | Dropped {
    predicate Finished() {
      Delivered? || Dropped?
    }
  }

  datatype Batch = Batch(lines: seq<LogLine>, taker: Flusher, status: Status)

  /** Progress of closeOnce: `mark` is the sequence counter when Close began,
      `batch` the number of batches when Close looked at the buffer. */
  datatype Closing = Open | Began(mark: nat) | Swapped(mark: nat, batch: nat) | Closed(mark: nat, batch: nat)

  /** `calls` lists the batches handed to StreamLogs in call order. */
  datatype State = State(
    lines: seq<LogLine>, seqNo: nat, batches: seq<Batch>, calls: seq<seq<LogLine>>,
    parentDone: bool, cancelled: bool, closing: Closing)

  datatype Step =
    | Append(stream: Stream, level: Level, source: Source, texts: seq<string>)
    | Take
    | Send(i: nat)
    | Succeed(i: nat)
    | Fail(i: nat)
    | ParentDone
    | CloseBegin
    | CloseTake
    | CloseEnd

  const INIT := State([], 0, [], [], false, false, Open)

  predicate Enabled(s: State, a: Step) {
    match a
    case Append(_, _, _, _) => true
    case Take => s.lines != []
    case Send(i) => i < |s.batches| && s.batches[i].status == Taken
    case Succeed(i) => i < |s.batches| && s.batches[i].status == InFlight(true)
    case Fail(i) => i < |s.batches| && s.batches[i].status.InFlight?
    case ParentDone => !s.parentDone
    case CloseBegin => s.closing == Open
    case CloseTake => s.closing.Began?
    case CloseEnd =>
      s.closing.Swapped? &&
      (s.closing.batch < |s.batches| && s.batches[s.closing.batch].taker == Closer ==>
         s.batches[s.closing.batch].status.Finished())
  }

  function SetStatus(s: State, i: nat, status: Status): seq<Batch>
    requires i < |s.batches|
  {
    s.batches[i := s.batches[i].(status := status)]
  }

  function Next(s: State, a: Step): State
    requires Enabled(s, a)
  {
    match a
    case Append(stream, level, source, texts) =>
      s.(lines := s.lines + Stamp(stream, level, source, texts, s.seqNo), seqNo := s.seqNo + |texts|)
    case Take => s.(lines := [], batches := s.batches + [Batch(s.lines, Loop, Taken)])
    case Send(i) =>
      var live := s.batches[i].taker == Closer || (!s.parentDone && !s.cancelled);
      s.(batches := SetStatus(s, i, InFlight(live)), calls := s.calls + [s.batches[i].lines])
    case Succeed(i) => s.(batches := SetStatus(s, i, Delivered))
    case Fail(i) => s.(batches := SetStatus(s, i, Dropped))
    case ParentDone => s.(parentDone := true)
    case CloseBegin => s.(closing := Began(s.seqNo))
    case CloseTake =>
      var swapped := s.(closing := Swapped(s.closing.mark, |s.batches|));
      if s.lines == [] then swapped
      else swapped.(lines := [], batches := s.batches + [Batch(s.lines, Closer, Taken)])
    case CloseEnd => s.(closing := Closed(s.closing.mark, s.closing.batch), cancelled := true)
  }

  ghost predicate Legal(s: State, run: seq<Step>)
    decreases |run|, 0
  {
    run == [] || (Legal(s, run[..|run| - 1]) && Enabled(After(s, run[..|run| - 1]), run[|run| - 1]))
  }

  ghost function After(s: State, run: seq<Step>): State
    requires Legal(s, run)
    decreases |run|, 1
  {
    if run == [] then s else Next(After(s, run[..|run| - 1]), run[|run| - 1])
  }

  // Conservation

  /** The lines of all batches in the order they were taken. */
  function TakenLines(batches: seq<Batch>): seq<LogLine> {
    if batches == [] then [] else TakenLines(batches[..|batches| - 1]) + batches[|batches| - 1].lines
  }

  /** The batches in order, then the buffer. */
  function Everything(s: State): seq<LogLine> {
    TakenLines(s.batches) + s.lines
  }

  /** Everything ever appended is still there: it is the lines 1..seqNo in order. */
  ghost predicate Conserved(s: State) {
    && Numbered(Everything(s), s.seqNo)
    && (forall i :: 0 <= i < |s.batches| ==> s.batches[i].lines != [])
  }

  lemma TakenAppend(batches: seq<Batch>, b: Batch)
    ensures TakenLines(batches + [b]) == TakenLines(batches) + b.lines
  {
    assert (batches + [b])[..|batches|] == batches;
  }

  lemma {:induction false} TakenKept(batches: seq<Batch>, i: nat, b: Batch)
    requires i < |batches| && b.lines == batches[i].lines
    ensures TakenLines(batches[i := b]) == TakenLines(batches)
  {
    var last := |batches| - 1;
    if i == last {
      assert batches[i := b][..last] == batches[..last];
    } else {
      TakenKept(batches[..last], i, b);
      assert batches[i := b][..last] == batches[..last][i := b];
    }
  }

  /** A flush only moves lines from the buffer to the end of the batches. */
  lemma TakeMoves(s: State, taker: Flusher)
    ensures TakenLines(s.batches + [Batch(s.lines, taker, Taken)]) + [] == Everything(s)
  {
    TakenAppend(s.batches, Batch(s.lines, taker, Taken));
  }

  /** Only Append changes what there is, and only at the end. */
  lemma EverythingStep(s: State, a: Step)
    requires Enabled(s, a)
    ensures !a.Append? ==> Everything(Next(s, a)) == Everything(s)
    ensures a.Append? ==>
              Everything(Next(s, a)) == Everything(s) + Stamp(a.stream, a.level, a.source, a.texts, s.seqNo)
  {
    match a {
      case Append(_, _, _, _) =>
      case Take => TakeMoves(s, Loop);
      case CloseTake => TakeMoves(s, Closer);
      case Send(i) => TakenKept(s.batches, i, Next(s, a).batches[i]);
      case Succeed(i) => TakenKept(s.batches, i, Next(s, a).batches[i]);
      case Fail(i) => TakenKept(s.batches, i, Next(s, a).batches[i]);
      case _ =>
    }
  }

  lemma StampContinues(lines: seq<LogLine>, last: nat, stream: Stream, level: Level, source: Source, texts: seq<string>)
    requires Numbered(lines, last)
    ensures Numbered(lines + Stamp(stream, level, source, texts, last), last + |texts|)
  {}

  lemma ConservedStep(s: State, a: Step)
    requires Conserved(s) && Enabled(s, a)
    ensures Conserved(Next(s, a))
  {
    EverythingStep(s, a);
    if a.Append? {
      StampContinues(Everything(s), s.seqNo, a.stream, a.level, a.source, a.texts);
    }
  }

  lemma {:induction false} AlwaysConserved(run: seq<Step>)
    requires Legal(INIT, run)
    ensures Conserved(After(INIT, run))
    decreases |run|
  {
    if run != [] {
      AlwaysConserved(run[..|run| - 1]);
      ConservedStep(After(INIT, run[..|run| - 1]), run[|run| - 1]);
    }
  }

  // Counting the places of a line

  function Occurs(n: nat): LogLine -> nat {
    (l: LogLine) => if l.sequence == n then 1 else 0
  }

  function InCall(n: nat): seq<LogLine> -> nat {
    (lines: seq<LogLine>) => Sum(lines, Occurs(n))
  }

  function InBatch(n: nat): Batch -> nat {
    (b: Batch) => Sum(b.lines, Occurs(n))
  }

  datatype Stage = Underway | Arrived | Lost

  function StageOf(status: Status): Stage {
    match status
    case Taken => Underway
    case InFlight(_) => Underway
    case Delivered => Arrived
    case Dropped => Lost
  }

  function InBatchAt(n: nat, stage: Stage): Batch -> nat {
    (b: Batch) => if StageOf(b.status) == stage then Sum(b.lines, Occurs(n)) else 0
  }

  lemma {:induction false} NumberedOnce(lines: seq<LogLine>, last: nat, n: nat)
    requires Numbered(lines, last)
    ensures Sum(lines, Occurs(n)) == if 1 <= n <= last then 1 else 0
  {
    if last > 0 {
      NumberedOnce(lines[..last - 1], last - 1, n);
    }
  }

  lemma {:induction false} TakenCount(batches: seq<Batch>, n: nat)
    ensures Sum(TakenLines(batches), Occurs(n)) == Sum(batches, InBatch(n))
    ensures Sum(batches, InBatch(n)) ==
            Sum(batches, InBatchAt(n, Underway)) + Sum(batches, InBatchAt(n, Arrived))
            + Sum(batches, InBatchAt(n, Lost))
  {
    if batches != [] {
      var last := |batches| - 1;
      TakenCount(batches[..last], n);
      SumConcat(TakenLines(batches[..last]), batches[last].lines, Occurs(n));
    }
  }

  /** At every moment each appended line is in exactly one place: still buffered,
      underway in one batch, delivered, or dropped with a failed batch. Numbers
      not yet assigned are nowhere. */
  lemma EachLineInOnePlace(run: seq<Step>, n: nat)
    requires Legal(INIT, run)
    ensures var s := After(INIT, run);
            Sum(s.lines, Occurs(n)) + Sum(s.batches, InBatchAt(n, Underway))
            + Sum(s.batches, InBatchAt(n, Arrived)) + Sum(s.batches, InBatchAt(n, Lost))
            == if 1 <= n <= s.seqNo then 1 else 0
  {
    var s := After(INIT, run);
    AlwaysConserved(run);
    NumberedOnce(Everything(s), s.seqNo, n);
    SumConcat(TakenLines(s.batches), s.lines, Occurs(n));
    TakenCount(s.batches, n);
  }

  // Bytes

  /** Who a line comes from: a command's output, its error output, the engine, the
      heartbeat. */
  datatype Kind = Kind(stream: Stream, level: Level, source: Source)

  /** Nothing but Write appends lines of this kind. */
  const OUTPUT := Kind(Stdout, Info, Job)

  function KindOf(l: LogLine): Kind {
    Kind(l.stream, l.level, l.source)
  }

  /** The texts of the lines of one kind, in order. */
  function TextsOf(lines: seq<LogLine>, kind: Kind): seq<string> {
    if lines == [] then []
    else
      var last := lines[|lines| - 1];
      TextsOf(lines[..|lines| - 1], kind) + if KindOf(last) == kind then [last.line] else []
  }

  lemma {:induction false} TextsOfConcat(a: seq<LogLine>, b: seq<LogLine>, kind: Kind)
    ensures TextsOf(a + b, kind) == TextsOf(a, kind) + TextsOf(b, kind)
  {
    if b == [] {
      assert a + b == a;
    } else {
      var n := |b| - 1;
      TextsOfConcat(a, b[..n], kind);
      assert (a + b)[..|a + b| - 1] == a + b[..n] && (a + b)[|a + b| - 1] == b[n];
      Regroup(TextsOf(a, kind), TextsOf(b[..n], kind), if KindOf(b[n]) == kind then [b[n].line] else []);
    }
  }

  lemma TextsOfSnoc(lines: seq<LogLine>, l: LogLine, kind: Kind)
    ensures TextsOf(lines + [l], kind) == TextsOf(lines, kind) + if KindOf(l) == kind then [l.line] else []
  {
    assert (lines + [l])[..|lines|] == lines;
  }

  lemma {:induction false} TextsOfStamped(mark: Kind, texts: seq<string>, last: nat, kind: Kind)
    ensures TextsOf(Stamp(mark.stream, mark.level, mark.source, texts, last), kind) ==
            if mark == kind then texts else []
  {
    if texts != [] {
      var n := |texts| - 1;
      TextsOfStamped(mark, texts[..n], last, kind);
      TextsOfSnoc(Stamp(mark.stream, mark.level, mark.source, texts[..n], last),
                  LogLine(mark.stream, texts[n], last + 1 + n, mark.level, mark.source), kind);
      assert texts[..n] + [texts[n]] == texts;
    }
  }

  /** What the appends of one kind brought, call by call. */
  function AppendedBy(run: seq<Step>, kind: Kind): seq<seq<string>> {
    if run == [] then []
    else
      AppendedBy(run[..|run| - 1], kind) +
      match run[|run| - 1]
      case Append(stream, level, source, texts) => if Kind(stream, level, source) == kind then [texts] else []
      case _ => []
  }

  lemma TextsStep(s: State, a: Step, kind: Kind)
    requires Enabled(s, a)
    ensures TextsOf(Everything(Next(s, a)), kind) ==
            TextsOf(Everything(s), kind) +
            if a.Append? && Kind(a.stream, a.level, a.source) == kind then a.texts else []
  {
    EverythingStep(s, a);
    if a.Append? {
      var mark := Kind(a.stream, a.level, a.source);
      TextsOfConcat(Everything(s), Stamp(a.stream, a.level, a.source, a.texts, s.seqNo), kind);
      TextsOfStamped(mark, a.texts, s.seqNo, kind);
    }
  }

  /** However writers and flushers interleave, the lines of each kind are, in the order of
      the batches and the buffer, exactly what the appends of that kind brought. */
  lemma {:induction false} KindsDoNotMix(run: seq<Step>, kind: Kind)
    requires Legal(INIT, run)
    ensures TextsOf(Everything(After(INIT, run)), kind) == Flat(AppendedBy(run, kind))
    decreases |run|
  {
    if run != [] {
      var before, a := run[..|run| - 1], run[|run| - 1];
      KindsDoNotMix(before, kind);
      TextsStep(After(INIT, before), a, kind);
      if a.Append? && Kind(a.stream, a.level, a.source) == kind {
        FlatAppend(AppendedBy(before, kind), a.texts);
      } else {
        assert AppendedBy(run, kind) == AppendedBy(before, kind);
        assert TextsOf(Everything(After(INIT, before)), kind) + [] == TextsOf(Everything(After(INIT, before)), kind);
      }
    }
  }

  lemma {:induction false} PiecesOfChunks(parts: seq<seq<string>>, chunks: seq<string>)
    requires |parts| == |chunks| && forall i :: 0 <= i < |chunks| ==> parts[i] == NonEmpty(LinesOf(chunks[i]))
    ensures Concat(Flat(parts)) == Without(Concat(chunks), NL)
  {
    if chunks != [] {
      var n := |chunks| - 1;
      PiecesOfChunks(parts[..n], chunks[..n]);
      ChunkKeepsBytes(chunks[n]);
      BytesTogether(Flat(parts[..n]), parts[n], Concat(chunks[..n]), chunks[n]);
      ConcatLast(chunks);
    }
  }

  /** So a command's output is conserved in every run: heartbeats, engine lines, error
      output and flushes in between take nothing from it and add nothing to it. */
  lemma OutputBytesKept(run: seq<Step>, chunks: seq<string>)
    requires Legal(INIT, run) && |AppendedBy(run, OUTPUT)| == |chunks|
    requires forall i :: 0 <= i < |chunks| ==> AppendedBy(run, OUTPUT)[i] == NonEmpty(LinesOf(chunks[i]))
    ensures Concat(TextsOf(Everything(After(INIT, run)), OUTPUT)) == Without(Concat(chunks), NL)
  {
    KindsDoNotMix(run, OUTPUT);
    PiecesOfChunks(AppendedBy(run, OUTPUT), chunks);
  }

  // Contiguity

  lemma {:induction false} TakenAt(batches: seq<Batch>, i: nat, j: nat)
    requires i < |batches| && j < |batches[i].lines|
    ensures |TakenLines(batches[..i])| + j < |TakenLines(batches)|
    ensures TakenLines(batches)[|TakenLines(batches[..i])| + j] == batches[i].lines[j]
  {
    var last := |batches| - 1;
    if i < last {
      TakenAt(batches[..last], i, j);
      assert batches[..last][..i] == batches[..i];
    }
  }

  /** Every batch is a contiguous interval of the numbering, and each batch
      starts where the one taken before it ended. */
  lemma BatchesAreIntervals(run: seq<Step>, i: nat, j: nat)
    requires Legal(INIT, run)
    requires i < |After(INIT, run).batches| && j < |After(INIT, run).batches[i].lines|
    ensures var s := After(INIT, run);
            && s.batches[i].lines[j].sequence == |TakenLines(s.batches[..i])| + 1 + j
            && |TakenLines(s.batches[..i + 1])| == |TakenLines(s.batches[..i])| + |s.batches[i].lines|
  {
    AlwaysConserved(run);
    IntervalAt(After(INIT, run), i, j);
  }

  lemma IntervalAt(s: State, i: nat, j: nat)
    requires Conserved(s) && i < |s.batches| && j < |s.batches[i].lines|
    ensures s.batches[i].lines[j].sequence == |TakenLines(s.batches[..i])| + 1 + j
    ensures |TakenLines(s.batches[..i + 1])| == |TakenLines(s.batches[..i])| + |s.batches[i].lines|
  {
    TakenAt(s.batches, i, j);
    var k := |TakenLines(s.batches[..i])| + j;
    assert Everything(s)[k] == TakenLines(s.batches)[k];
    assert s.batches[..i + 1][..i] == s.batches[..i];
  }

  // Handing over

  /** The batches that have been handed to StreamLogs. */
  function InSent(n: nat): Batch -> nat {
    (b: Batch) => if b.status == Taken then 0 else Sum(b.lines, Occurs(n))
  }

  lemma CallsStep(s: State, a: Step, n: nat)
    requires Enabled(s, a) && Sum(s.calls, InCall(n)) == Sum(s.batches, InSent(n))
    ensures Sum(Next(s, a).calls, InCall(n)) == Sum(Next(s, a).batches, InSent(n))
  {
    match a {
      case Send(i) =>
        SumUpdate(s.batches, i, Next(s, a).batches[i], InSent(n));
        SumAppend(s.calls, s.batches[i].lines, InCall(n));
      case Succeed(i) => SumUpdate(s.batches, i, s.batches[i].(status := Delivered), InSent(n));
      case Fail(i) => SumUpdate(s.batches, i, s.batches[i].(status := Dropped), InSent(n));
      case Take => SumAppend(s.batches, Batch(s.lines, Loop, Taken), InSent(n));
      case CloseTake => SumAppend(s.batches, Batch(s.lines, Closer, Taken), InSent(n));
      case _ =>
    }
  }

  lemma {:induction false} AlwaysCalls(run: seq<Step>, n: nat)
    requires Legal(INIT, run)
    ensures Sum(After(INIT, run).calls, InCall(n)) == Sum(After(INIT, run).batches, InSent(n))
    decreases |run|
  {
    if run != [] {
      AlwaysCalls(run[..|run| - 1], n);
      CallsStep(After(INIT, run[..|run| - 1]), run[|run| - 1], n);
    }
  }

  lemma {:induction false} SentAtMostTaken(batches: seq<Batch>, n: nat)
    ensures Sum(batches, InSent(n)) <= Sum(batches, InBatch(n))
  {
    if batches != [] {
      SentAtMostTaken(batches[..|batches| - 1], n);
    }
  }

  /** No line is ever handed to StreamLogs twice, however the flushers race. */
  lemma NoLineSentTwice(run: seq<Step>, n: nat)
    requires Legal(INIT, run)
    ensures Sum(After(INIT, run).calls, InCall(n)) <= 1
  {
    var s := After(INIT, run);
    AlwaysCalls(run, n);
    SentAtMostTaken(s.batches, n);
    TakenCount(s.batches, n);
    EachLineInOnePlace(run, n);
  }

  // Close

  predicate Swept(s: State) {
    s.closing.Swapped? || s.closing.Closed?
  }

  /** A batch that Close took is the one it noted, on a live context, and done
      once Close has returned. */
  predicate CloserFits(s: State, i: nat)
    requires i < |s.batches|
  {
    s.batches[i].taker == Closer ==>
      && Swept(s) && i == s.closing.batch
      && s.batches[i].status != InFlight(false)
      && (s.closing.Closed? ==> s.batches[i].status.Finished())
  }

  /** The lines appended before Close began: counted, and taken once Close has
      looked at the buffer. */
  predicate MarkFits(s: State) {
    && (!s.closing.Open? ==> s.closing.mark <= s.seqNo)
    && (Swept(s) ==> s.closing.mark <= |TakenLines(s.batches)|)
  }

  ghost predicate CloseSound(s: State) {
    MarkFits(s) && forall i :: 0 <= i < |s.batches| ==> CloserFits(s, i)
  }

  lemma TakenOnlyGrows(s: State, a: Step)
    requires Enabled(s, a)
    ensures |TakenLines(s.batches)| <= |TakenLines(Next(s, a).batches)|
    ensures a.CloseTake? ==> |TakenLines(Next(s, a).batches)| == |Everything(s)|
  {
    match a {
      case Take => TakenAppend(s.batches, Batch(s.lines, Loop, Taken));
      case CloseTake => TakenAppend(s.batches, Batch(s.lines, Closer, Taken));
      case Send(i) => TakenKept(s.batches, i, Next(s, a).batches[i]);
      case Succeed(i) => TakenKept(s.batches, i, Next(s, a).batches[i]);
      case Fail(i) => TakenKept(s.batches, i, Next(s, a).batches[i]);
      case _ =>
    }
  }

  lemma MarkStep(s: State, a: Step)
    requires Conserved(s) && MarkFits(s) && Enabled(s, a)
    ensures MarkFits(Next(s, a))
  {
    TakenOnlyGrows(s, a);
  }

  lemma CloserStep(s: State, a: Step, i: nat)
    requires CloseSound(s) && Enabled(s, a) && i < |Next(s, a).batches|
    ensures CloserFits(Next(s, a), i)
  {
    assert i < |s.batches| ==> CloserFits(s, i);
  }

  lemma CloseStep(s: State, a: Step)
    requires Conserved(s) && CloseSound(s) && Enabled(s, a)
    ensures CloseSound(Next(s, a))
  {
    MarkStep(s, a);
    forall i | 0 <= i < |Next(s, a).batches|
      ensures CloserFits(Next(s, a), i)
    {
      CloserStep(s, a, i);
    }
  }

  lemma {:induction false} AlwaysCloseSound(run: seq<Step>)
    requires Legal(INIT, run)
    ensures CloseSound(After(INIT, run))
    decreases |run|
  {
    if run != [] {
      AlwaysConserved(run[..|run| - 1]);
      AlwaysCloseSound(run[..|run| - 1]);
      CloseStep(After(INIT, run[..|run| - 1]), run[|run| - 1]);
    }
  }

  lemma MarkIsTaken(s: State, n: nat)
    requires Conserved(s) && MarkFits(s) && Swept(s) && 1 <= n <= s.closing.mark
    ensures Sum(s.lines, Occurs(n)) == 0 && Sum(s.batches, InBatch(n)) == 1
  {
    var taken := TakenLines(s.batches);
    assert taken == Everything(s)[..|taken|];
    NumberedOnce(taken, |taken|, n);
    TakenCount(s.batches, n);
    NumberedOnce(Everything(s), s.seqNo, n);
    SumConcat(taken, s.lines, Occurs(n));
  }

  /** Once Close has returned, every line appended before it began has left the
      buffer in exactly one batch, and the batch Close itself took was sent on a
      live context and is done, even if the parent was cancelled meanwhile. */
  lemma CloseLeavesNothingBehind(run: seq<Step>, n: nat)
    requires Legal(INIT, run) && After(INIT, run).closing.Closed?
    requires 1 <= n <= After(INIT, run).closing.mark
    ensures var s := After(INIT, run);
            && Sum(s.lines, Occurs(n)) == 0
            && Sum(s.batches, InBatch(n)) == 1
            && (forall i :: 0 <= i < |s.batches| && s.batches[i].taker == Closer ==>
                  i == s.closing.batch && s.batches[i].status.Finished())
  {
    var s := After(INIT, run);
    AlwaysConserved(run);
    AlwaysCloseSound(run);
    MarkIsTaken(s, n);
    CloserIsDone(s);
  }

  lemma CloserIsDone(s: State)
    requires CloseSound(s) && s.closing.Closed?
    ensures forall i :: 0 <= i < |s.batches| && s.batches[i].taker == Closer ==>
              i == s.closing.batch && s.batches[i].status.Finished()
  {
    forall i | 0 <= i < |s.batches| && s.batches[i].taker == Closer
      ensures i == s.closing.batch && s.batches[i].status.Finished()
    {
      assert CloserFits(s, i);
    }
  }

  /** Cancellation of the parent never reaches a batch that Close sends. */
  lemma CloseSendsLive(run: seq<Step>, i: nat)
    requires Legal(INIT, run) && i < |After(INIT, run).batches| && After(INIT, run).batches[i].taker == Closer
    requires After(INIT, run).batches[i].status.InFlight?
    ensures Enabled(After(INIT, run), Succeed(i))
  {
    AlwaysCloseSound(run);
    assert CloserFits(After(INIT, run), i);
  }
}
