/** The log batcher as one object: what its writers, flushes and Close do to the
    buffer, the shared sequence counter and the batches handed to the client. */
module LogBatchers {
  import opened Sums
  import opened Text

  datatype Stream = Stdout | Stderr
  datatype Level = Info | Error | Debug
  datatype Source = Job | System

  /** The wall-clock timestamp of a line is left out. */
  datatype LogLine = LogLine(stream: Stream, line: string, sequence: nat, level: Level, source: Source)

  function LevelOf(stream: Stream): Level {
    if stream == Stderr then Error else Info
  }

  /** A StreamLogs call: the lines it carries and whether its context was still
      live when the call was made. */
  datatype Delivery = Delivery(lines: seq<LogLine>, live: bool)

  const HEARTBEAT_AFTER := 30

  // Line splitting

  function DropEmptyEnd(parts: seq<string>): seq<string>
    requires parts != []
  {
    if parts[|parts| - 1] == "" then parts[..|parts| - 1] else parts
  }

  /** The lines of a chunk: like Split, minus the empty piece after a final
      newline (and no line at all for an empty chunk). */
  function LinesOf(s: string): seq<string> {
    DropEmptyEnd(Split(s, NL))
  }

  /** Nothing is dropped, as the comment on splitLines has it, exactly for a text that
      is not empty and does not end in a newline. */
  lemma NothingDroppedIff(s: string)
    ensures LinesOf(s) == Split(s, NL) <==> s != "" && s[|s| - 1] != NL
  {
    LastPieceEmptyIff(s, NL);
  }

  /** helpers.go splitLines. */
  method SplitLines(s: string) returns (lines: seq<string>)
    ensures lines == LinesOf(s)
  {
    lines := [];
    var start := 0;
    var i := 0;
    while i < |s|
      invariant 0 <= start <= i <= |s|
      invariant lines + [s[start..i]] == Split(s[..i], NL)
    {
      SplitSnoc(s[..i], s[i], NL);
      assert s[..i + 1] == s[..i] + [s[i]];
      var piece := s[start..i];
      if s[i] == NL {
        lines := lines + [piece];
        start := i + 1;
        assert s[start..i + 1] == "";
      } else {
        assert s[start..i + 1] == piece + [s[i]];
        assert GrowLast(lines + [piece], s[i]) == lines + [piece + [s[i]]];
      }
      i := i + 1;
    }
    assert s[..|s|] == s;
    assert (lines + [s[start..]])[..|lines|] == lines;
    if start < |s| {
      lines := lines + [s[start..]];
    }
  }

  /** The pieces a chunk contributes: the empty ones are skipped. */
  function NonEmpty(parts: seq<string>): seq<string> {
    if parts == [] then [] else Piece(parts[0]) + NonEmpty(parts[1..])
  }

  function Piece(part: string): seq<string> {
    if part == "" then [] else [part]
  }

  lemma ConcatPiece(part: string, rest: seq<string>)
    ensures Concat(Piece(part) + rest) == part + Concat(rest)
  {
    if part == "" {
      assert Piece(part) + rest == rest;
    } else {
      assert ([part] + rest)[1..] == rest;
    }
  }

  lemma {:induction false} ConcatNonEmpty(parts: seq<string>)
    ensures Concat(NonEmpty(parts)) == Concat(parts)
  {
    if parts != [] {
      ConcatNonEmpty(parts[1..]);
      ConcatPiece(parts[0], NonEmpty(parts[1..]));
    }
  }

  lemma {:induction false} NonEmptyAppend(a: seq<string>, b: seq<string>)
    ensures NonEmpty(a + b) == NonEmpty(a) + NonEmpty(b)
  {
    if a == [] {
      assert a + b == b;
    } else {
      NonEmptyAppend(a[1..], b);
      assert (a + b)[1..] == a[1..] + b && (a + b)[0] == a[0];
      Regroup(Piece(a[0]), NonEmpty(a[1..]), NonEmpty(b));
    }
  }

  lemma NonEmptySnoc(parts: seq<string>, i: nat)
    requires i < |parts|
    ensures NonEmpty(parts[..i + 1]) == NonEmpty(parts[..i]) + Piece(parts[i])
  {
    assert parts[..i + 1] == parts[..i] + [parts[i]];
    NonEmptyAppend(parts[..i], [parts[i]]);
    assert [parts[i]][1..] == [];
  }

  lemma DropEmptyKeepsBytes(parts: seq<string>)
    requires parts != []
    ensures Concat(DropEmptyEnd(parts)) == Concat(parts)
  {
    var n := |parts| - 1;
    assert parts == parts[..n] + [parts[n]];
    ConcatAppend(parts[..n], [parts[n]]);
    assert [parts[n]][1..] == [];
  }

  /** A chunk loses nothing but its newlines. */
  lemma ChunkKeepsBytes(s: string)
    ensures Concat(NonEmpty(LinesOf(s))) == Without(s, NL)
  {
    ConcatSplit(s, NL);
    ConcatNonEmpty(LinesOf(s));
    DropEmptyKeepsBytes(Split(s, NL));
  }

  // Stamping

  /** The lines of `texts` with the sequence numbers following `last`. */
  function Stamp(stream: Stream, level: Level, source: Source, texts: seq<string>, last: nat): (r: seq<LogLine>)
    ensures |r| == |texts|
    ensures forall i :: 0 <= i < |r| ==> r[i] == LogLine(stream, texts[i], last + 1 + i, level, source)
  {
    if texts == [] then []
    else
      var n := |texts| - 1;
      Stamp(stream, level, source, texts[..n], last) + [LogLine(stream, texts[n], last + 1 + n, level, source)]
  }

  /** One more piece is one more line, unless it is empty. */
  lemma StampPiece(before: seq<LogLine>, stream: Stream, level: Level, source: Source, pieces: seq<string>, i: nat,
                   first: nat)
    requires i < |pieces|
    ensures var kept, more := NonEmpty(pieces[..i]), NonEmpty(pieces[..i + 1]);
            if pieces[i] == "" then more == kept
            else
              && |more| == |kept| + 1
              && before + Stamp(stream, level, source, more, first) ==
                 before + Stamp(stream, level, source, kept, first)
                 + [LogLine(stream, pieces[i], first + 1 + |kept|, level, source)]
  {
    NonEmptySnoc(pieces, i);
    var kept := NonEmpty(pieces[..i]);
    assert (kept + [pieces[i]])[..|kept|] == kept;
  }

  function Texts(lines: seq<LogLine>): seq<string> {
    seq(|lines|, i requires 0 <= i < |lines| => lines[i].line)
  }

  /** Line number i is at position i - 1: no gap, no repetition, no reordering. */
  ghost predicate Numbered(lines: seq<LogLine>, last: nat) {
    |lines| == last && forall i :: 0 <= i < last ==> lines[i].sequence == i + 1
  }

  // The batcher

  class LogBatcher {
    var lines: seq<LogLine>
    var seqNo: nat
    var lastAppend: int
    const startedAt: int
    var parentDone: bool    // the parent context was cancelled
    var cancelled: bool     // lb.cancel was called
    var closed: bool        // closeOnce has run
    var calls: seq<Delivery>          // StreamLogs calls, in order
    ghost var taken: seq<seq<LogLine>>  // batches swapped out of the buffer, in order

    /** Everything ever appended, in the order of the batches taken. */
    ghost function All(): seq<LogLine>
      reads this
    {
      Flat(taken) + lines
    }

    ghost predicate Valid()
      reads this
    {
      && Numbered(All(), seqNo)
      && |calls| == |taken|
      && (forall i :: 0 <= i < |taken| ==> calls[i].lines == taken[i] != [])
      && (closed ==> cancelled)
    }

    constructor (now: int)
      ensures Valid() && All() == [] && calls == [] && !closed && !parentDone && lastAppend == now
    {
      lines, seqNo, lastAppend, startedAt := [], 0, now, now;
      parentDone, cancelled, closed := false, false, false;
      calls, taken := [], [];
    }

    /** appendLineLocked with nextSeqLocked. */
    method AppendLine(stream: Stream, level: Level, source: Source, line: string)
      requires Valid()
      modifies this`lines, this`seqNo
      ensures Valid()
      ensures seqNo == old(seqNo) + 1
      ensures lines == old(lines) + [LogLine(stream, line, seqNo, level, source)]
      ensures All() == old(All()) + [LogLine(stream, line, seqNo, level, source)]
    {
      seqNo := seqNo + 1;
      lines := lines + [LogLine(stream, line, seqNo, level, source)];
      assert All() == old(All()) + [LogLine(stream, line, seqNo, level, source)];
    }

    /** Writef. */
    method Writef(level: Level, source: Source, message: string)
      requires Valid()
      modifies this`lines, this`seqNo
      ensures Valid()
      ensures All() == old(All()) + [LogLine(Stdout, message, seqNo, level, source)]
    {
      AppendLine(Stdout, level, source, message);
    }

    /** The first i pieces have been appended to `before`. */
    ghost predicate Appended(before: seq<LogLine>, stream: Stream, level: Level, pieces: seq<string>, i: nat)
      requires i <= |pieces|
      reads this
    {
      && Valid()
      && seqNo == |before| + |NonEmpty(pieces[..i])|
      && All() == before + Stamp(stream, level, Job, NonEmpty(pieces[..i]), |before|)
    }

    /** One round of the loop of append: an empty piece is skipped. */
    method AppendPiece(stream: Stream, level: Level, pieces: seq<string>, i: nat, ghost before: seq<LogLine>)
      requires i < |pieces| && Appended(before, stream, level, pieces, i)
      modifies this`lines, this`seqNo
      ensures Appended(before, stream, level, pieces, i + 1)
    {
      StampPiece(before, stream, level, Job, pieces, i, |before|);
      if pieces[i] != "" {
        AppendLine(stream, level, Job, pieces[i]);
      }
    }

    /** The loop of append: one numbered line for each non-empty piece, in order. */
    method AppendPieces(stream: Stream, level: Level, pieces: seq<string>)
      requires Valid()
      modifies this`lines, this`seqNo
      ensures Valid()
      ensures All() == old(All()) + Stamp(stream, level, Job, NonEmpty(pieces), old(seqNo))
    {
      ghost var before := All();
      var i := 0;
      assert before + Stamp(stream, level, Job, NonEmpty(pieces[..0]), |before|) == before;
      while i < |pieces|
        invariant 0 <= i <= |pieces| && Appended(before, stream, level, pieces, i)
      {
        AppendPiece(stream, level, pieces, i, before);
        i := i + 1;
      }
      assert pieces[..|pieces|] == pieces;
    }

    /** append: the non-empty lines of the chunk, in order, one number each. */
    method Append(stream: Stream, p: string, now: int) returns (n: nat)
      requires Valid()
      modifies this`lines, this`seqNo, this`lastAppend
      ensures Valid() && n == |p| && lastAppend == now
      ensures All() == old(All()) + Stamp(stream, LevelOf(stream), Job, NonEmpty(LinesOf(p)), old(seqNo))
    {
      lastAppend := now;
      var pieces := SplitLines(p);
      AppendPieces(stream, LevelOf(stream), pieces);
      n := |p|;
    }

    method Write(p: string, now: int) returns (n: nat)
      requires Valid()
      modifies this`lines, this`seqNo, this`lastAppend
      ensures Valid() && n == |p| && lastAppend == now
      ensures All() == old(All()) + OneWrite(p, old(seqNo)) && seqNo == old(seqNo) + |OneWrite(p, old(seqNo))|
    {
      n := Append(Stdout, p, now);
    }

    method WriteErr(p: string, now: int) returns (n: nat)
      requires Valid()
      modifies this`lines, this`seqNo, this`lastAppend
      ensures Valid() && n == |p| && lastAppend == now
      ensures All() == old(All()) + Stamp(Stderr, Error, Job, NonEmpty(LinesOf(p)), old(seqNo))
    {
      n := Append(Stderr, p, now);
    }

    /** One Write of a command's output copier: what is appended and what is still
        to come stay together the same. */
    method CopyNext(chunks: seq<string>, i: nat, now: int, ghost total: seq<LogLine>)
      requires Valid() && i < |chunks| && All() + Written(chunks[i..], seqNo) == total
      modifies this`lines, this`seqNo, this`lastAppend
      ensures Valid() && All() + Written(chunks[i + 1..], seqNo) == total
    {
      WrittenRest(All(), chunks, i, seqNo);
      var n := Write(chunks[i], now);
    }

    /** A command's output: its copier makes one Write call per chunk it reads. */
    method CopyOutput(chunks: seq<string>, now: int)
      requires Valid()
      modifies this`lines, this`seqNo, this`lastAppend
      ensures Valid() && All() == old(All()) + Written(chunks, old(seqNo))
    {
      ghost var total := All() + Written(chunks, seqNo);
      var i := 0;
      assert chunks[0..] == chunks;
      while i < |chunks|
        invariant 0 <= i <= |chunks| && Valid()
        invariant All() + Written(chunks[i..], seqNo) == total
      {
        CopyNext(chunks, i, now, total);
        i := i + 1;
      }
    }

    /** flushNowWith: the whole buffer leaves as one batch, and the client is
        called exactly when there is something to send. A failed call drops the
        batch; the result of the call changes nothing here. */
    method FlushNowWith(live: bool)
      requires Valid()
      modifies this`lines, this`taken, this`calls
      ensures Valid() && lines == [] && All() == old(All())
      ensures taken == old(taken) + (if old(lines) == [] then [] else [old(lines)])
      ensures calls == old(calls) + (if old(lines) == [] then [] else [Delivery(old(lines), live)])
    {
      if |lines| == 0 {
        return;
      }
      var batch := lines;
      FlatAppend(taken, batch);
      taken := taken + [batch];
      lines := [];
      calls := calls + [Delivery(batch, live)];
    }

    /** flushNow uses the batcher's own context. */
    method FlushNow()
      requires Valid()
      modifies this`lines, this`taken, this`calls
      ensures Valid() && lines == [] && All() == old(All())
      ensures calls == old(calls) +
              (if old(lines) == [] then [] else [Delivery(old(lines), !parentDone && !cancelled)])
    {
      FlushNowWith(!parentDone && !cancelled);
    }

    /** maybeWriteHeartbeat: one debug line after 30 quiet seconds. */
    method MaybeWriteHeartbeat(now: int, message: string)
      requires Valid()
      modifies this`lines, this`seqNo, this`lastAppend
      ensures Valid()
      ensures now - old(lastAppend) < HEARTBEAT_AFTER ==> All() == old(All()) && lastAppend == old(lastAppend)
      ensures now - old(lastAppend) >= HEARTBEAT_AFTER ==>
                All() == old(All()) + [LogLine(Stdout, message, seqNo, Debug, Job)] && lastAppend == now
    {
      if now - lastAppend < HEARTBEAT_AFTER {
        return;
      }
      AppendLine(Stdout, Debug, Job, message);
      lastAppend := now;
    }

    /** Close: idempotent; the first call leaves nothing buffered and sends the
        last batch on a context that parent cancellation does not reach. */
    method Close()
      requires Valid()
      modifies this`lines, this`taken, this`calls, this`cancelled, this`closed
      ensures Valid() && closed && All() == old(All())
      ensures old(closed) ==> unchanged(this)
      ensures !old(closed) ==> lines == [] && Flat(taken) == old(All())
      ensures !old(closed) ==>
                calls == old(calls) + (if old(lines) == [] then [] else [Delivery(old(lines), true)])
    {
      if !closed {
        FlushNowWith(true);
        cancelled := true;
        closed := true;
      }
    }
  }

  // A stream of writes

  /** The lines one Write call appends. */
  function OneWrite(chunk: string, last: nat): seq<LogLine> {
    Stamp(Stdout, Info, Job, NonEmpty(LinesOf(chunk)), last)
  }

  /** The lines a sequence of Write calls appends, given the counter before: one
      call after the other adds what Write's contract says. */
  function Written(chunks: seq<string>, last: nat): seq<LogLine> {
    if chunks == [] then []
    else
      var first := OneWrite(chunks[0], last);
      first + Written(chunks[1..], last + |first|)
  }

  lemma WrittenRest(before: seq<LogLine>, chunks: seq<string>, i: nat, last: nat)
    requires i < |chunks|
    ensures var first := OneWrite(chunks[i], last);
            before + Written(chunks[i..], last) == before + first + Written(chunks[i + 1..], last + |first|)
  {
    assert chunks[i..][1..] == chunks[i + 1..];
  }

  /** All pieces of all chunks. */
  function Pieces(chunks: seq<string>): seq<string> {
    if chunks == [] then [] else NonEmpty(LinesOf(chunks[0])) + Pieces(chunks[1..])
  }

  lemma TextsOfWrite(chunk: string, last: nat, rest: seq<LogLine>)
    ensures Texts(OneWrite(chunk, last) + rest) == NonEmpty(LinesOf(chunk)) + Texts(rest)
  {
  }

  lemma {:induction false} WrittenTexts(chunks: seq<string>, last: nat)
    ensures Texts(Written(chunks, last)) == Pieces(chunks)
  {
    if chunks != [] {
      var next := last + |OneWrite(chunks[0], last)|;
      WrittenTexts(chunks[1..], next);
      TextsOfWrite(chunks[0], last, Written(chunks[1..], next));
    }
  }

  lemma BytesTogether(texts: seq<string>, more: seq<string>, a: string, b: string)
    requires Concat(texts) == Without(a, NL) && Concat(more) == Without(b, NL)
    ensures Concat(texts + more) == Without(a + b, NL)
  {
    WithoutAppend(a, b, NL);
    ConcatAppend(texts, more);
  }

  lemma {:induction false} PiecesKeepBytes(chunks: seq<string>)
    ensures Concat(Pieces(chunks)) == Without(Concat(chunks), NL)
  {
    if chunks != [] {
      ChunkKeepsBytes(chunks[0]);
      PiecesKeepBytes(chunks[1..]);
      BytesTogether(NonEmpty(LinesOf(chunks[0])), Pieces(chunks[1..]), chunks[0], Concat(chunks[1..]));
    }
  }

  /** Bytes are conserved whatever the chunking: in sequence order the line
      texts are the written bytes without the newlines. */
  lemma WritesKeepBytes(chunks: seq<string>, last: nat)
    ensures Concat(Texts(Written(chunks, last))) == Without(Concat(chunks), NL)
  {
    WrittenTexts(chunks, last);
    PiecesKeepBytes(chunks);
  }

  /** So two chunkings of the same output deliver the same text. */
  lemma ChunkingDoesNotMatter(a: seq<string>, b: seq<string>, last: nat)
    requires Concat(a) == Concat(b)
    ensures Concat(Texts(Written(a, last))) == Concat(Texts(Written(b, last)))
  {
    WritesKeepBytes(a, last);
    WritesKeepBytes(b, last);
  }

  lemma LinesAfterCut(a: string, b: string)
    ensures LinesOf(a + [NL] + b) == Split(a, NL) + LinesOf(b)
  {
    SplitConcat(a, b, NL);
    DropEmptyAppend(Split(a, NL), Split(b, NL));
  }

  lemma DropEmptyAppend(a: seq<string>, b: seq<string>)
    requires b != []
    ensures DropEmptyEnd(a + b) == a + DropEmptyEnd(b)
  {
    assert (a + b)[..|a + b| - 1] == a + b[..|b| - 1];
  }

  lemma LinesOfEnded(a: string)
    ensures LinesOf(a + [NL]) == Split(a, NL)
  {
    LinesAfterCut(a, "");
    assert a + [NL] + "" == a + [NL];
    assert Split(a, NL) + LinesOf("") == Split(a, NL);
  }

  /** If a chunk ends a line, cutting there changes nothing at all. */
  lemma CutAtLineEnd(a: string, b: string)
    ensures NonEmpty(LinesOf(a + [NL] + b)) == NonEmpty(LinesOf(a + [NL])) + NonEmpty(LinesOf(b))
  {
    LinesAfterCut(a, b);
    LinesOfEnded(a);
    NonEmptyAppend(Split(a, NL), LinesOf(b));
  }
}
