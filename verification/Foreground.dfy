/**
  packages/ext-background-bash/src/foreground.ts: the loop that follows a command,
  keeps the end of its output and spills long output to a file.
 */
module Foreground {
  import opened ForegroundText
  import opened OutputBuffer
  import opened Sequences
  import opened Utf16
  import opened Utf8
  import opened Wrappers

  const TAIL_BYTES: nat := 2 * FOREGROUND_MAX_BYTES

  /** Which storage call of a spill fails, if any. */
  datatype SpillFault = Works | MkdirFails | WriteFails | AppendFails

  datatype Outcome =
    | Exited(output: seq<Unit>, exitCode: Option<int>, truncated: bool, fullOutputPath: Option<string>)
    | TimedOut
    | Cancelled
    | Continues

  function CountNewlines(bytes: seq<Byte>): nat {
    if bytes == [] then 0 else (if bytes[0] == 10 then 1 else 0) + CountNewlines(bytes[1..])
  }

  lemma {:induction false} CountConcat(a: seq<Byte>, b: seq<Byte>)
    ensures CountNewlines(a + b) == CountNewlines(a) + CountNewlines(b)
  {
    if a == [] {
      assert a + b == b;
    } else {
      assert (a + b)[1..] == a[1..] + b;
      CountConcat(a[1..], b);
    }
  }

  /** The lines of an output, counting an unfinished one. */
  function Lines(bytes: seq<Byte>): nat {
    if bytes == [] then 0 else CountNewlines(bytes) + (if bytes[|bytes| - 1] == 10 then 0 else 1)
  }

  /** More output never has fewer lines. */
  lemma LinesMonotone(a: seq<Byte>, b: seq<Byte>)
    ensures Lines(a) <= Lines(a + b)
  {
    CountConcat(a, b);
    if b != [] && b[|b| - 1] == 10 {
      CountConcat(b[..|b| - 1], [b[|b| - 1]]);
      assert b == b[..|b| - 1] + [b[|b| - 1]];
    } else if b == [] {
      assert a + b == a;
    }
  }

  /** The output is too long to be returned whole. */
  predicate OverLimit(offset: nat, received: seq<Byte>) {
    received != [] && (offset > FOREGROUND_MAX_BYTES || Lines(received) > FOREGROUND_MAX_LINES)
  }

  /** Counting and the retained end. */
  ghost predicate TailOk(newlines: nat, lastByte: Option<Byte>, tail: seq<seq<Byte>>, tailBytes: nat,
                         received: seq<Byte>) {
    && newlines == CountNewlines(received)
    && lastByte == (if received == [] then None else Some(received[|received| - 1]))
    && Flatten(tail) == Last(received, TAIL_BYTES)
    && tailBytes == |Flatten(tail)|
  }

  /** Whatever was received is held in `pending` or in the spill file, unless spilling failed. */
  ghost predicate SpillOk(failed: bool, path: Option<string>, pending: seq<seq<Byte>>, file: seq<Byte>,
                          offset: nat, received: seq<Byte>)
  {
    && (failed ==> OverLimit(offset, received) && path.None? && pending == [])
    && (!failed && path.None? ==> Flatten(pending) == received)
    && (path.Some? ==> file == received && pending == [] && OverLimit(offset, received))
  }

  /** `truncated` is set exactly when bytes were lost before they were read or the output is too long. */
  ghost predicate TruncatedOk(truncated: bool, offset: nat, received: seq<Byte>, seen: seq<Byte>) {
    && offset == |seen| && |received| <= offset
    && (truncated <==> |received| < offset || OverLimit(offset, received))
    && (|received| == offset ==> received == seen)
  }

  lemma StartOk()
    ensures TailOk(0, None, [], 0, []) && SpillOk(false, None, [], [], 0, []) && TruncatedOk(false, 0, [], [])
  {
  }

  /** A byte begins a line exactly when it is the first one or follows a line feed. */
  lemma LinesAsTold(bytes: seq<Byte>, next: Byte)
    ensures Lines([]) == 0
    ensures Lines(bytes + [next]) == Lines(bytes) + (if bytes == [] || bytes[|bytes| - 1] == 10 then 1 else 0)
  {
    CountConcat(bytes, [next]);
  }

  /** Output that was too long stays too long. */
  lemma OverLimitStays(offset: nat, received: seq<Byte>, later: nat, output: seq<Byte>)
    requires OverLimit(offset, received) && offset <= later
    ensures OverLimit(later, received + output)
  {
    LinesMonotone(received, output);
  }

  lemma TruncatedStep(truncated: bool, offset: nat, received: seq<Byte>, seen: seq<Byte>, output: seq<Byte>,
                      stream: seq<Byte>)
    requires TruncatedOk(truncated, offset, received, seen) && seen <= stream && |stream| >= offset + |output|
    requires |stream| == offset + |output| ==> output == stream[offset..]
    ensures var over := output != [] && OverLimit(|stream|, received + output);
            TruncatedOk(truncated || |stream| > offset + |output| || over, |stream|, received + output, stream)
  {
    if OverLimit(offset, received) { OverLimitStays(offset, received, |stream|, output); }
    if output == [] { assert received + output == received; }
    if |received| == offset && |stream| == offset + |output| { assert seen + output == stream; }
  }

  lemma TailKept(newlines: nat, lastByte: Option<Byte>, tail: seq<seq<Byte>>, tailBytes: nat,
                 received: seq<Byte>, output: seq<Byte>)
    requires newlines == CountNewlines(received + output) && output != []
    requires lastByte == Some(output[|output| - 1])
    requires Flatten(tail) == Last(received + output, TAIL_BYTES) && tailBytes == |Flatten(tail)|
    ensures TailOk(newlines, lastByte, tail, tailBytes, received + output)
    ensures Lines(received + output) == newlines + (if lastByte == Some(10) then 0 else 1)
  {
  }

  lemma SpillIdle(failed: bool, path: Option<string>, pending: seq<seq<Byte>>, file: seq<Byte>,
                  offset: nat, received: seq<Byte>, later: nat)
    requires SpillOk(failed, path, pending, file, offset, received) && offset <= later
    ensures SpillOk(failed, path, pending, file, later, received)
  {
    if OverLimit(offset, received) {
      OverLimitStays(offset, received, later, []);
      assert received + [] == received;
    }
  }

  /** While the output is short nothing has been spilled, so it can be kept in memory. */
  lemma SpillKeeps(failed: bool, path: Option<string>, pending: seq<seq<Byte>>, file: seq<Byte>,
                   offset: nat, received: seq<Byte>, later: nat, output: seq<Byte>)
    requires SpillOk(failed, path, pending, file, offset, received) && offset <= later
    requires !OverLimit(later, received + output)
    ensures SpillOk(failed, path, pending + [output], file, later, received + output)
  {
    if OverLimit(offset, received) { OverLimitStays(offset, received, later, output); }
    FlattenPush(pending, output);
  }

  /** The variables of the loop; `spillFile` is what the file at `fullOutputPath` holds. */
  datatype Progress = Progress(
    offset: nat,
    newlines: nat,
    lastByte: Option<Byte>,
    tail: seq<seq<Byte>>,
    tailBytes: nat,
    pending: seq<seq<Byte>>,
    truncated: bool,
    spillFailed: bool,
    fullOutputPath: Option<string>,
    spillFile: seq<Byte>)

  const START := Progress(0, 0, None, [], 0, [], false, false, None, [])

  /** What every turn keeps: `received` is every byte read so far, `seen` the stream when it was last read. */
  ghost predicate Keeps(p: Progress, received: seq<Byte>, seen: seq<Byte>) {
    && TailOk(p.newlines, p.lastByte, p.tail, p.tailBytes, received)
    && SpillOk(p.spillFailed, p.fullOutputPath, p.pending, p.spillFile, p.offset, received)
    && TruncatedOk(p.truncated, p.offset, received, seen)
  }

  method CountOutput(newlines: nat, output: seq<Byte>) returns (n: nat)
    ensures n == newlines + CountNewlines(output)
  {
    n := newlines;
    for i := 0 to |output|
      invariant n == newlines + CountNewlines(output[..i])
    {
      TakeNext(output, i);
      CountConcat(output[..i], [output[i]]);
      if output[i] == 10 { n := n + 1; }
    }
    TakeAll(output);
  }

  /** Appends a piece to the tail and drops bytes from its front until it fits. */
  method RetainTail(tail: seq<seq<Byte>>, tailBytes: nat, output: seq<Byte>, ghost received: seq<Byte>)
    returns (kept: seq<seq<Byte>>, size: nat)
    requires Flatten(tail) == Last(received, TAIL_BYTES) && tailBytes == |Flatten(tail)|
    ensures Flatten(kept) == Last(received + output, TAIL_BYTES) && size == |Flatten(kept)|
  {
    var retained := if |output| > TAIL_BYTES then output[|output| - TAIL_BYTES..] else output;
    assert retained == Last(output, TAIL_BYTES);
    LastAppendLast(received, output, TAIL_BYTES);
    ghost var goal := Last(received + output, TAIL_BYTES);
    FlattenPush(tail, retained);
    kept, size := tail + [retained], tailBytes + |retained|;
    while size > TAIL_BYTES
      invariant size == |Flatten(kept)| >= |goal| && Last(Flatten(kept), TAIL_BYTES) == goal
      decreases size, |kept|
    {
      var first := kept[0];
      var excess := size - TAIL_BYTES;
      if |first| <= excess {
        DropPiece(kept, TAIL_BYTES);
        kept, size := kept[1..], size - |first|;
      } else {
        CutPiece(kept, excess, TAIL_BYTES);
        kept, size := kept[0 := first[excess..]], size - excess;
      }
    }
  }

  lemma DropPiece(kept: seq<seq<Byte>>, n: nat)
    requires kept != [] && |Flatten(kept)| >= |kept[0]| + n
    ensures |Flatten(kept[1..])| == |Flatten(kept)| - |kept[0]| && Last(Flatten(kept[1..]), n) == Last(Flatten(kept), n)
  {
    assert Flatten(kept[1..]) == Flatten(kept)[|kept[0]|..];
  }

  lemma CutPiece(kept: seq<seq<Byte>>, excess: nat, n: nat)
    requires kept != [] && excess < |kept[0]| && |Flatten(kept)| == excess + n
    ensures var cut := kept[0 := kept[0][excess..]]; |Flatten(cut)| == n && Last(Flatten(cut), n) == Last(Flatten(kept), n)
  {
    var cut := kept[0 := kept[0][excess..]];
    assert cut[1..] == kept[1..];
    assert Flatten(cut) == Flatten(kept)[excess..];
  }

  method JoinPieces(pieces: seq<seq<Byte>>) returns (content: seq<Byte>)
    ensures content == Flatten(pieces)
  {
    content := [];
    for i := 0 to |pieces|
      invariant content == Flatten(pieces[..i])
    {
      TakeNext(pieces, i);
      FlattenPush(pieces[..i], pieces[i]);
      content := content + pieces[i];
    }
    TakeAll(pieces);
  }

  /** Writes out what is pending and the new output, or only the latter once there is a file. */
  method SpillOutput(p: Progress, output: seq<Byte>, path: string, fault: SpillFault, ghost received: seq<Byte>)
    returns (r: Progress)
    requires SpillOk(p.spillFailed, p.fullOutputPath, p.pending, p.spillFile, p.offset, received)
    requires OverLimit(p.offset, received + output)
    ensures SpillOk(r.spillFailed, r.fullOutputPath, r.pending, r.spillFile, r.offset, received + output)
    ensures r.spillFailed == (p.spillFailed || fault == AppendFails || (p.fullOutputPath.None? && fault != Works))
    ensures !r.spillFailed ==> r.fullOutputPath == Some(p.fullOutputPath.GetOr(path))
    ensures r == p.(pending := r.pending, spillFailed := r.spillFailed,
                    fullOutputPath := r.fullOutputPath, spillFile := r.spillFile)
  {
    if p.spillFailed { return p; }
    if SpillBreaks(p.fullOutputPath.None?, fault) {
      return p.(spillFailed := true, fullOutputPath := None, pending := []);
    }
    if p.fullOutputPath.None? {
      var content := JoinPieces(p.pending);
      r := p.(fullOutputPath := Some(path), spillFile := content + output, pending := []);
    } else {
      r := p.(spillFile := p.spillFile + output);
    }
  }

  /** Non-empty output is counted and kept: at the end of the tail, and in memory or in the spill file. */
  method Keep(p: Progress, output: seq<Byte>, path: string, fault: SpillFault, ghost before: nat,
              ghost received: seq<Byte>)
    returns (r: Progress)
    requires TailOk(p.newlines, p.lastByte, p.tail, p.tailBytes, received)
    requires SpillOk(p.spillFailed, p.fullOutputPath, p.pending, p.spillFile, before, received)
    requires output != [] && before <= p.offset
    ensures TailOk(r.newlines, r.lastByte, r.tail, r.tailBytes, received + output)
    ensures SpillOk(r.spillFailed, r.fullOutputPath, r.pending, r.spillFile, r.offset, received + output)
    ensures r.truncated == (p.truncated || OverLimit(p.offset, received + output)) && r.offset == p.offset
    ensures p.fullOutputPath.Some? && !r.spillFailed ==> r.fullOutputPath == p.fullOutputPath
    ensures p.offset > 50 * 1024 || Lines(received + output) > 2000 ==> r.spillFailed || r.fullOutputPath.Some?
  {
    CountConcat(received, output);
    var newlines := CountOutput(p.newlines, output);
    var lastByte := Some(output[|output| - 1]);
    var lines := newlines + (if lastByte == Some(10) then 0 else 1);
    var tail, tailBytes := RetainTail(p.tail, p.tailBytes, output, received);
    TailKept(newlines, lastByte, tail, tailBytes, received, output);
    r := Store(p, output, lines, path, fault, before, received);
    r := r.(newlines := newlines, lastByte := lastByte, tail := tail, tailBytes := tailBytes);
  }

  /** Keeps the output in memory while the whole is short, in the spill file once it is not. */
  method Store(p: Progress, output: seq<Byte>, lines: nat, path: string, fault: SpillFault,
               ghost before: nat, ghost received: seq<Byte>) returns (r: Progress)
    requires SpillOk(p.spillFailed, p.fullOutputPath, p.pending, p.spillFile, before, received)
    requires output != [] && before <= p.offset && lines == Lines(received + output)
    ensures SpillOk(r.spillFailed, r.fullOutputPath, r.pending, r.spillFile, r.offset, received + output)
    ensures r.truncated == (p.truncated || OverLimit(p.offset, received + output)) && r.offset == p.offset
    ensures p.fullOutputPath.Some? && !r.spillFailed ==> r.fullOutputPath == p.fullOutputPath
    ensures p.offset > 50 * 1024 || Lines(received + output) > 2000 ==> r.spillFailed || r.fullOutputPath.Some?
  {
    if p.offset > FOREGROUND_MAX_BYTES || lines > FOREGROUND_MAX_LINES {
      SpillIdle(p.spillFailed, p.fullOutputPath, p.pending, p.spillFile, before, received, p.offset);
      r := SpillOutput(p.(truncated := true), output, path, fault, received);
    } else {
      SpillKeeps(p.spillFailed, p.fullOutputPath, p.pending, p.spillFile, before, received, p.offset, output);
      r := p.(pending := p.pending + [output]);
    }
  }

  /** One turn of the loop after its read: accounts for what the snapshot brought. */
  method Receive(p: Progress, snapshot: Snapshot, path: string, fault: SpillFault,
                 ghost received: seq<Byte>, ghost seen: seq<Byte>, ghost stream: seq<Byte>)
    returns (r: Progress)
    requires Keeps(p, received, seen)
    requires snapshot.nextOffset == |stream| && seen <= stream
    requires |stream| >= p.offset + |snapshot.output|
    requires |stream| == p.offset + |snapshot.output| ==> snapshot.output == stream[p.offset..]
    ensures Keeps(r, received + snapshot.output, stream)
    ensures p.fullOutputPath.Some? && !r.spillFailed ==> r.fullOutputPath == p.fullOutputPath
    ensures snapshot.output != [] && (|stream| > 50 * 1024 || Lines(received + snapshot.output) > 2000) ==>
      r.spillFailed || r.fullOutputPath.Some?
  {
    var output := snapshot.output;
    TruncatedStep(p.truncated, p.offset, received, seen, output, stream);
    SpillIdle(p.spillFailed, p.fullOutputPath, p.pending, p.spillFile, p.offset, received, |stream|);
    r := p.(truncated := p.truncated || snapshot.nextOffset > p.offset + |output|, offset := snapshot.nextOffset);
    if |output| > 0 {
      r := Keep(r, output, path, fault, p.offset, received);
    } else {
      assert received + output == received;
    }
  }

  /** What the caller learns after a turn. */
  method Conclude(p: Progress, snapshot: Snapshot, deadlinePassed: bool, ghost received: seq<Byte>) returns (r: Outcome)
    requires Flatten(p.tail) == Last(received, TAIL_BYTES)
    ensures r == if !snapshot.running && snapshot.output == []
                 then Exited(ShownUnits(received), snapshot.exitCode, p.truncated, p.fullOutputPath)
                 else if snapshot.running && deadlinePassed then TimedOut else Continues
    ensures VerdictOf(r) == Judge(snapshot.running, snapshot.output, deadlinePassed)
  {
    if !snapshot.running && |snapshot.output| == 0 {
      var shown := DecodeTail(p.tail);
      ShownIsExact(received);
      return Exited(shown, snapshot.exitCode, p.truncated, p.fullOutputPath);
    }
    if snapshot.running && deadlinePassed { return TimedOut; }
    return Continues;
  }

  predicate SpillBreaks(first: bool, fault: SpillFault) {
    fault == AppendFails || (first && (fault == MkdirFails || fault == WriteFails))
  }

  /** What happens around one turn: the process runs on, the caller may cancel, storage may fail. */
  datatype Turn = Turn(
    chunks: seq<seq<Byte>>,
    exit: Option<int>,
    abortedBefore: bool,
    abortedAfter: bool,
    deadlinePassed: bool,
    path: string,
    fault: SpillFault)

  method AppendAll(process: HostProcessOutput, chunks: seq<seq<Byte>>)
    requires process.Valid() && !process.disposed
    modifies process
    ensures process.Valid() && !process.disposed && process.running == old(process.running)
    ensures process.stream == old(process.stream) + Flatten(chunks)
  {
    ghost var start, done := process.stream, [];
    for i := 0 to |chunks|
      invariant process.Valid() && !process.disposed && process.running == old(process.running)
      invariant process.stream == start + done && done == Flatten(chunks[..i])
    {
      TakeNext(chunks, i);
      FlattenPush(chunks[..i], chunks[i]);
      process.Append(chunks[i]);
      AppendAssoc(start, done, chunks[i]);
      done := done + chunks[i];
    }
    TakeAll(chunks);
  }

  /** The process between two reads. */
  method Advance(process: HostProcessOutput, turn: Turn)
    requires process.Valid() && !process.disposed
    modifies process
    ensures process.Valid() && !process.disposed
    ensures process.stream == old(process.stream) + Flatten(turn.chunks)
    ensures process.running == (old(process.running) && turn.exit.None?)
  {
    AppendAll(process, turn.chunks);
    if turn.exit.Some? { process.Complete(turn.exit.value); }
  }

  // ----- what a course of events comes to -----

  /** What a read beyond `offset` gets of a stream of which the process keeps only the end. */
  function Unread(stream: seq<Byte>, offset: nat): seq<Byte> {
    Last(stream, Max(0, Min(|stream| - offset, MAX_PROCESS_OUTPUT_BYTES)))
  }

  datatype Verdict = Exits | Expires | Aborts | Goes

  function VerdictOf(r: Outcome): Verdict {
    match r
    case Exited(_, _, _, _) => Exits
    case TimedOut => Expires
    case Cancelled => Aborts
    case Continues => Goes
  }

  /** After a read: an exit is reported once a stopped process has nothing left to read. */
  function Judge(running: bool, output: seq<Byte>, deadlinePassed: bool): Verdict {
    if !running && output == [] then Exits else if running && deadlinePassed then Expires else Goes
  }

  /** How a command ends, what is received of its output, and the stream at its last read. */
  datatype Ending = Ending(verdict: Verdict, received: seq<Byte>, stream: seq<Byte>)

  /** The ending of a course before which `received` had come in. */
  function Preceded(received: seq<Byte>, e: Ending): Ending {
    e.(received := received + e.received)
  }

  /** What one turn comes to when the caller does not cancel. */
  function ReadEnding(stream: seq<Byte>, offset: nat, running: bool, turn: Turn): Ending {
    var next := stream + Flatten(turn.chunks);
    var output := Unread(next, offset);
    Ending(Judge(running && turn.exit.None?, output, turn.deadlinePassed), output, next)
  }

  function TurnEnding(stream: seq<Byte>, offset: nat, running: bool, turn: Turn): Ending {
    if turn.abortedBefore || turn.abortedAfter then Ending(Aborts, [], stream)
    else ReadEnding(stream, offset, running, turn)
  }

  lemma UncancelledReads(stream: seq<Byte>, offset: nat, running: bool, turn: Turn)
    requires !turn.abortedBefore && !turn.abortedAfter
    ensures TurnEnding(stream, offset, running, turn) == ReadEnding(stream, offset, running, turn)
  {
  }

  function Course(stream: seq<Byte>, offset: nat, running: bool, turns: seq<Turn>): Ending
    decreases turns
  {
    if turns == [] then Ending(Goes, [], stream)
    else
      var e := TurnEnding(stream, offset, running, turns[0]);
      if e.verdict != Goes then e
      else Preceded(e.received, Course(e.stream, |e.stream|, running && turns[0].exit.None?, turns[1..]))
  }

  /** What a course comes to of which `i` turns are over and `received` has come in. */
  function CourseFrom(stream: seq<Byte>, offset: nat, running: bool, turns: seq<Turn>, i: nat, received: seq<Byte>): Ending
    requires i <= |turns|
  {
    Preceded(received, Course(stream, offset, running, turns[i..]))
  }

  lemma CourseStep(stream: seq<Byte>, offset: nat, running: bool, turns: seq<Turn>, i: nat, received: seq<Byte>)
    requires i < |turns|
    ensures var course := CourseFrom(stream, offset, running, turns, i, received);
            var e := TurnEnding(stream, offset, running, turns[i]);
            && (e.verdict != Goes ==> course == Preceded(received, e))
            && (e.verdict == Goes ==>
                  course == CourseFrom(e.stream, |e.stream|, running && turns[i].exit.None?, turns, i + 1, received + e.received))
  {
    var rest := turns[i..];
    assert rest[0] == turns[i] && rest[1..] == turns[i + 1..];
    var e := TurnEnding(stream, offset, running, turns[i]);
    var later := Course(e.stream, |e.stream|, running && turns[i].exit.None?, rest[1..]);
    AppendAssoc(received, e.received, later.received);
  }

  lemma CourseBegins(stream: seq<Byte>, running: bool, turns: seq<Turn>)
    ensures Course(stream, 0, running, turns) == CourseFrom(stream, 0, running, turns, 0, [])
  {
    assert turns[0..] == turns;
  }

  lemma CourseOver(stream: seq<Byte>, offset: nat, running: bool, turns: seq<Turn>, received: seq<Byte>)
    ensures CourseFrom(stream, offset, running, turns, |turns|, received) == Ending(Goes, received, stream)
  {
    assert received + [] == received;
  }

  /** Between two reads the process never puts out more than it keeps. */
  predicate BurstsFit(stream: seq<Byte>, offset: nat, turns: seq<Turn>)
    decreases turns
  {
    turns != [] ==>
      var next := stream + Flatten(turns[0].chunks);
      |next| - offset <= MAX_PROCESS_OUTPUT_BYTES && BurstsFit(next, |next|, turns[1..])
  }

  /** As long as bursts fit, everything up to the last read is received; at an exit that is all there is. */
  lemma {:induction false} BurstsThatFitAreReceived(stream: seq<Byte>, offset: nat, running: bool, turns: seq<Turn>)
    requires offset <= |stream| && BurstsFit(stream, offset, turns)
    ensures var e := Course(stream, offset, running, turns);
            && stream <= e.stream
            && (e.verdict == Exits || e.verdict == Expires ==> e.received == e.stream[offset..])
    decreases turns
  {
    if turns != [] {
      var next := stream + Flatten(turns[0].chunks);
      BurstReceived(next, offset);
      BurstsThatFitAreReceived(next, |next|, running && turns[0].exit.None?, turns[1..]);
      var later := Course(next, |next|, running && turns[0].exit.None?, turns[1..]);
      SplitTail(next, later.stream, offset);
    }
  }

  lemma BurstReceived(stream: seq<Byte>, offset: nat)
    requires offset <= |stream| <= offset + MAX_PROCESS_OUTPUT_BYTES
    ensures Unread(stream, offset) == stream[offset..]
  {
  }

  lemma SplitTail(front: seq<Byte>, all: seq<Byte>, offset: nat)
    requires front <= all && offset <= |front|
    ensures all[offset..] == front[offset..] + all[|front|..]
  {
  }

  // ----- when it ends, told turn by turn -----

  /** The stream after the first `k` turns. */
  function StreamAfter(stream: seq<Byte>, turns: seq<Turn>, k: nat): seq<Byte>
    requires k <= |turns|
    decreases k
  {
    if k == 0 then stream else StreamAfter(stream + Flatten(turns[0].chunks), turns[1..], k - 1)
  }

  /** The process is running after the first `k` turns. */
  predicate RunsAfter(running: bool, turns: seq<Turn>, k: nat)
    requires k <= |turns|
    decreases k
  {
    if k == 0 then running else RunsAfter(running && turns[0].exit.None?, turns[1..], k - 1)
  }

  /** Something was put out that had not been read before turn `k`. */
  predicate NewsIn(stream: seq<Byte>, offset: nat, turns: seq<Turn>, k: nat)
    requires k < |turns|
  {
    |StreamAfter(stream, turns, k + 1)| > if k == 0 then offset else |StreamAfter(stream, turns, k)|
  }

  /** Turn `k` does not end the loop: nobody cancels, there is more to come, and time is left. */
  predicate Continuing(stream: seq<Byte>, offset: nat, running: bool, turns: seq<Turn>, k: nat)
    requires k < |turns|
  {
    && !turns[k].abortedBefore && !turns[k].abortedAfter
    && (RunsAfter(running, turns, k + 1) || NewsIn(stream, offset, turns, k))
    && (RunsAfter(running, turns, k + 1) ==> !turns[k].deadlinePassed)
  }

  lemma ContinuingShifts(stream: seq<Byte>, offset: nat, running: bool, turns: seq<Turn>, k: nat)
    requires 0 < k < |turns|
    ensures var next := stream + Flatten(turns[0].chunks);
            && (Continuing(stream, offset, running, turns, k) <==>
                  Continuing(next, |next|, running && turns[0].exit.None?, turns[1..], k - 1))
            && (NewsIn(stream, offset, turns, k) <==> NewsIn(next, |next|, turns[1..], k - 1))
            && (RunsAfter(running, turns, k + 1) <==> RunsAfter(running && turns[0].exit.None?, turns[1..], k))
  {
    var next := stream + Flatten(turns[0].chunks);
    assert StreamAfter(stream, turns, k + 1) == StreamAfter(next, turns[1..], k);
    assert StreamAfter(stream, turns, k) == StreamAfter(next, turns[1..], k - 1);
  }

  lemma FirstTurn(stream: seq<Byte>, offset: nat, running: bool, turns: seq<Turn>)
    requires turns != []
    ensures var e := TurnEnding(stream, offset, running, turns[0]); var t := turns[0];
            && (e.verdict == Goes <==> Continuing(stream, offset, running, turns, 0))
            && (e.verdict == Aborts <==> t.abortedBefore || t.abortedAfter)
            && (e.verdict == Exits ==> !RunsAfter(running, turns, 1) && !NewsIn(stream, offset, turns, 0))
            && (e.verdict == Expires ==> RunsAfter(running, turns, 1) && t.deadlinePassed)
  {
    var next := stream + Flatten(turns[0].chunks);
    assert StreamAfter(stream, turns, 1) == StreamAfter(next, turns[1..], 0) == next;
    assert RunsAfter(running, turns, 1) == RunsAfter(running && turns[0].exit.None?, turns[1..], 0);
    assert |Unread(next, offset)| == Max(0, Min(|next| - offset, MAX_PROCESS_OUTPUT_BYTES));
  }

  lemma RestContinues(stream: seq<Byte>, offset: nat, running: bool, turns: seq<Turn>, n: nat)
    requires 0 < n <= |turns| && forall k | 0 <= k < n :: Continuing(stream, offset, running, turns, k)
    ensures var next, still, rest := stream + Flatten(turns[0].chunks), running && turns[0].exit.None?, turns[1..];
            var seen := |next|;
            forall k | 0 <= k < n - 1 :: Continuing(next, seen, still, rest, k)
  {
    var next, still, rest := stream + Flatten(turns[0].chunks), running && turns[0].exit.None?, turns[1..];
    var seen := |next|;
    forall k | 0 <= k < n - 1 ensures Continuing(next, seen, still, rest, k) {
      ContinuingShifts(stream, offset, running, turns, k + 1);
    }
  }

  /**
    The loop ends in the first turn that does not let it go on: cancelled, if the caller has; with an
    exit, if the process has stopped and nothing new was put out; timed out otherwise.
   */
  lemma {:induction false} WhenCourseEnds(stream: seq<Byte>, offset: nat, running: bool, turns: seq<Turn>, n: nat)
    requires n <= |turns| && forall k | 0 <= k < n :: Continuing(stream, offset, running, turns, k)
    ensures n == |turns| ==> Course(stream, offset, running, turns).verdict == Goes
    ensures n < |turns| && !Continuing(stream, offset, running, turns, n) ==>
      Course(stream, offset, running, turns).verdict
      == if turns[n].abortedBefore || turns[n].abortedAfter then Aborts
         else if !RunsAfter(running, turns, n + 1) then Exits else Expires
    decreases n
  {
    if turns != [] {
      FirstTurn(stream, offset, running, turns);
      if n > 0 {
        var next, still, rest := stream + Flatten(turns[0].chunks), running && turns[0].exit.None?, turns[1..];
        var seen := |next|;
        assert Continuing(stream, offset, running, turns, 0);
        RestContinues(stream, offset, running, turns, n);
        if n < |turns| { ContinuingShifts(stream, offset, running, turns, n); }
        WhenCourseEnds(next, seen, still, rest, n - 1);
      }
    }
  }

  lemma ReadsUnread(stream: seq<Byte>, startOffset: nat, offset: nat)
    requires startOffset == |stream| - Min(|stream|, MAX_PROCESS_OUTPUT_BYTES)
    ensures Last(stream, Readable(|stream|, startOffset, offset, None)) == Unread(stream, offset)
  {
  }

  /** The process runs on and is read. */
  method ReadOn(process: HostProcessOutput, offset: nat, turn: Turn) returns (snapshot: Snapshot, ghost e: Ending)
    requires process.Valid() && !process.disposed && offset <= |process.stream|
    modifies process
    ensures process.Valid() && !process.disposed
    ensures e == ReadEnding(old(process.stream), offset, old(process.running), turn)
    ensures process.stream == e.stream && process.running == (old(process.running) && turn.exit.None?)
    ensures snapshot == Snapshot(e.received, |e.stream|, process.running, process.exitCode)
    ensures old(process.stream) <= e.stream && |e.stream| >= offset + |e.received|
    ensures |e.stream| == offset + |e.received| ==> e.received == e.stream[offset..]
  {
    e := ReadEnding(process.stream, offset, process.running, turn);
    Advance(process, turn);
    snapshot := process.Read(offset, None);
    ReadsUnread(process.stream, process.bufferStartOffset, offset);
    GapMeansLoss(process.stream, process.bufferStartOffset, offset, None);
  }

  /** One turn: the process runs on, is read, and what it put out is accounted for. */
  method TakeTurn(process: HostProcessOutput, p: Progress, turn: Turn, ghost received: seq<Byte>, ghost seen: seq<Byte>)
    returns (outcome: Outcome, r: Progress, ghost e: Ending)
    requires process.Valid() && !process.disposed && Keeps(p, received, seen) && seen <= process.stream
    modifies process
    ensures process.Valid() && !process.disposed
    ensures e == ReadEnding(old(process.stream), p.offset, old(process.running), turn)
    ensures process.stream == e.stream && process.running == (old(process.running) && turn.exit.None?)
    ensures seen <= process.stream && r.offset == |e.stream|
    ensures VerdictOf(outcome) == e.verdict && Keeps(r, received + e.received, e.stream)
    ensures outcome.Exited? ==>
      outcome == Exited(ShownUnits(received + e.received), process.exitCode, r.truncated, r.fullOutputPath)
  {
    var snapshot;
    snapshot, e := ReadOn(process, p.offset, turn);
    r := Receive(p, snapshot, turn.path, turn.fault, received, seen, e.stream);
    outcome := Conclude(r, snapshot, turn.deadlinePassed, received + e.received);
  }

  /**
    What holds after every turn, and so of every result: it is marked as truncated
    exactly when bytes are missing or there are too many to show, and a spill file has them all.
   */
  lemma UntruncatedIsWhole(p: Progress, received: seq<Byte>, seen: seq<Byte>)
    requires Keeps(p, received, seen)
    ensures !p.truncated ==> received == seen && Flatten(p.pending) == received
    ensures p.truncated <==> received != seen || (received != [] && (|seen| > 50 * 1024 || Lines(received) > 2000))
    ensures p.fullOutputPath.Some? ==> p.spillFile == received && p.truncated
    ensures p.spillFailed ==> p.truncated && p.fullOutputPath.None?
  {
  }

  lemma KeepsOn(p: Progress, received: seq<Byte>, seen: seq<Byte>)
    requires Keeps(p, received, seen)
    ensures Keeps(p, received + [], seen)
  {
    AppendNothing(received);
  }

  /** One turn of the loop, with its checks of the caller's signal. */
  method LoopTurn(process: HostProcessOutput, p: Progress, turn: Turn, ghost received: seq<Byte>, ghost seen: seq<Byte>)
    returns (r: Outcome, next: Progress, ghost e: Ending, ghost lastSeen: seq<Byte>)
    requires process.Valid() && !process.disposed && Keeps(p, received, seen) && seen <= process.stream
    modifies process
    ensures process.Valid() && !process.disposed
    ensures e == TurnEnding(old(process.stream), p.offset, old(process.running), turn)
    ensures VerdictOf(r) == e.verdict && Keeps(next, received + e.received, lastSeen) && lastSeen <= process.stream
    ensures e.verdict != Aborts ==>
      process.stream == e.stream == lastSeen && next.offset == |e.stream| && process.running == (old(process.running) && turn.exit.None?)
    ensures r.Exited? ==>
      r == Exited(ShownUnits(received + e.received), process.exitCode, next.truncated, next.fullOutputPath)
  {
    r, next, e, lastSeen := Cancelled, p, Ending(Aborts, [], process.stream), seen;
    KeepsOn(p, received, seen);
    if turn.abortedBefore { return; }
    ghost var read;
    var outcome, progress;
    outcome, progress, read := TakeTurn(process, p, turn, received, seen);
    if turn.abortedAfter { return; }
    UncancelledReads(old(process.stream), p.offset, old(process.running), turn);
    r, next, e, lastSeen := outcome, progress, read, process.stream;
  }

  /** The loop's next turn: it ends the course as told, or leaves the rest of it. */
  method FollowTurn(process: HostProcessOutput, p: Progress, turns: seq<Turn>, i: nat, ghost received: seq<Byte>, ghost seen: seq<Byte>)
    returns (r: Outcome, next: Progress, ghost e: Ending, ghost more: seq<Byte>, ghost lastSeen: seq<Byte>)
    requires process.Valid() && !process.disposed && Keeps(p, received, seen) && seen <= process.stream && i < |turns|
    modifies process
    ensures process.Valid() && !process.disposed && Keeps(next, more, lastSeen) && lastSeen <= process.stream
    ensures r == Continues ==>
      CourseFrom(process.stream, next.offset, process.running, turns, i + 1, more)
      == old(CourseFrom(process.stream, p.offset, process.running, turns, i, received))
    ensures r != Continues ==>
      e == old(CourseFrom(process.stream, p.offset, process.running, turns, i, received))
      && VerdictOf(r) == e.verdict && more == e.received
    ensures r.Exited? || r.TimedOut? ==> lastSeen == e.stream == process.stream
    ensures r.Exited? ==> r == Exited(ShownUnits(more), process.exitCode, next.truncated, next.fullOutputPath)
  {
    CourseStep(process.stream, p.offset, process.running, turns, i, received);
    r, next, e, lastSeen := LoopTurn(process, p, turns[i], received, seen);
    more := received + e.received;
    e := Preceded(received, e);
  }

  /**
    The loop over any course of events. It ends as the course does, with what is received of the
    output then.
   */
  method FollowCommand(process: HostProcessOutput, turns: seq<Turn>)
    returns (r: Outcome, p: Progress, ghost e: Ending, ghost seen: seq<Byte>)
    requires process.Valid() && !process.disposed
    modifies process
    ensures process.Valid() && !process.disposed
    ensures e == Course(old(process.stream), 0, old(process.running), turns) && VerdictOf(r) == e.verdict
    ensures Keeps(p, e.received, seen) && seen <= process.stream
    ensures r.Exited? || r.TimedOut? ==> seen == e.stream == process.stream
    ensures r.Exited? ==> r == Exited(ShownUnits(e.received), process.exitCode, p.truncated, p.fullOutputPath)
  {
    ghost var course := Course(process.stream, 0, process.running, turns);
    p, r, seen := START, Continues, [];
    ghost var received := [];
    StartOk();
    CourseBegins(process.stream, process.running, turns);
    for i := 0 to |turns|
      invariant process.Valid() && !process.disposed
      invariant r == Continues
      invariant Keeps(p, received, seen) && seen <= process.stream
      invariant course == CourseFrom(process.stream, p.offset, process.running, turns, i, received)
    {
      r, p, e, received, seen := FollowTurn(process, p, turns, i, received, seen);
      if r != Continues { return; }
    }
    CourseOver(process.stream, p.offset, process.running, turns, received);
    e := Ending(Goes, received, process.stream);
  }

  /**
    What a command reports is what was received of its output, and that is all the process put out
    unless it says otherwise. A process that has ended, or whose command is cancelled, is disposed
    of; one that outlasts its time stays.
   */
  method RunForegroundCommand(process: HostProcessOutput, turns: seq<Turn>)
    returns (r: Outcome, p: Progress, ghost e: Ending, ghost seen: seq<Byte>)
    requires process.Valid() && !process.disposed
    modifies process
    ensures e == Course(old(process.stream), 0, old(process.running), turns) && VerdictOf(r) == e.verdict
    ensures Keeps(p, e.received, seen) && seen <= process.stream
    ensures r.Exited? || r.TimedOut? ==> seen == e.stream == process.stream
    ensures r.Exited? ==> r == Exited(ShownUnits(e.received), process.exitCode, p.truncated, p.fullOutputPath)
    ensures r.Exited? ==>
      (r.truncated <==> e.received != process.stream
                        || (e.received != [] && (|process.stream| > 50 * 1024 || Lines(e.received) > 2000)))
    ensures r.Exited? && r.fullOutputPath.Some? ==> p.spillFile == e.received
    ensures process.disposed <==> r.Exited? || r.Cancelled?
  {
    r, p, e, seen := FollowCommand(process, turns);
    UntruncatedIsWhole(p, e.received, seen);
    if r.Exited? || r.Cancelled? { process.Dispose(); }
  }
}
