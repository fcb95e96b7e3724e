/**
  packages/agent-core/src/host-agent-runtime.ts: the output of a process, kept
  as the last bytes of its stream and read by offset, and the bounded capture of
  a command's two output streams.
 */
module OutputBuffer {
  import opened Sequences
  import opened Utf8
  import opened Wrappers

  const MAX_PROCESS_OUTPUT_BYTES: nat := 8 * 1024 * 1024

  datatype Snapshot = Snapshot(output: seq<Byte>, nextOffset: nat, running: bool, exitCode: Option<int>)

  class HostProcessOutput {
    var buffer: seq<Byte>
    var bufferStartOffset: nat
    var running: bool
    var disposed: bool
    var exitCode: Option<int>
    /** Every byte the process has put out before its output was disposed. */
    ghost var stream: seq<Byte>

    ghost predicate Valid()
      reads this
    {
      && bufferStartOffset + |buffer| == |stream|
      && buffer == (if disposed then [] else Last(stream, MAX_PROCESS_OUTPUT_BYTES))
      && (running <==> exitCode.None?)
    }

    constructor ()
      ensures Valid() && stream == [] && running && !disposed
    {
      buffer, bufferStartOffset := [], 0;
      running, disposed, exitCode := true, false, None;
      stream := [];
    }

    method Append(chunk: seq<Byte>)
      requires Valid()
      modifies `buffer, `bufferStartOffset, `stream
      ensures Valid()
      ensures stream == (if disposed then old(stream) else old(stream) + chunk)
      ensures !disposed ==> buffer == Last(stream, 8 * 1024 * 1024)
    {
      if disposed { return; }
      LastAppend(stream, chunk, MAX_PROCESS_OUTPUT_BYTES);
      stream := stream + chunk;
      buffer := buffer + chunk;
      if |buffer| > MAX_PROCESS_OUTPUT_BYTES {
        var removed := |buffer| - MAX_PROCESS_OUTPUT_BYTES;
        buffer := buffer[removed..];
        bufferStartOffset := bufferStartOffset + removed;
      }
    }

    method Complete(code: int)
      requires Valid()
      modifies `running, `exitCode
      ensures Valid() && !running
      ensures exitCode == (if old(running) then Some(code) else old(exitCode))
    {
      if !running { return; }
      running, exitCode := false, Some(code);
    }

    method Dispose()
      requires Valid()
      modifies `disposed, `buffer, `bufferStartOffset
      ensures Valid() && disposed
    {
      disposed := true;
      bufferStartOffset := bufferStartOffset + |buffer|;
      buffer := [];
    }

    /** The bytes at `afterOffset` and later that are still held, the last `maxBytes` of them. */
    method Read(afterOffset: nat, maxBytes: Option<nat>) returns (r: Snapshot)
      requires Valid()
      ensures r.nextOffset == |stream| && r.running == running && r.exitCode == exitCode
      ensures r.output == Last(stream, Readable(|stream|, bufferStartOffset, afterOffset, maxBytes))
    {
      var bufferEndOffset := bufferStartOffset + |buffer|;
      var boundedAfter := Max(afterOffset, bufferStartOffset);
      // subarray clamps a start beyond the end.
      var output := buffer[Min(boundedAfter - bufferStartOffset, |buffer|)..];
      ghost var held := Max(0, |stream| - boundedAfter);
      assert output == Last(stream, held);
      if maxBytes.Some? && |output| > maxBytes.value {
        LastOfLast(stream, held, maxBytes.value);
        output := output[|output| - maxBytes.value..];
      }
      r := Snapshot(output, bufferEndOffset, running, exitCode);
    }
  }

  function Readable(total: nat, startOffset: nat, afterOffset: nat, maxBytes: Option<nat>): nat {
    var held := Max(0, total - Max(afterOffset, startOffset));
    if maxBytes.Some? then Min(held, maxBytes.value) else held
  }

  /**
    A reader that continues from the offset it was given last sees a gap exactly
    when it misses a byte: without one it gets all that was put out since.
   */
  lemma GapMeansLoss(stream: seq<Byte>, startOffset: nat, afterOffset: nat, maxBytes: Option<nat>)
    requires afterOffset <= |stream| && startOffset <= |stream|
    ensures var output := Last(stream, Readable(|stream|, startOffset, afterOffset, maxBytes));
            |stream| > afterOffset + |output| <==> output != stream[afterOffset..]
  {
  }

  /** What is read is what the stream holds from the asked offset on, but for what is no longer kept or asked for. */
  lemma ReadIsSlice(stream: seq<Byte>, startOffset: nat, afterOffset: nat, maxBytes: Option<nat>)
    requires startOffset <= |stream|
    ensures var output := Last(stream, Readable(|stream|, startOffset, afterOffset, maxBytes));
            var from := Max(afterOffset, startOffset);
            && output == stream[|stream| - |output|..]
            && (maxBytes.Some? ==> |output| <= maxBytes.value)
            && (maxBytes.None? || |stream| - from <= maxBytes.value ==> output == stream[Min(from, |stream|)..])
            && (maxBytes.Some? && |stream| - from > maxBytes.value ==> |output| == maxBytes.value)
  {
  }

  // ----- bounded capture of two streams -----

  datatype Source = Stdout | Stderr

  function Tagged(chunk: seq<Byte>, source: Source): seq<(Source, Byte)> {
    seq(|chunk|, i requires 0 <= i < |chunk| => (source, chunk[i]))
  }

  /** What one of the interleaved streams holds. */
  function Only(events: seq<(Source, Byte)>, source: Source): seq<Byte> {
    if events == [] then []
    else if events[0].0 == source then [events[0].1] + Only(events[1..], source)
    else Only(events[1..], source)
  }

  lemma {:induction false} OnlyConcat(a: seq<(Source, Byte)>, b: seq<(Source, Byte)>, source: Source)
    ensures Only(a + b, source) == Only(a, source) + Only(b, source)
  {
    if a == [] {
      assert a + b == b;
    } else {
      ConcatHead(a, b);
      OnlyConcat(a[1..], b, source);
      AppendAssoc([a[0].1], Only(a[1..], source), Only(b, source));
    }
  }

  lemma {:induction false} OnlyTagged(chunk: seq<Byte>, from: Source, source: Source)
    ensures Only(Tagged(chunk, from), source) == if from == source then chunk else []
  {
    if chunk != [] {
      assert Tagged(chunk, from)[1..] == Tagged(chunk[1..], from);
      OnlyTagged(chunk[1..], from, source);
    }
  }

  function Limited<T>(s: seq<T>, limit: Option<nat>): seq<T> {
    if limit.Some? && |s| > limit.value then s[..limit.value] else s
  }

  function CaptureLimit(maxBuffer: Option<nat>, maxOutputBytes: Option<nat>): (limit: Option<nat>)
    ensures maxBuffer.Some? ==> limit.Some? && limit.value <= maxBuffer.value
    ensures maxOutputBytes.Some? ==> limit.Some? && limit.value <= maxOutputBytes.value
    ensures limit.Some? ==> limit == maxBuffer || limit == maxOutputBytes
  {
    if maxBuffer.None? then maxOutputBytes
    else Some(Min(maxOutputBytes.GetOr(maxBuffer.value), maxBuffer.value))
  }

  datatype Captured = Captured(chunk: seq<Byte>, nextBytes: nat, truncated: bool)

  function CaptureOutputChunk(chunk: seq<Byte>, maximum: Option<nat>, captured: nat): Captured {
    if maximum.None? then Captured(chunk, captured + |chunk|, false)
    else
      var remaining := Max(0, maximum.value - captured);
      var retained := chunk[..Min(remaining, |chunk|)];
      Captured(retained, captured + |retained|, |retained| < |chunk|)
  }

  /** Taking the retained part of a chunk is taking the first bytes of all that arrived. */
  lemma CaptureExtends(arrived: seq<(Source, Byte)>, chunk: seq<Byte>, from: Source, limit: Option<nat>)
    ensures var before := Limited(arrived, limit); var after := Limited(arrived + Tagged(chunk, from), limit);
            var captured := CaptureOutputChunk(chunk, limit, |before|);
            && captured.nextBytes == |after|
            && (captured.truncated || |before| < |arrived| <==> |after| < |arrived| + |chunk|)
            && after == before + Tagged(captured.chunk, from)
  {
  }

  lemma CapturedOn(before: seq<(Source, Byte)>, chunk: seq<Byte>, from: Source)
    ensures var after := before + Tagged(chunk, from);
            && Only(after, Stdout) == Only(before, Stdout) + (if from == Stdout then chunk else [])
            && Only(after, Stderr) == Only(before, Stderr) + (if from == Stderr then chunk else [])
  {
    OnlyConcat(before, Tagged(chunk, from), Stdout);
    OnlyConcat(before, Tagged(chunk, from), Stderr);
    OnlyTagged(chunk, from, Stdout);
    OnlyTagged(chunk, from, Stderr);
  }

  class OutputCapture {
    const maxBuffer: Option<nat>
    const captureLimit: Option<nat>
    var stdout: seq<Byte>
    var stderr: seq<Byte>
    var capturedOutputBytes: nat
    var outputBytes: nat
    var outputTruncated: bool
    var maxBufferExceeded: bool
    /** Every byte that arrived, on either stream, in order of arrival. */
    ghost var arrived: seq<(Source, Byte)>

    ghost predicate Valid()
      reads this
    {
      var kept := Limited(arrived, captureLimit);
      && (maxBuffer.Some? ==> captureLimit.Some? && captureLimit.value <= maxBuffer.value)
      && stdout == Only(kept, Stdout) && stderr == Only(kept, Stderr)
      && capturedOutputBytes == |kept|
      && (outputTruncated <==> |kept| < |arrived|)
      && (maxBufferExceeded <==> maxBuffer.Some? && |arrived| > maxBuffer.value)
      && (maxBuffer.Some? && !maxBufferExceeded ==> outputBytes == |arrived|)
    }

    constructor (maxBuffer: Option<nat>, maxOutputBytes: Option<nat>)
      ensures Valid() && arrived == [] && this.maxBuffer == maxBuffer
      ensures captureLimit == CaptureLimit(maxBuffer, maxOutputBytes)
    {
      this.maxBuffer, captureLimit := maxBuffer, CaptureLimit(maxBuffer, maxOutputBytes);
      stdout, stderr, capturedOutputBytes, outputBytes := [], [], 0, 0;
      outputTruncated, maxBufferExceeded := false, false;
      arrived := [];
    }

    /** What is captured is the first bytes to arrive, even though later chunks are ignored. */
    method CaptureOutput(chunk: seq<Byte>, source: Source)
      requires Valid()
      modifies this
      ensures Valid() && arrived == old(arrived) + Tagged(chunk, source)
    {
      ghost var before := Limited(arrived, captureLimit);
      CaptureExtends(arrived, chunk, source, captureLimit);
      arrived := arrived + Tagged(chunk, source);
      if maxBufferExceeded {
        assert Limited(arrived, captureLimit) == before;
        return;
      }
      var captured := CaptureOutputChunk(chunk, captureLimit, capturedOutputBytes);
      CapturedOn(before, captured.chunk, source);
      capturedOutputBytes := captured.nextBytes;
      outputTruncated := outputTruncated || captured.truncated;
      if |captured.chunk| > 0 {
        if source == Stdout { stdout := stdout + captured.chunk; } else { stderr := stderr + captured.chunk; }
      }
      if maxBuffer.None? { return; }
      outputBytes := outputBytes + |chunk|;
      if outputBytes <= maxBuffer.value { return; }
      maxBufferExceeded := true;
    }
  }
}
