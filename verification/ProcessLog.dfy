/**
  packages/ext-background-bash/src/data.ts: the retained end of a process log is
  cut into pieces small enough, once JSON-encoded, for one view request.
 */
module ProcessLog {
  import opened JsonString
  import opened Sequences
  import opened TextDecoding
  import opened Utf16
  import opened Utf8

  const PROCESS_LOG_BYTES: nat := 128 * 1024
  const LOG_CHUNK_BYTES: nat := 24 * 1024

  function EncodedCharacterBytes(c: Scalar): nat {
    if c == 34 || c == 92 then 2
    else if c < 32 then (if c == 8 || c == 9 || c == 10 || c == 12 || c == 13 then 2 else 6)
    else if c < 128 then 1 else if c < 2048 then 2 else if c < 65536 then 3 else 4
  }

  /** The bytes of a text printed as a JSON string and encoded. */
  function JsonSize(text: seq<Scalar>): nat {
    Size(Quote(text))
  }

  lemma {:induction false} SizeOfAscii(text: seq<Scalar>)
    requires forall i | 0 <= i < |text| :: text[i] < 0x80
    ensures Size(text) == |text|
  {
    if text != [] { SizeOfAscii(text[1..]); }
  }

  /** The counted size of a character is the size of what JSON.stringify prints for it. */
  lemma CountedSizeIsEscapedSize(c: Scalar)
    ensures Size(Escape(c)) == EncodedCharacterBytes(c)
  {
    if |Escape(c)| == 1 {
      assert Size(Escape(c)) == Width(c) + Size([]);
    } else {
      SizeOfAscii(Escape(c));
    }
  }

  lemma JsonSizeEmpty()
    ensures JsonSize([]) == 2
  {
    SizeOfAscii([QUOTE, QUOTE]);
    assert Quote([]) == [QUOTE, QUOTE];
  }

  lemma JsonSizeContent(text: seq<Scalar>)
    ensures JsonSize(text) == 2 + Size(EscapeAll(text))
  {
    SizeConcat([QUOTE], EscapeAll(text));
    SizeConcat([QUOTE] + EscapeAll(text), [QUOTE]);
    SizeOfAscii([QUOTE]);
  }

  lemma JsonSizePush(text: seq<Scalar>, c: Scalar)
    ensures JsonSize(text + [c]) == JsonSize(text) + EncodedCharacterBytes(c)
  {
    JsonSizeContent(text);
    JsonSizeContent(text + [c]);
    EscapeConcat(text, [c]);
    assert EscapeAll([c]) == Escape(c);
    SizeConcat(EscapeAll(text), Escape(c));
    CountedSizeIsEscapedSize(c);
  }

  // ----- clipping -----

  /** A prefix that fits, and with one character more would not. */
  ghost predicate IsLongestFit(clipped: seq<Scalar>, text: seq<Scalar>, maximum: nat) {
    && clipped <= text
    && (clipped != [] ==> JsonSize(clipped) <= maximum)
    && (|clipped| < |text| ==> JsonSize(text[..|clipped| + 1]) > maximum)
  }

  /** Moving one character from what is left of a string to what has been taken. */
  lemma ScalarsStep(value: seq<Unit>, i: nat, taken: seq<Scalar>)
    requires i < |value|
    ensures taken + Scalars(value[i..]) == taken + [First(value[i..])] + Scalars(value[i + Advance(value[i..])..])
  {
    var rest := value[i..];
    assert rest[Advance(rest)..] == value[i + Advance(rest)..];
    AppendAssoc(taken, [First(rest)], Scalars(value[i + Advance(rest)..]));
  }

  lemma LongestFit(taken: seq<Scalar>, next: Scalar, left: seq<Scalar>, maximum: nat)
    requires taken != [] ==> JsonSize(taken) <= maximum
    requires JsonSize(taken) + EncodedCharacterBytes(next) > maximum
    ensures IsLongestFit(taken, taken + [next] + left, maximum)
  {
    var text := taken + [next] + left;
    JsonSizePush(taken, next);
    assert text[..|taken| + 1] == taken + [next];
  }

  /** One turn: the next character, the size with it, and where the rest begins. */
  method NextCharacter(value: seq<Unit>, i: nat, result: seq<Scalar>, size: nat, maximum: nat)
    returns (safe: Scalar, grown: nat, next: nat)
    requires i < |value| && size == JsonSize(result) && (result != [] ==> size <= maximum)
    ensures i < next <= |value|
    ensures result + Scalars(value[i..]) == result + [safe] + Scalars(value[next..])
    ensures grown == JsonSize(result + [safe])
    ensures grown > maximum ==> IsLongestFit(result, result + Scalars(value[i..]), maximum)
  {
    safe := First(value[i..]);
    grown, next := size + EncodedCharacterBytes(safe), i + Advance(value[i..]);
    JsonSizePush(result, safe);
    ScalarsStep(value, i, result);
    if grown > maximum { LongestFit(result, safe, Scalars(value[next..]), maximum); }
  }

  method ClipProcessText(value: seq<Unit>, maximum: nat) returns (result: seq<Scalar>)
    ensures IsLongestFit(result, Scalars(value), maximum)
  {
    result := [];
    var size, i := 2, 0;
    JsonSizeEmpty();
    while i < |value|
      invariant 0 <= i <= |value|
      invariant Scalars(value) == result + Scalars(value[i..])
      invariant size == JsonSize(result) && (result != [] ==> size <= maximum)
    {
      var safe, grown, next := NextCharacter(value, i, result, size, maximum);
      if grown > maximum { return; }
      result, size, i := result + [safe], grown, next;
    }
  }

  // ----- chunks -----

  /** The part of a log that is shown: its last whole characters within the limit. */
  function Retained(value: seq<Unit>): seq<Scalar> {
    Stripped(Tail(Scalars(value), PROCESS_LOG_BYTES))
  }

  /** A closed chunk had no room for one more character. */
  predicate Full(chunk: seq<Scalar>) {
    LOG_CHUNK_BYTES - 6 < JsonSize(chunk) <= LOG_CHUNK_BYTES
  }

  predicate AllFull(chunks: seq<seq<Scalar>>) {
    forall i | 0 <= i < |chunks| :: Full(chunks[i])
  }

  /** Closed chunks account for at least 24569 bytes of escaped text each. */
  lemma {:induction false} FullChunksAreLarge(chunks: seq<seq<Scalar>>)
    requires AllFull(chunks)
    ensures |chunks| * 24569 <= Size(EscapeAll(Flatten(chunks)))
  {
    if chunks != [] {
      assert Full(chunks[0]);
      FullChunksAreLarge(chunks[1..]);
      JsonSizeContent(chunks[0]);
      EscapeConcat(chunks[0], Flatten(chunks[1..]));
      SizeConcat(EscapeAll(chunks[0]), EscapeAll(Flatten(chunks[1..])));
    }
  }

  /** Escaping makes a character at most six times as large. */
  lemma {:induction false} EscapedAtMostSixfold(text: seq<Scalar>)
    ensures Size(EscapeAll(text)) <= 6 * Size(text)
  {
    if text != [] {
      EscapedAtMostSixfold(text[1..]);
      SizeConcat(Escape(text[0]), EscapeAll(text[1..]));
      CountedSizeIsEscapedSize(text[0]);
    }
  }

  /** Thirty-three closed chunks would hold more than the retained log can fill. */
  lemma FewChunks(chunks: seq<seq<Scalar>>, chunk: seq<Scalar>)
    requires AllFull(chunks) && Size(Flatten(chunks) + chunk) <= PROCESS_LOG_BYTES
    ensures |chunks| <= 32
  {
    FullChunksAreLarge(chunks);
    EscapedAtMostSixfold(Flatten(chunks));
    SizeConcat(Flatten(chunks), chunk);
  }

  lemma CloseChunk(chunks: seq<seq<Scalar>>, chunk: seq<Scalar>)
    requires AllFull(chunks) && Full(chunk)
    ensures AllFull(chunks + [chunk]) && Flatten(chunks + [chunk]) == Flatten(chunks) + chunk
  {
    FlattenPush(chunks, chunk);
  }

  method ChunkLog(normalized: seq<Scalar>) returns (chunks: seq<seq<Scalar>>)
    ensures chunks != [] && Flatten(chunks) == normalized
    ensures AllFull(chunks[..|chunks| - 1]) && JsonSize(chunks[|chunks| - 1]) <= LOG_CHUNK_BYTES
  {
    var closed: seq<seq<Scalar>> := [];
    var chunk: seq<Scalar> := [];
    var size := 2;
    ghost var done: seq<Scalar> := [];
    JsonSizeEmpty();
    for i := 0 to |normalized|
      invariant done + chunk == normalized[..i] && done == Flatten(closed)
      invariant AllFull(closed) && size == JsonSize(chunk) <= LOG_CHUNK_BYTES
    {
      var c := normalized[i];
      var length := EncodedCharacterBytes(c);
      TakeNext(normalized, i);
      if size + length > LOG_CHUNK_BYTES {
        CloseChunk(closed, chunk);
        closed, done := closed + [chunk], done + chunk;
        chunk, size := [], 2;
      }
      JsonSizePush(chunk, c);
      AppendAssoc(done, chunk, [c]);
      chunk, size := chunk + [c], size + length;
    }
    TakeAll(normalized);
    FlattenPush(closed, chunk);
    chunks := closed + [chunk];
    assert chunks[..|chunks| - 1] == closed;
  }

  method RetainedEnd(value: seq<Unit>) returns (normalized: seq<Scalar>)
    ensures normalized == Retained(value)
  {
    var sliced := if |value| > PROCESS_LOG_BYTES then value[|value| - PROCESS_LOG_BYTES..] else value;
    if |value| > PROCESS_LOG_BYTES {
      SliceKeepsTail(value[..|value| - PROCESS_LOG_BYTES], sliced, PROCESS_LOG_BYTES);
      assert value[..|value| - PROCESS_LOG_BYTES] + sliced == value;
    }
    var bytes := EncodeAll(Scalars(sliced));
    CutDecodes(Scalars(sliced), PROCESS_LOG_BYTES);
    var start := SkipToCharacter(bytes, CutStart(|bytes|, PROCESS_LOG_BYTES));
    normalized := Decode(bytes[start..]);
  }

  method SkipToCharacter(bytes: seq<Byte>, from: nat) returns (start: nat)
    requires from <= |bytes|
    ensures start == SkipContinuation(bytes, from)
  {
    start := from;
    while start < |bytes| && IsContinuation(bytes[start])
      invariant start <= |bytes| && SkipContinuation(bytes, start) == SkipContinuation(bytes, from)
    {
      start := start + 1;
    }
  }

  /** The conditions the view puts on one chunk of detail. */
  predicate DetailAccepted(text: seq<Scalar>, index: nat, chunks: nat) {
    && 0 < chunks <= 64 && index < chunks
    && Size(text) <= 24 * 1024 && JsonSize(text) <= 24 * 1024
  }

  lemma {:induction false} EscapingNeverShrinks(text: seq<Scalar>)
    ensures Size(text) <= Size(EscapeAll(text))
  {
    if text != [] {
      EscapingNeverShrinks(text[1..]);
      SizeConcat(Escape(text[0]), EscapeAll(text[1..]));
      CountedSizeIsEscapedSize(text[0]);
    }
  }

  lemma FittingChunk(chunk: seq<Scalar>)
    requires JsonSize(chunk) <= LOG_CHUNK_BYTES
    ensures Size(chunk) <= LOG_CHUNK_BYTES
  {
    EscapingNeverShrinks(chunk);
    JsonSizeContent(chunk);
  }

  /** No more closed chunks than the retained end of a log can fill. */
  lemma RetainedFits(value: seq<Unit>, closed: seq<seq<Scalar>>, last: seq<Scalar>)
    requires AllFull(closed) && Flatten(closed) + last == Retained(value)
    ensures |closed| <= 32
  {
    TailIsLongest(Scalars(value), PROCESS_LOG_BYTES);
    StrippedFits(Tail(Scalars(value), PROCESS_LOG_BYTES));
    FewChunks(closed, last);
  }

  lemma StrippedFits(text: seq<Scalar>)
    ensures Size(Stripped(text)) <= Size(text)
  {
  }

  method SplitProcessLog(value: seq<Unit>) returns (chunks: seq<seq<Scalar>>)
    ensures Flatten(chunks) == Retained(value)
    ensures 1 <= |chunks| <= 33
    ensures forall i | 0 <= i < |chunks| :: DetailAccepted(chunks[i], i, |chunks|)
    ensures forall i | 0 <= i < |chunks| - 1 :: Full(chunks[i])
  {
    var normalized := RetainedEnd(value);
    chunks := ChunkLog(normalized);
    ghost var closed := chunks[..|chunks| - 1];
    ghost var last := chunks[|chunks| - 1];
    assert chunks == closed + [last];
    FlattenPush(closed, last);
    RetainedFits(value, closed, last);
    forall i | 0 <= i < |chunks|
      ensures DetailAccepted(chunks[i], i, |chunks|)
      ensures i < |chunks| - 1 ==> Full(chunks[i])
    {
      assert i < |chunks| - 1 ==> chunks[i] == closed[i];
      FittingChunk(chunks[i]);
    }
  }

  /** The longest end of a text that encodes to at most `limit` bytes begins at `n`. */
  predicate LongestEndFrom(text: seq<Scalar>, n: nat, limit: nat) {
    && n <= |text| && Size(text[n..]) <= limit && (n > 0 ==> Size(text[n - 1..]) > limit)
  }

  /** What is shown of a log: the last characters that fit into 128 kibibytes, without a byte order mark in front. */
  lemma RetainedVerdict(value: seq<Unit>) returns (n: nat)
    ensures var text := Scalars(value);
            && LongestEndFrom(text, n, 128 * 1024)
            && Retained(value) == (if n < |text| && text[n] == 0xFEFF then text[n + 1..] else text[n..])
  {
    var text := Scalars(value);
    TailIsLongest(text, PROCESS_LOG_BYTES);
    n := |text| - |Tail(text, PROCESS_LOG_BYTES)|;
    assert text[n..] == Tail(text, PROCESS_LOG_BYTES);
    if n < |text| { assert text[n..][1..] == text[n + 1..]; }
  }
}
