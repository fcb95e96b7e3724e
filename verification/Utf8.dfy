/**
  UTF-8 as the platform's TextEncoder and TextDecoder treat it: the encoding of
  scalar values, and the decoder of the Encoding standard as a byte-by-byte
  machine, so that decoding a stream in pieces has a meaning.
 */
module Utf8 {
  import opened Sequences

  type Scalar = c: int | 0 <= c < 0xD800 || 0xE000 <= c < 0x11_0000
  /** A code point of any kind, lone surrogates included. */
  type CodePoint = c: int | 0 <= c < 0x11_0000
  type Byte = b: int | 0 <= b < 256

  const REPLACEMENT: Scalar := 0xFFFD

  function Width(c: Scalar): (n: nat)
    ensures 1 <= n <= 4
  {
    if c < 0x80 then 1 else if c < 0x800 then 2 else if c < 0x1_0000 then 3 else 4
  }

  /** The six low bits, and what is above them. */
  function Low(n: nat): (r: nat)
    ensures r < 64
  {
    n % 64
  }

  function High(n: nat): (r: nat)
    ensures n == r * 64 + Low(n)
  {
    n / 64
  }

  function Encode(c: Scalar): (s: seq<Byte>)
    ensures |s| == Width(c)
  {
    if c < 0x80 then [c]
    else if c < 0x800 then [0xC0 + High(c), 0x80 + Low(c)]
    else if c < 0x1_0000 then [0xE0 + High(High(c)), 0x80 + Low(High(c)), 0x80 + Low(c)]
    else [0xF0 + High(High(High(c))), 0x80 + Low(High(High(c))), 0x80 + Low(High(c)), 0x80 + Low(c)]
  }

  function EncodeAll(text: seq<Scalar>): seq<Byte> {
    if text == [] then [] else Encode(text[0]) + EncodeAll(text[1..])
  }

  function Size(text: seq<Scalar>): nat {
    if text == [] then 0 else Width(text[0]) + Size(text[1..])
  }

  /** The two leading bits say that the byte continues a character. */
  predicate IsContinuation(b: Byte) {
    0x80 <= b < 0xC0
  }

  // ----- the streaming decoder -----

  /** `needed` continuation bytes are awaited, the next one within lower..upper. */
  datatype Decoder = Decoder(codePoint: int, needed: nat, lower: int, upper: int)

  const IDLE := Decoder(0, 0, 0x80, 0xBF)

  datatype Decoded = Decoded(text: seq<Scalar>, state: Decoder)

  function StartByte(b: Byte): Decoded {
    if b < 0x80 then Decoded([b], IDLE)
    else if 0xC2 <= b <= 0xDF then Decoded([], Decoder(b - 0xC0, 1, 0x80, 0xBF))
    else if 0xE0 <= b <= 0xEF then
      Decoded([], Decoder(b - 0xE0, 2, if b == 0xE0 then 0xA0 else 0x80, if b == 0xED then 0x9F else 0xBF))
    else if 0xF0 <= b <= 0xF4 then
      Decoded([], Decoder(b - 0xF0, 3, if b == 0xF0 then 0x90 else 0x80, if b == 0xF4 then 0x8F else 0xBF))
    else Decoded([REPLACEMENT], IDLE)
  }

  function ToScalar(c: int): Scalar {
    if 0 <= c < 0xD800 || 0xE000 <= c < 0x11_0000 then c else REPLACEMENT
  }

  function Step(d: Decoder, b: Byte): Decoded {
    if d.needed == 0 then StartByte(b)
    else if !(d.lower <= b <= d.upper) then
      var again := StartByte(b);
      Decoded([REPLACEMENT] + again.text, again.state)
    else
      var codePoint := d.codePoint * 64 + (b - 0x80);
      if d.needed == 1 then Decoded([ToScalar(codePoint)], IDLE)
      else Decoded([], Decoder(codePoint, d.needed - 1, 0x80, 0xBF))
  }

  /** The bytes fed to the machine one by one: the text so far, and the state that waits for more. */
  function Feed(d: Decoder, bytes: seq<Byte>): Decoded
    decreases bytes
  {
    if bytes == [] then Decoded([], d)
    else
      var first := Step(d, bytes[0]);
      var rest := Feed(first.state, bytes[1..]);
      Decoded(first.text + rest.text, rest.state)
  }

  /** What ending the stream adds. */
  function Flush(d: Decoder): seq<Scalar> {
    if d.needed == 0 then [] else [REPLACEMENT]
  }

  function DecodeAll(bytes: seq<Byte>): seq<Scalar> {
    var d := Feed(IDLE, bytes);
    d.text + Flush(d.state)
  }

  /** Decoding in two pieces is decoding at once. */
  lemma {:induction false} FeedConcat(d: Decoder, a: seq<Byte>, b: seq<Byte>)
    ensures var first := Feed(d, a); var second := Feed(first.state, b);
            Feed(d, a + b) == Decoded(first.text + second.text, second.state)
    decreases a
  {
    if a == [] {
      assert a + b == b;
      assert [] + Feed(d, b).text == Feed(d, b).text;
    } else {
      var step := Step(d, a[0]);
      var rest := Feed(step.state, a[1..]);
      ConcatHead(a, b);
      FeedConcat(step.state, a[1..], b);
      AppendAssoc(step.text, rest.text, Feed(rest.state, b).text);
    }
  }

  lemma FeedOne(d: Decoder, b: Byte, rest: seq<Byte>)
    ensures var first := Step(d, b); var more := Feed(first.state, rest);
            Feed(d, [b] + rest) == Decoded(first.text + more.text, more.state)
  {
  }

  /** The last continuation byte completes the character. */
  lemma LastByte(c: Scalar, lower: int, upper: int)
    requires lower <= 0x80 + Low(c) <= upper
    ensures Feed(Decoder(High(c), 1, lower, upper), [0x80 + Low(c)]) == Decoded([c], IDLE)
  {
    var d := Decoder(High(c), 1, lower, upper);
    assert Step(d, 0x80 + Low(c)) == Decoded([c], IDLE);
    FeedOne(d, 0x80 + Low(c), []);
  }

  lemma MiddleByte(high: nat, low: nat, needed: nat, lower: int, upper: int, rest: seq<Byte>)
    requires needed > 1 && low < 64 && lower <= 0x80 + low <= upper
    ensures Feed(Decoder(high, needed, lower, upper), [0x80 + low] + rest)
            == Feed(Decoder(high * 64 + low, needed - 1, 0x80, 0xBF), rest)
  {
    FeedOne(Decoder(high, needed, lower, upper), 0x80 + low, rest);
    var more := Feed(Decoder(high * 64 + low, needed - 1, 0x80, 0xBF), rest);
    assert [] + more.text == more.text;
  }

  lemma LeadByte(b: Byte, rest: seq<Byte>)
    requires b >= 0xC2 && b <= 0xF4
    ensures Feed(IDLE, [b] + rest) == Feed(StartByte(b).state, rest)
  {
    FeedOne(IDLE, b, rest);
    var more := Feed(StartByte(b).state, rest);
    assert [] + more.text == more.text;
  }

  lemma DecodesTwoBytes(c: Scalar)
    requires 0x80 <= c < 0x800
    ensures Feed(IDLE, Encode(c)) == Decoded([c], IDLE)
  {
    var last := [0x80 + Low(c)];
    LeadByte(0xC0 + High(c), last);
    LastByte(c, 0x80, 0xBF);
    assert Encode(c) == [0xC0 + High(c)] + last;
  }

  lemma DecodesThreeBytes(c: Scalar)
    requires 0x800 <= c < 0x1_0000
    ensures Feed(IDLE, Encode(c)) == Decoded([c], IDLE)
  {
    var rest := High(c);
    var lead := 0xE0 + High(rest);
    var last := [0x80 + Low(c)];
    var d := StartByte(lead).state;
    assert d == Decoder(High(rest), 2, d.lower, d.upper) && d.lower <= 0x80 + Low(rest) <= d.upper;
    LeadByte(lead, [0x80 + Low(rest)] + last);
    MiddleByte(High(rest), Low(rest), 2, d.lower, d.upper, last);
    LastByte(c, 0x80, 0xBF);
    assert Encode(c) == [lead] + ([0x80 + Low(rest)] + last);
  }

  /** The lead byte of four leaves room for exactly the second bytes of scalar values. */
  lemma LeadOfFour(c: Scalar)
    requires 0x1_0000 <= c
    ensures var second := High(High(c)); var lead := 0xF0 + High(second); 0xF0 <= lead <= 0xF4
    ensures var second := High(High(c)); var d := StartByte(0xF0 + High(second)).state;
            d == Decoder(High(second), 3, d.lower, d.upper) && d.lower <= 0x80 + Low(second) <= d.upper
  {
  }

  lemma DecodesFourBytes(c: Scalar)
    requires 0x1_0000 <= c
    ensures Feed(IDLE, Encode(c)) == Decoded([c], IDLE)
  {
    var third := High(c);
    var second := High(third);
    var lead := 0xF0 + High(second);
    var last := [0x80 + Low(c)];
    var d := StartByte(lead).state;
    LeadOfFour(c);
    LeadByte(lead, [0x80 + Low(second)] + ([0x80 + Low(third)] + last));
    MiddleByte(High(second), Low(second), 3, d.lower, d.upper, [0x80 + Low(third)] + last);
    MiddleByte(second, Low(third), 2, 0x80, 0xBF, last);
    LastByte(c, 0x80, 0xBF);
    FourBytes(c);
  }

  lemma FourBytes(c: Scalar)
    requires 0x1_0000 <= c
    ensures Encode(c) == [0xF0 + High(High(High(c)))] + ([0x80 + Low(High(High(c)))] + ([0x80 + Low(High(c))] + [0x80 + Low(c)]))
  {
  }

  /** The decoder inverts the encoder on one character. */
  lemma DecodesCharacter(c: Scalar)
    ensures Feed(IDLE, Encode(c)) == Decoded([c], IDLE)
  {
    if c < 0x80 {
      FeedOne(IDLE, c, []);
    } else if c < 0x800 {
      DecodesTwoBytes(c);
    } else if c < 0x1_0000 {
      DecodesThreeBytes(c);
    } else {
      DecodesFourBytes(c);
    }
  }

  /** Decoding an encoded text gives the text back and leaves nothing pending. */
  lemma {:induction false} DecodeEncode(text: seq<Scalar>)
    ensures Feed(IDLE, EncodeAll(text)) == Decoded(text, IDLE)
    ensures DecodeAll(EncodeAll(text)) == text
  {
    if text != [] {
      DecodesCharacter(text[0]);
      DecodeEncode(text[1..]);
      FeedConcat(IDLE, Encode(text[0]), EncodeAll(text[1..]));
      assert text == [text[0]] + text[1..];
    }
  }

  lemma {:induction false} EncodeConcat(a: seq<Scalar>, b: seq<Scalar>)
    ensures EncodeAll(a + b) == EncodeAll(a) + EncodeAll(b)
  {
    if a == [] {
      assert a + b == b;
    } else {
      assert (a + b)[1..] == a[1..] + b;
      EncodeConcat(a[1..], b);
    }
  }

  lemma {:induction false} SizeConcat(a: seq<Scalar>, b: seq<Scalar>)
    ensures Size(a + b) == Size(a) + Size(b)
  {
    if a == [] {
      assert a + b == b;
    } else {
      assert (a + b)[1..] == a[1..] + b;
      SizeConcat(a[1..], b);
    }
  }

  lemma {:induction false} EncodedSize(text: seq<Scalar>)
    ensures |EncodeAll(text)| == Size(text)
  {
    if text != [] { EncodedSize(text[1..]); }
  }

  // ----- cutting an encoded text at a character -----

  /** The longest suffix of whole characters that fits in `limit` bytes. */
  function Tail(text: seq<Scalar>, limit: nat): seq<Scalar> {
    if Size(text) <= limit then text else Tail(text[1..], limit)
  }

  lemma EncodingShape(c: Scalar)
    ensures var e := Encode(c); !IsContinuation(e[0]) && forall i | 0 < i < |e| :: IsContinuation(e[i])
  {
  }

  /** From `start`, the first byte that begins a character, or the end. */
  function SkipContinuation(bytes: seq<Byte>, start: nat): (k: nat)
    requires start <= |bytes|
    ensures start <= k <= |bytes|
    decreases |bytes| - start
  {
    if start < |bytes| && IsContinuation(bytes[start]) then SkipContinuation(bytes, start + 1) else start
  }

  lemma {:induction false} SkipShift(head: seq<Byte>, bytes: seq<Byte>, start: nat)
    requires start <= |bytes|
    ensures SkipContinuation(head + bytes, |head| + start) == |head| + SkipContinuation(bytes, start)
    decreases |bytes| - start
  {
    if start < |bytes| {
      assert (head + bytes)[|head| + start] == bytes[start];
      if IsContinuation(bytes[start]) { SkipShift(head, bytes, start + 1); }
    }
  }

  lemma {:induction false} SkipInside(bytes: seq<Byte>, start: nat, end: nat)
    requires start <= end <= |bytes| && forall i | start <= i < end :: IsContinuation(bytes[i])
    ensures SkipContinuation(bytes, start) == SkipContinuation(bytes, end)
    decreases end - start
  {
    if start < end { SkipInside(bytes, start + 1, end); }
  }

  /** The start of an encoded text is a character boundary. */
  lemma SkipAtStart(text: seq<Scalar>)
    ensures SkipContinuation(EncodeAll(text), 0) == 0
  {
    if text != [] { EncodingShape(text[0]); }
  }

  /** The cut falls within the first character, or just behind it. */
  lemma CutFirst(head: seq<Byte>, rest: seq<Scalar>, start: nat)
    requires 0 < start <= |head| && forall i | 0 < i < |head| :: IsContinuation(head[i])
    ensures SkipContinuation(head + EncodeAll(rest), start) == |head|
  {
    var bytes := head + EncodeAll(rest);
    assert forall i | start <= i < |head| :: IsContinuation(bytes[i]);
    SkipInside(bytes, start, |head|);
    SkipShift(head, EncodeAll(rest), 0);
    SkipAtStart(rest);
  }

  /** A tail is a suffix that fits, and one character more would not. */
  lemma {:induction false} TailIsLongest(text: seq<Scalar>, limit: nat)
    ensures var t := Tail(text, limit);
            && |t| <= |text| && t == text[|text| - |t|..] && Size(t) <= limit
            && (|t| < |text| ==> Size(text[|text| - |t| - 1..]) > limit)
  {
    if Size(text) > limit {
      TailIsLongest(text[1..], limit);
      var n: nat := |text| - |Tail(text, limit)|;
      SuffixOfRest(text, n);
      if n > 1 { SuffixOfRest(text, n - 1); }
    }
    assert text[0..] == text;
  }

  lemma SuffixOfRest(text: seq<Scalar>, n: nat)
    requires 0 < n <= |text|
    ensures text[1..][n - 1..] == text[n..]
  {
  }

  /** Skipping from inside an encoded character leads behind it. */
  lemma CutBehind(before: seq<Byte>, head: seq<Byte>, rest: seq<Scalar>, start: nat)
    requires |before| < start <= |before| + |head|
    requires forall i | 0 < i < |head| :: IsContinuation(head[i])
    ensures var bytes := before + (head + EncodeAll(rest));
            bytes[SkipContinuation(bytes, start)..] == EncodeAll(rest)
  {
    CutFirst(head, rest, start - |before|);
    SkipShift(before, head + EncodeAll(rest), start - |before|);
  }

  lemma EncodeStep(text: seq<Scalar>, m: nat)
    requires m < |text|
    ensures EncodeAll(text[m..]) == Encode(text[m]) + EncodeAll(text[m + 1..])
  {
    var s := text[m..];
    assert s[0] == text[m];
    assert s[1..] == text[m + 1..];
  }

  lemma EncodeSplit(text: seq<Scalar>, m: nat)
    requires m < |text|
    ensures EncodeAll(text) == EncodeAll(text[..m]) + EncodeAll(text[m..])
  {
    EncodeConcat(text[..m], text[m..]);
    SplitAt(text, m);
  }

  /** A cut within the character at `m` leaves what follows it. */
  lemma CutWithin(text: seq<Scalar>, m: nat, start: nat)
    requires m < |text|
    requires Size(text[..m]) < start <= Size(text[..m]) + Width(text[m])
    ensures start <= |EncodeAll(text)|
    ensures EncodeAll(text)[SkipContinuation(EncodeAll(text), start)..] == EncodeAll(text[m + 1..])
  {
    var before, head := EncodeAll(text[..m]), Encode(text[m]);
    EncodedSize(text[..m]);
    EncodeSplit(text, m);
    EncodeStep(text, m);
    EncodingShape(text[m]);
    CutBehind(before, head, text[m + 1..], start);
  }

  lemma SizeSplit(text: seq<Scalar>, m: nat)
    requires m < |text|
    ensures Size(text) == Size(text[..m]) + Width(text[m]) + Size(text[m + 1..])
    ensures Size(text[m..]) == Width(text[m]) + Size(text[m + 1..])
  {
    SizeConcat(text[..m], text[m..]);
    SplitAt(text, m);
    assert text[m..][1..] == text[m + 1..];
  }

  /** Skipping to a boundary from `limit` bytes before the end leaves the longest fitting suffix. */
  lemma CutIsTail(text: seq<Scalar>, limit: nat)
    requires Size(text) > limit
    ensures |EncodeAll(text)| == Size(text)
    ensures var bytes := EncodeAll(text);
            bytes[SkipContinuation(bytes, Size(text) - limit)..] == EncodeAll(Tail(text, limit))
  {
    EncodedSize(text);
    var m := LastDropped(text, limit);
    CutWithin(text, m, Size(text) - limit);
  }

  /** The last character that no longer fits. */
  lemma LastDropped(text: seq<Scalar>, limit: nat) returns (m: nat)
    requires Size(text) > limit
    ensures m < |text| && Tail(text, limit) == text[m + 1..]
    ensures Size(text[..m]) < Size(text) - limit <= Size(text[..m]) + Width(text[m])
  {
    TailIsLongest(text, limit);
    m := |text| - |Tail(text, limit)| - 1;
    SizeSplit(text, m);
  }

  /** Cutting as the text grows is the same as cutting the whole text once. */
  lemma {:induction false} TailIncremental(a: seq<Scalar>, b: seq<Scalar>, limit: nat)
    ensures Tail(Tail(a, limit) + b, limit) == Tail(a + b, limit)
  {
    if Size(a) > limit {
      TailIncremental(a[1..], b, limit);
      SizeConcat(a, b);
      assert (a + b)[1..] == a[1..] + b;
    }
  }

  /** One character of each width. */
  lemma EncodingSamples()
    ensures Encode(0x41) == [0x41] && Encode(0xE9) == [0xC3, 0xA9]
    ensures Encode(0x20AC) == [0xE2, 0x82, 0xAC] && Encode(0x1F600) == [0xF0, 0x9F, 0x98, 0x80]
  {
  }

  /** What cannot continue a character is taken anew: a truncated one, a surrogate and an overlong form. */
  lemma ReplacementSamples()
    ensures DecodeAll([0xE2, 0x82, 0x41]) == [REPLACEMENT, 0x41]
    ensures DecodeAll([0xED, 0xA0, 0x80]) == [REPLACEMENT, REPLACEMENT, REPLACEMENT]
    ensures DecodeAll([0xC0, 0xAF, 0xF0, 0x9F]) == [REPLACEMENT, REPLACEMENT, REPLACEMENT]
  {
  }
}
