/**
  TextDecoder on top of the byte-step decoder: the byte order mark it drops, a
  stream decoded piece by piece, and how soon decoding that starts in the middle
  of a character agrees with decoding from the beginning.
 */
module TextDecoding {
  import opened Sequences
  import opened Utf8

  const BOM: Scalar := 0xFEFF

  /** One leading byte order mark is dropped. */
  function Stripped(text: seq<Scalar>): seq<Scalar> {
    if text != [] && text[0] == BOM then text[1..] else text
  }

  /** A fresh decoder applied to all the bytes at once. */
  function Decode(bytes: seq<Byte>): seq<Scalar> {
    Stripped(DecodeAll(bytes))
  }

  // ----- cutting an encoded text -----

  function CutStart(length: nat, limit: nat): (start: nat)
    ensures start <= length
  {
    if length > limit then length - limit else 0
  }

  lemma CutBytes(text: seq<Scalar>, limit: nat)
    ensures var bytes := EncodeAll(text);
            bytes[SkipContinuation(bytes, CutStart(|bytes|, limit))..] == EncodeAll(Tail(text, limit))
  {
    EncodedSize(text);
    if Size(text) > limit { CutIsTail(text, limit); } else { SkipAtStart(text); }
  }

  /** Cutting the encoded text at a character and decoding it leaves its last whole characters. */
  lemma CutDecodes(text: seq<Scalar>, limit: nat)
    ensures var bytes := EncodeAll(text);
            Decode(bytes[SkipContinuation(bytes, CutStart(|bytes|, limit))..]) == Stripped(Tail(text, limit))
  {
    CutBytes(text, limit);
    DecodeEncode(Tail(text, limit));
  }

  // ----- a stream in pieces -----

  datatype TextDecoder = TextDecoder(state: Decoder, started: bool)

  const FRESH := TextDecoder(IDLE, false)

  datatype Piece = Piece(text: seq<Scalar>, decoder: TextDecoder)

  /** A decoder applied to the next piece, of which more may follow. */
  function DecodePiece(t: TextDecoder, bytes: seq<Byte>, stream: bool): Piece {
    var fed := Feed(t.state, bytes);
    var text := fed.text + (if stream then [] else Flush(fed.state));
    Piece(if t.started then text else Stripped(text),
          if stream then TextDecoder(fed.state, t.started || text != []) else FRESH)
  }

  /** The decoder after it has streamed `bytes`. */
  function After(bytes: seq<Byte>): TextDecoder {
    var fed := Feed(IDLE, bytes);
    TextDecoder(fed.state, fed.text != [])
  }

  /** The text it has produced by then. */
  function Streamed(bytes: seq<Byte>): seq<Scalar> {
    Stripped(Feed(IDLE, bytes).text)
  }

  /** Each piece adds what decoding the whole stream so far adds, and the last one completes it. */
  lemma PieceExtends(bytes: seq<Byte>, more: seq<Byte>)
    ensures var piece := DecodePiece(After(bytes), more, true);
            Streamed(bytes + more) == Streamed(bytes) + piece.text && piece.decoder == After(bytes + more)
    ensures var last := DecodePiece(After(bytes), more, false);
            Decode(bytes + more) == Streamed(bytes) + last.text && last.decoder == FRESH
  {
    FeedConcat(IDLE, bytes, more);
    var before := Feed(IDLE, bytes);
    var after := Feed(before.state, more);
    StripAppend(before.text, after.text);
    StripAppend(before.text, after.text + Flush(after.state));
    assert before.text + (after.text + Flush(after.state)) == before.text + after.text + Flush(after.state);
    assert after.text + [] == after.text;
  }

  lemma StripAppend(a: seq<Scalar>, b: seq<Scalar>)
    ensures Stripped(a + b) == Stripped(a) + (if a != [] then b else Stripped(b))
  {
    if a == [] {
      assert a + b == b;
    } else {
      assert (a + b)[1..] == a[1..] + b;
    }
  }

  // ----- resynchronisation -----

  /** How many bytes of a character have been taken. */
  function Consumed(d: Decoder): nat {
    if d.needed == 0 then 0
    else if d.needed == 1 then (if d.codePoint < 32 then 1 else if d.codePoint < 1024 then 2 else 3)
    else if d.needed == 2 then (if d.codePoint < 16 then 1 else 2)
    else 1
  }

  /** The states the decoder can be in. */
  predicate Reachable(d: Decoder) {
    && 0x80 <= d.lower && d.upper <= 0xBF
    && match d.needed
       case 0 => d == IDLE
       case 1 => 2 <= d.codePoint <= 0x10FFFF / 64
       case 2 => 0 <= d.codePoint <= 0x10FFFF / 4096 && (d.codePoint == 0 ==> d.lower == 0xA0)
       case 3 => 0 <= d.codePoint <= 4 && (d.codePoint == 0 ==> d.lower == 0x90) && (d.codePoint == 4 ==> d.upper == 0x8F)
       case _ => false
  }

  /** No byte is taken without being accounted for in the text or in the pending character. */
  lemma StepKeepsBytes(d: Decoder, b: Byte)
    requires Reachable(d)
    ensures var step := Step(d, b);
            Reachable(step.state) && Size(step.text) + Consumed(step.state) >= Consumed(d) + 1
  {
    StartKeepsBytes(b);
    if d.needed != 0 && !(d.lower <= b <= d.upper) {
      SizeConcat([REPLACEMENT], StartByte(b).text);
      OneSize(REPLACEMENT);
    } else if d.needed == 1 {
      OneSize(ToScalar(d.codePoint * 64 + (b - 0x80)));
    }
  }

  lemma OneSize(c: Scalar)
    ensures Size([c]) == Width(c)
  {
  }

  lemma StartKeepsBytes(b: Byte)
    ensures var start := StartByte(b);
            Reachable(start.state) && Size(start.text) + Consumed(start.state) >= 1
  {
    if b < 0x80 { OneSize(b); }
    OneSize(REPLACEMENT);
  }

  lemma {:induction false} FeedKeepsBytes(d: Decoder, bytes: seq<Byte>)
    requires Reachable(d)
    ensures var fed := Feed(d, bytes);
            Reachable(fed.state) && Size(fed.text) + Consumed(fed.state) >= Consumed(d) + |bytes|
    decreases bytes
  {
    if bytes != [] {
      StepKeepsBytes(d, bytes[0]);
      var first := Step(d, bytes[0]);
      FeedKeepsBytes(first.state, bytes[1..]);
      SizeConcat(first.text, Feed(first.state, bytes[1..]).text);
    }
  }

  /** From any state, decoding meets decoding from the idle state within three bytes. */
  lemma {:induction false} Resync(d: Decoder, bytes: seq<Byte>) returns (k: nat)
    requires Reachable(d) && |bytes| >= 3
    ensures k <= 3 && Feed(d, bytes[..k]).state == Feed(IDLE, bytes[..k]).state
  {
    k := ResyncWithin(d, bytes);
  }

  lemma {:induction false} ResyncWithin(d: Decoder, bytes: seq<Byte>) returns (k: nat)
    requires Reachable(d) && |bytes| >= d.needed
    ensures k <= d.needed && Feed(d, bytes[..k]).state == Feed(IDLE, bytes[..k]).state
    decreases d.needed
  {
    if d.needed == 0 {
      k := 0;
    } else {
      var b := bytes[0];
      StepKeepsBytes(d, b);
      FeedFirst(d, b);
      FeedFirst(IDLE, b);
      k := 1;
      assert bytes[..1] == [b];
      if d.lower <= b <= d.upper && d.needed > 1 {
        var more := ResyncWithin(Step(d, b).state, bytes[1..]);
        k := more + 1;
        assert bytes[..k] == [b] + bytes[1..][..more];
        FeedOne(d, b, bytes[1..][..more]);
        FeedOne(IDLE, b, bytes[1..][..more]);
      }
    }
  }

  lemma FeedFirst(d: Decoder, b: Byte)
    ensures Feed(d, [b]) == Step(d, b)
  {
    var step := Step(d, b);
    FeedOne(d, b, []);
    assert [b] + [] == [b];
    assert Feed(step.state, []) == Decoded([], step.state);
    assert step.text + [] == step.text;
  }

  predicate EndsWith(text: seq<Scalar>, end: seq<Scalar>) {
    |end| <= |text| && text[|text| - |end|..] == end
  }

  function DecodeFrom(d: Decoder, bytes: seq<Byte>): seq<Scalar> {
    var fed := Feed(d, bytes);
    fed.text + Flush(fed.state)
  }

  lemma DecodeFromConcat(d: Decoder, a: seq<Byte>, b: seq<Byte>)
    ensures DecodeFrom(d, a + b) == Feed(d, a).text + DecodeFrom(Feed(d, a).state, b)
  {
    FeedConcat(d, a, b);
  }

  lemma DecodeFromKeepsBytes(d: Decoder, bytes: seq<Byte>)
    requires Reachable(d)
    ensures Size(DecodeFrom(d, bytes)) >= |bytes|
  {
    FeedKeepsBytes(d, bytes);
    var fed := Feed(d, bytes);
    SizeConcat(fed.text, Flush(fed.state));
    OneSize(REPLACEMENT);
  }

  lemma AppendEnds(a: seq<Scalar>, b: seq<Scalar>)
    ensures EndsWith(a + b, b)
  {
  }

  /**
    Decoding the end of a byte string gives the end of decoding all of it: the two
    agree on everything but what the first three bytes contribute.
   */
  lemma DecodedEndsAgree(front: seq<Byte>, back: seq<Byte>) returns (common: seq<Scalar>)
    requires |back| >= 3
    ensures EndsWith(DecodeAll(front + back), common) && EndsWith(DecodeAll(back), common)
    ensures Size(common) >= |back| - 3
  {
    FeedKeepsBytes(IDLE, front);
    var d := Feed(IDLE, front).state;
    var k := Resync(d, back);
    common := EndsAgreeAt(d, back, k);
    DecodeFromConcat(IDLE, front, back);
    AppendEnds(Feed(IDLE, front).text + Feed(d, back[..k]).text, common);
    assert Feed(IDLE, front).text + (Feed(d, back[..k]).text + common)
        == Feed(IDLE, front).text + Feed(d, back[..k]).text + common;
  }

  lemma EndsAgreeAt(d: Decoder, back: seq<Byte>, k: nat) returns (common: seq<Scalar>)
    requires k <= 3 <= |back| && Feed(d, back[..k]).state == Feed(IDLE, back[..k]).state
    ensures DecodeFrom(d, back) == Feed(d, back[..k]).text + common
    ensures EndsWith(DecodeAll(back), common) && Size(common) >= |back| - 3
  {
    var state := Feed(IDLE, back[..k]).state;
    common := DecodeFrom(state, back[k..]);
    FeedKeepsBytes(IDLE, back[..k]);
    DecodeFromKeepsBytes(state, back[k..]);
    SplitAt(back, k);
    DecodeFromConcat(IDLE, back[..k], back[k..]);
    DecodeFromConcat(d, back[..k], back[k..]);
    AppendEnds(Feed(IDLE, back[..k]).text, common);
  }
}
