/**
  packages/ext-background-bash/src/coordinator.ts: the text kept of a terminal is
  its last bytes, cut again with every piece that arrives.
 */
module BoundedTail {
  import opened TextDecoding
  import opened Utf8

  /** The last whole characters that fit; cutting also drops a byte order mark at the cut. */
  function Bounded(text: seq<Scalar>, limit: nat): seq<Scalar> {
    if Size(text) <= limit then text else Stripped(Tail(text, limit))
  }

  method BoundText(text: seq<Scalar>, limit: nat) returns (r: seq<Scalar>)
    ensures r == Bounded(text, limit)
  {
    var bytes := EncodeAll(text);
    EncodedSize(text);
    CutDecodes(text, limit);
    if |bytes| <= limit { return text; }
    var start: nat := |bytes| - limit;
    ghost var from := start;
    while start < |bytes| && IsContinuation(bytes[start])
      invariant start <= |bytes| && SkipContinuation(bytes, start) == SkipContinuation(bytes, from)
    {
      start := start + 1;
    }
    r := Decode(bytes[start..]);
  }

  lemma BoundedFits(text: seq<Scalar>, limit: nat)
    ensures Size(Bounded(text, limit)) <= limit
  {
    TailIsLongest(text, limit);
  }

  predicate StartsWithMark(text: seq<Scalar>) {
    text != [] && text[0] == BOM
  }

  /** The cut of `a` drops a mark whose three bytes `b` then needs, and another mark follows it. */
  predicate DropsTwoMarks(a: seq<Scalar>, b: seq<Scalar>, limit: nat) {
    && Size(a) > limit && StartsWithMark(Tail(a, limit))
    && var rest := Tail(a, limit)[1..] + b;
       StartsWithMark(rest) && Size(rest) <= limit < Size(rest) + 3
  }

  /** Cutting piece by piece is cutting once, except when one of the cuts falls between two byte order marks. */
  lemma BoundedIncrementally(a: seq<Scalar>, b: seq<Scalar>, limit: nat)
    requires limit >= 4
    ensures Bounded(Bounded(a, limit) + b, limit) == Bounded(a + b, limit) <==> !DropsTwoMarks(a, b, limit)
  {
    if Size(a) > limit {
      SizeConcat(a, b);
      TailIncremental(a, b, limit);
      NotAllCut(a, limit);
      var kept := Tail(a, limit);
      if StartsWithMark(kept) {
        CutAfterMark(kept, b, limit);
      } else {
        assert Stripped(kept) == kept && Stripped(kept + b) == kept + b;
      }
    }
  }

  lemma CutAfterMark(kept: seq<Scalar>, b: seq<Scalar>, limit: nat)
    requires StartsWithMark(kept)
    ensures var rest := kept[1..] + b;
            Bounded(rest, limit) == Stripped(Tail(kept + b, limit))
            <==> !(StartsWithMark(rest) && Size(rest) <= limit < Size(rest) + 3)
  {
    assert (kept + b)[1..] == kept[1..] + b;
  }

  lemma {:induction false} NotAllCut(text: seq<Scalar>, limit: nat)
    requires limit >= 4 && text != []
    ensures Tail(text, limit) != []
  {
    if |text| > 1 {
      NotAllCut(text[1..], limit);
    } else {
      assert text == [text[0]];
      OneSize(text[0]);
    }
  }

  /** No byte order mark directly follows another. */
  predicate MarksApart(text: seq<Scalar>) {
    forall i | 0 <= i < |text| - 1 :: !(text[i] == BOM && text[i + 1] == BOM)
  }

  lemma BoundedOfStream(a: seq<Scalar>, b: seq<Scalar>, limit: nat)
    requires limit >= 4 && MarksApart(a + b)
    ensures MarksApart(a) && Bounded(Bounded(a, limit) + b, limit) == Bounded(a + b, limit)
  {
    assert forall i | 0 <= i < |a| :: (a + b)[i] == a[i];
    TailIsLongest(a, limit);
    var kept := Tail(a, limit);
    var i := |a| - |kept|;
    assert (a + b)[i..] == kept + b;
    if kept != [] && |kept + b| > 1 {
      assert (a + b)[i] == kept[0] && (a + b)[i + 1] == (kept + b)[1];
      assert (kept + b)[1] == (kept[1..] + b)[0];
    }
    BoundedIncrementally(a, b, limit);
  }

  function Letters(n: nat): (text: seq<Scalar>)
    ensures |text| == n
  {
    if n == 0 then [] else [98] + Letters(n - 1)
  }

  lemma {:induction false} LettersSize(n: nat)
    ensures Size(Letters(n)) == n
  {
    if n > 0 {
      LettersSize(n - 1);
      assert Letters(n)[1..] == Letters(n - 1);
    }
  }

  /** The text with two marks at the cut is one byte too long. */
  lemma MarkedSizes(limit: nat)
    requires limit >= 6
    ensures var rest := [BOM] + Letters(limit - 6);
            && Size(rest) == limit - 3 && Size([BOM] + rest) == limit && Size([97, BOM] + rest) == limit + 1
            && Tail([97, BOM] + rest, limit) == [BOM] + rest
  {
    var rest := [BOM] + Letters(limit - 6);
    LettersSize(limit - 6);
    assert rest[1..] == Letters(limit - 6);
    assert ([BOM] + rest)[1..] == rest;
    assert ([97, BOM] + rest)[1..] == [BOM] + rest;
  }

  /** The exception is real for every limit: two marks at the cut lose one mark more than a single cut does. */
  lemma TwoMarksDiffer(limit: nat)
    requires limit >= 6
    ensures var a := [97, BOM, BOM] + Letters(limit - 6); var b := [99];
            DropsTwoMarks(a, b, limit) && Bounded(Bounded(a, limit) + b, limit) != Bounded(a + b, limit)
  {
    var rest := [BOM] + Letters(limit - 6);
    MarkedSizes(limit);
    assert [97, BOM, BOM] + Letters(limit - 6) == [97, BOM] + rest;
    assert ([BOM] + rest)[1..] == rest;
    SizeConcat(rest, [99]);
    OneSize(99);
    BoundedIncrementally([97, BOM] + rest, [99], limit);
  }
}
