/**
  Strings as JavaScript holds them: sequences of UTF-16 code units. Iterating
  over one yields code points; encoding one replaces every lone surrogate.
 */
module Utf16 {
  import opened Sequences
  import opened Utf8

  type Unit = u: int | 0 <= u < 0x1_0000

  predicate IsHigh(u: Unit) {
    0xD800 <= u < 0xDC00
  }

  predicate IsLow(u: Unit) {
    0xDC00 <= u < 0xE000
  }

  /** How many units the first character takes. */
  function Advance(s: seq<Unit>): (n: nat)
    requires s != []
    ensures 1 <= n <= |s| && n <= 2
  {
    if |s| > 1 && IsHigh(s[0]) && IsLow(s[1]) then 2 else 1
  }

  /** The first character, a lone surrogate as it stands. */
  function Point(s: seq<Unit>): CodePoint
    requires s != []
  {
    if Advance(s) == 2 then 0x1_0000 + (s[0] as int - 0xD800) * 0x400 + (s[1] as int - 0xDC00) else s[0]
  }

  function First(s: seq<Unit>): Scalar
    requires s != []
  {
    if 0xD800 <= Point(s) < 0xE000 then REPLACEMENT else Point(s)
  }

  /** The characters of a string. */
  function CodePoints(s: seq<Unit>): seq<CodePoint> {
    if s == [] then [] else [Point(s)] + CodePoints(s[Advance(s)..])
  }

  /** The text a string encodes to. */
  function Scalars(s: seq<Unit>): seq<Scalar> {
    if s == [] then [] else [First(s)] + Scalars(s[Advance(s)..])
  }

  function UnitsOf(c: CodePoint): (s: seq<Unit>)
    ensures 1 <= |s| <= 2
  {
    if c < 0x1_0000 then [c]
    else [0xD800 + (c - 0x1_0000) / 0x400, 0xDC00 + (c - 0x1_0000) % 0x400]
  }

  function Units(text: seq<CodePoint>): seq<Unit> {
    if text == [] then [] else UnitsOf(text[0]) + Units(text[1..])
  }

  /** A string is determined by its characters. */
  lemma {:induction false} UnitsOfPoints(s: seq<Unit>)
    ensures Units(CodePoints(s)) == s
  {
    if s != [] {
      var n := Advance(s);
      UnitsOfPoints(s[n..]);
      assert UnitsOf(Point(s)) == s[..n];
      SplitAt(s, n);
      assert CodePoints(s)[1..] == CodePoints(s[n..]);
    }
  }

  /** A well-formed text survives being held as a string. */
  lemma {:induction false} ScalarsOfUnits(text: seq<Scalar>)
    ensures Scalars(Units(text)) == text
  {
    if text != [] {
      ScalarsOfUnits(text[1..]);
      var units := UnitsOf(text[0]);
      var rest := Units(text[1..]);
      assert Advance(units + rest) == |units| && First(units + rest) == text[0];
      assert (units + rest)[|units|..] == rest;
      assert text == [text[0]] + text[1..];
    }
  }

  /** The cut between the two parts falls inside a character. */
  predicate Splits(a: seq<Unit>, b: seq<Unit>) {
    a != [] && b != [] && IsHigh(a[|a| - 1]) && IsLow(b[0])
  }

  lemma {:induction false} ScalarsConcat(a: seq<Unit>, b: seq<Unit>)
    requires !Splits(a, b)
    ensures Scalars(a + b) == Scalars(a) + Scalars(b)
  {
    if a == [] {
      assert a + b == b;
    } else {
      var n := Advance(a);
      assert Advance(a + b) == n && First(a + b) == First(a);
      assert (a + b)[n..] == a[n..] + b;
      ScalarsConcat(a[n..], b);
    }
  }

  /** No unit takes less than a byte. */
  lemma {:induction false} UnitsFitBytes(s: seq<Unit>)
    ensures |s| <= Size(Scalars(s))
  {
    if s != [] {
      UnitsFitBytes(s[Advance(s)..]);
      assert Scalars(s)[1..] == Scalars(s[Advance(s)..]);
    }
  }

  /** Nothing in front of a text that already fills the limit is kept. */
  lemma {:induction false} TailOfSuffix(a: seq<Scalar>, b: seq<Scalar>, limit: nat)
    requires Size(b) >= limit
    ensures Tail(a + b, limit) == Tail(b, limit)
  {
    if a == [] {
      assert a + b == b;
    } else {
      SizeConcat(a, b);
      assert (a + b)[1..] == a[1..] + b;
      TailOfSuffix(a[1..], b, limit);
    }
  }

  /** A surrogate pair cut in two was too large to be kept whole, and its half is too. */
  lemma SplitPair(front: seq<Unit>, high: Unit, low: Unit, back: seq<Unit>, limit: nat)
    requires IsHigh(high) && IsLow(low) && 1 + |back| >= limit
    ensures Tail(Scalars(front + [high] + ([low] + back)), limit) == Tail(Scalars([low] + back), limit)
  {
    var pair := [high, low] + back;
    var rest := Scalars(back);
    assert front + [high] + ([low] + back) == front + pair;
    ScalarsConcat(front, pair);
    UnitsFitBytes(back);
    assert pair[2..] == back && ([low] + back)[1..] == back;
    assert Scalars(pair) == [First(pair)] + rest;
    assert Scalars([low] + back) == [REPLACEMENT] + rest;
    assert ([First(pair)] + rest)[1..] == rest && ([REPLACEMENT] + rest)[1..] == rest;
    TailOfSuffix(Scalars(front), Scalars(pair), limit);
  }

  /** Dropping all but `limit` units first does not change the last `limit` bytes. */
  lemma SliceKeepsTail(a: seq<Unit>, b: seq<Unit>, limit: nat)
    requires |b| >= limit
    ensures Tail(Scalars(a + b), limit) == Tail(Scalars(b), limit)
  {
    if Splits(a, b) {
      SplitPair(a[..|a| - 1], a[|a| - 1], b[0], b[1..], limit);
      assert a[..|a| - 1] + [a[|a| - 1]] == a && [b[0]] + b[1..] == b;
    } else {
      ScalarsConcat(a, b);
      UnitsFitBytes(b);
      TailOfSuffix(Scalars(a), Scalars(b), limit);
    }
  }
}
