/**
  packages/ext-background-bash/src/foreground.ts: the text shown for a finished
  command, decoded from the last bytes of its output.
 */
module ForegroundText {
  import opened Sequences
  import opened TextDecoding
  import opened Utf16
  import opened Utf8

  const FOREGROUND_MAX_LINES: nat := 2000
  const FOREGROUND_MAX_BYTES: nat := 50 * 1024
  const NEWLINE: Scalar := 10
  const RETURN: Scalar := 13

  /** The text without the line break it ends in, be it a line feed or a carriage return and a line feed. */
  function Chomp(text: seq<Scalar>): seq<Scalar> {
    if text == [] || text[|text| - 1] != NEWLINE then text
    else if |text| > 1 && text[|text| - 2] == RETURN then text[..|text| - 2]
    else text[..|text| - 1]
  }

  function Split(text: seq<Scalar>): (lines: seq<seq<Scalar>>)
    ensures lines != []
  {
    if text == [] then [[]]
    else
      var rest := Split(text[1..]);
      if text[0] == NEWLINE then [[]] + rest else [[text[0]] + rest[0]] + rest[1..]
  }

  function Join(lines: seq<seq<Scalar>>): seq<Scalar> {
    if lines == [] then []
    else if |lines| == 1 then lines[0]
    else lines[0] + [NEWLINE] + Join(lines[1..])
  }

  /** The longest suffix with at most `n` lines. */
  function LastLines(text: seq<Scalar>, n: nat): seq<Scalar>
    requires n > 0
  {
    if |Split(text)| <= n then text else LastLines(text[1..], n)
  }

  /** One more character in front begins a new line, or joins the first. */
  lemma JoinFirst(c: Scalar, rest: seq<seq<Scalar>>)
    requires rest != []
    ensures Join([[]] + rest) == [NEWLINE] + Join(rest)
    ensures Join([[c] + rest[0]] + rest[1..]) == [c] + Join(rest)
  {
    assert ([[]] + rest)[1..] == rest;
    var joined := [[c] + rest[0]] + rest[1..];
    assert joined[1..] == rest[1..];
    if |rest| > 1 {
      AppendAssoc([c], rest[0], [NEWLINE]);
      AppendAssoc([c], rest[0] + [NEWLINE], Join(rest[1..]));
    }
  }

  lemma {:induction false} JoinSplit(text: seq<Scalar>)
    ensures Join(Split(text)) == text
  {
    if text != [] {
      JoinSplit(text[1..]);
      JoinFirst(text[0], Split(text[1..]));
      assert text == [text[0]] + text[1..];
    }
  }

  /** Splitting, keeping the last lines and joining them is taking a suffix. */
  lemma {:induction false} JoinLastLines(text: seq<Scalar>, n: nat)
    requires n > 0
    ensures Join(Last(Split(text), n)) == LastLines(text, n)
  {
    if |Split(text)| <= n {
      assert Last(Split(text), n) == Split(text);
      JoinSplit(text);
    } else {
      assert Last(Split(text), n) == Last(Split(text[1..]), n);
      JoinLastLines(text[1..], n);
    }
  }

  /** What is shown of a text: its last lines, and of these the last bytes. */
  function Kept(text: seq<Scalar>): seq<Scalar> {
    Tail(LastLines(text, FOREGROUND_MAX_LINES), FOREGROUND_MAX_BYTES)
  }

  /** What is shown of an output. */
  function Shown(bytes: seq<Byte>): seq<Scalar> {
    Kept(Chomp(Decode(bytes)))
  }

  /** The same as a string. */
  function ShownUnits(bytes: seq<Byte>): seq<Unit> {
    Units(Shown(bytes))
  }

  // ----- the retained tail is enough -----

  lemma {:induction false} FewerLines(a: seq<Scalar>, b: seq<Scalar>)
    ensures |Split(b)| <= |Split(a + b)|
  {
    if a == [] {
      assert a + b == b;
    } else {
      assert (a + b)[1..] == a[1..] + b;
      FewerLines(a[1..], b);
    }
  }

  lemma {:induction false} LastLinesOfEnd(a: seq<Scalar>, b: seq<Scalar>, n: nat, limit: nat)
    requires n > 0 && Size(b) >= limit
    ensures Tail(LastLines(a + b, n), limit) == Tail(LastLines(b, n), limit)
  {
    if a == [] {
      assert a + b == b;
    } else if |Split(a + b)| <= n {
      FewerLines(a, b);
      TailOfSuffix(a, b, limit);
    } else {
      assert (a + b)[1..] == a[1..] + b;
      LastLinesOfEnd(a[1..], b, n, limit);
    }
  }

  lemma KeptOfEnd(text: seq<Scalar>, end: seq<Scalar>)
    requires EndsWith(text, end) && Size(end) >= FOREGROUND_MAX_BYTES
    ensures Kept(text) == Kept(end)
  {
    assert text == text[..|text| - |end|] + end;
    LastLinesOfEnd(text[..|text| - |end|], end, FOREGROUND_MAX_LINES, FOREGROUND_MAX_BYTES);
  }

  lemma StrippedEnds(text: seq<Scalar>, end: seq<Scalar>)
    requires EndsWith(text, end) && end != []
    ensures EndsWith(Stripped(text), end[1..])
  {
    assert end[1..] == text[|text| - |end| + 1..];
    assert |text| > |end| ==> text[1..][|text| - |end|..] == end[1..];
  }

  lemma ChompEnds(text: seq<Scalar>, end: seq<Scalar>)
    requires EndsWith(text, end) && |end| >= 2
    ensures EndsWith(Chomp(text), Chomp(end))
  {
    assert text[|text| - 1] == end[|end| - 1] && text[|text| - 2] == end[|end| - 2];
    var front := text[..|text| - |end|];
    assert text == front + end;
    assert Chomp(text) == front + Chomp(end);
    AppendEnds(front, Chomp(end));
  }

  lemma ChompSize(text: seq<Scalar>)
    ensures Size(Chomp(text)) + 2 >= Size(text)
  {
    var rest := text[|Chomp(text)|..];
    assert text == Chomp(text) + rest;
    SizeConcat(Chomp(text), rest);
    if |rest| == 2 {
      assert rest == [RETURN] + [NEWLINE];
      SizeConcat([RETURN], [NEWLINE]);
    } else if |rest| == 1 {
      assert rest == [NEWLINE];
    }
  }

  lemma {:induction false} LengthFromSize(text: seq<Scalar>)
    ensures Size(text) <= 4 * |text|
  {
    if text != [] { LengthFromSize(text[1..]); }
  }

  lemma SharedEnd(decoded: seq<Scalar>, common: seq<Scalar>)
    requires EndsWith(decoded, common) && Size(common) >= FOREGROUND_MAX_BYTES + 6
    ensures Kept(Chomp(Stripped(decoded))) == Kept(Chomp(common[1..]))
  {
    LengthFromSize(common);
    var end := common[1..];
    StrippedEnds(decoded, common);
    ChompEnds(Stripped(decoded), end);
    ChompSize(end);
    KeptOfEnd(Chomp(Stripped(decoded)), Chomp(end));
  }

  /** Twice the shown size is enough to retain: cutting there changes nothing that is shown. */
  lemma ShownIsExact(received: seq<Byte>)
    ensures Shown(Last(received, 2 * FOREGROUND_MAX_BYTES)) == Shown(received)
  {
    var back := Last(received, 2 * FOREGROUND_MAX_BYTES);
    var front := received[..|received| - |back|];
    assert received == front + back;
    if front != [] {
      var common := DecodedEndsAgree(front, back);
      SharedEnd(DecodeAll(back), common);
      SharedEnd(DecodeAll(received), common);
    } else {
      assert back == received;
    }
  }

  // ----- the backwards walk -----

  lemma {:induction false} UnitsConcat(a: seq<Scalar>, b: seq<Scalar>)
    ensures Units(a + b) == Units(a) + Units(b)
  {
    if a == [] {
      assert a + b == b;
    } else {
      assert (a + b)[1..] == a[1..] + b;
      UnitsConcat(a[1..], b);
    }
  }

  lemma {:induction false} TailAt(text: seq<Scalar>, m: nat, limit: nat)
    requires m <= |text| && Size(text[m..]) <= limit && (m > 0 ==> Size(text[m - 1..]) > limit)
    ensures Tail(text, limit) == text[m..]
  {
    if m == 0 {
      assert text[0..] == text;
    } else {
      SizeConcat(text[..m - 1], text[m - 1..]);
      assert text == text[..m - 1] + text[m - 1..];
      assert text[1..][m - 1..] == text[m..];
      assert m > 1 ==> text[1..][m - 2..] == text[m - 1..];
      TailAt(text[1..], m - 1, limit);
    }
  }

  /** The unit before a boundary tells how large the character that ends there is. */
  lemma LastUnit(text: seq<Scalar>, m: nat)
    requires 0 < m <= |text|
    ensures var before := Units(text[..m]); var c := text[m - 1];
            && before == Units(text[..m - 1]) + UnitsOf(c)
            && (IsLow(before[|before| - 1]) <==> c >= 0x1_0000)
            && (c < 0x1_0000 ==> before[|before| - 1] == c)
  {
    assert text[..m] == text[..m - 1] + [text[m - 1]];
    UnitsConcat(text[..m - 1], [text[m - 1]]);
    assert Units([text[m - 1]]) == UnitsOf(text[m - 1]);
  }

  lemma UnitsAt(text: seq<Scalar>, m: nat)
    requires m <= |text|
    ensures Units(text) == Units(text[..m]) + Units(text[m..])
  {
    SplitAt(text, m);
    UnitsConcat(text[..m], text[m..]);
  }

  lemma SizeAt(text: seq<Scalar>, m: nat)
    requires 0 < m <= |text|
    ensures Size(text[m - 1..]) == Width(text[m - 1]) + Size(text[m..])
  {
    assert text[m - 1..][1..] == text[m..];
  }

  /** The loop over the units of `text`: from the end, as many whole characters as fit. */
  method ClipUnits(ghost text: seq<Scalar>, units: seq<Unit>) returns (clipped: seq<Unit>)
    requires units == Units(text)
    ensures clipped == Units(Tail(text, FOREGROUND_MAX_BYTES))
  {
    var start := |units|;
    var retainedBytes := 0;
    ghost var m := |text|;
    assert text[..m] == text;
    while start > 0
      invariant 0 <= m <= |text| && start == |Units(text[..m])| <= |units|
      invariant retainedBytes == Size(text[m..]) <= FOREGROUND_MAX_BYTES
      decreases start
    {
      LastUnit(text, m);
      SizeAt(text, m);
      UnitsAt(text, m);
      var code := units[start - 1];
      var paired := IsLow(code);
      var width := if paired then 4 else if code <= 0x7F then 1 else if code <= 0x7FF then 2 else 3;
      if retainedBytes + width > FOREGROUND_MAX_BYTES { break; }
      retainedBytes := retainedBytes + width;
      start := start - (if paired then 2 else 1);
      m := m - 1;
    }
    UnitsAt(text, m);
    if m > 0 { LastUnit(text, m); SizeAt(text, m); }
    TailAt(text, m, FOREGROUND_MAX_BYTES);
    clipped := units[start..];
  }

  method DecodeTail(chunks: seq<seq<Byte>>) returns (shown: seq<Unit>)
    ensures shown == Units(Shown(Flatten(chunks)))
  {
    var bytes: seq<Byte> := [];
    for i := 0 to |chunks|
      invariant bytes == Flatten(chunks[..i])
    {
      TakeNext(chunks, i);
      FlattenPush(chunks[..i], chunks[i]);
      bytes := bytes + chunks[i];
    }
    TakeAll(chunks);
    var trimmed := Chomp(Decode(bytes));
    var text := Join(Last(Split(trimmed), FOREGROUND_MAX_LINES));
    JoinLastLines(trimmed, FOREGROUND_MAX_LINES);
    shown := ClipUnits(text, Units(text));
  }

  // ----- what is shown -----

  function LineFeeds(text: seq<Scalar>): nat {
    if text == [] then 0 else (if text[0] == 10 then 1 else 0) + LineFeeds(text[1..])
  }

  lemma {:induction false} LinesAreFeeds(text: seq<Scalar>)
    ensures |Split(text)| == LineFeeds(text) + 1
  {
    if text != [] { LinesAreFeeds(text[1..]); }
  }

  /** `x` is `text` without the one line break it may end in. */
  predicate WithoutBreak(text: seq<Scalar>, x: seq<Scalar>) {
    || text == x + [13, 10]
    || (text == x + [10] && !(x != [] && x[|x| - 1] == 13))
    || (text == x && !(x != [] && x[|x| - 1] == 10))
  }

  /** The longest end of `text` with no more than 2000 lines and 50 KiB. */
  predicate IsLongestEnd(end: seq<Scalar>, text: seq<Scalar>) {
    && |end| <= |text| && end == text[|text| - |end|..]
    && LineFeeds(end) < 2000 && Size(end) <= 51200
    && (|end| < |text| ==>
          var longer := text[|text| - |end| - 1..];
          LineFeeds(longer) >= 2000 || Size(longer) > 51200)
  }

  lemma {:induction false} LastLinesIsLongest(text: seq<Scalar>, n: nat)
    requires n > 0
    ensures var t := LastLines(text, n);
            && |t| <= |text| && t == text[|text| - |t|..] && LineFeeds(t) < n
            && (|t| < |text| ==> LineFeeds(text[|text| - |t| - 1..]) >= n)
  {
    LinesAreFeeds(text);
    if LineFeeds(text) >= n {
      LastLinesIsLongest(text[1..], n);
      var t := LastLines(text[1..], n);
      assert text[1..][|text| - 1 - |t|..] == text[|text| - |t|..];
      if |t| < |text| - 1 { assert text[1..][|text| - 1 - |t| - 1..] == text[|text| - |t| - 1..]; }
    }
  }

  lemma {:induction false} FewerFeeds(a: seq<Scalar>, b: seq<Scalar>)
    ensures LineFeeds(b) <= LineFeeds(a + b)
  {
    if a == [] {
      assert a + b == b;
    } else {
      assert (a + b)[1..] == a[1..] + b;
      FewerFeeds(a[1..], b);
    }
  }

  lemma KeptIsLongestEnd(text: seq<Scalar>)
    ensures IsLongestEnd(Kept(text), text)
  {
    var lines := LastLines(text, 2000);
    var kept := Kept(text);
    LastLinesIsLongest(text, 2000);
    TailIsLongest(lines, 51200);
    assert kept == lines[|lines| - |kept|..] == text[|text| - |kept|..];
    FewerFeeds(lines[..|lines| - |kept|], kept);
    assert lines == lines[..|lines| - |kept|] + kept;
    if |kept| < |lines| {
      assert lines[|lines| - |kept| - 1..] == text[|text| - |kept| - 1..];
    }
  }

  lemma ChompDropsBreak(text: seq<Scalar>)
    ensures WithoutBreak(text, Chomp(text))
  {
    var x := Chomp(text);
    var n := |text| - |x|;
    if n == 2 { assert text == x + [13, 10]; }
    if n == 1 { assert text == x + [10]; }
  }

  /** What is shown of an output: of the decoded text without its final line break, as much of the end as fits. */
  lemma ShownIsLongestEnd(bytes: seq<Byte>) returns (x: seq<Scalar>)
    ensures WithoutBreak(Decode(bytes), x) && IsLongestEnd(Shown(bytes), x)
  {
    var text := Decode(bytes);
    x := Chomp(text);
    ChompDropsBreak(text);
    KeptIsLongestEnd(x);
  }
}
