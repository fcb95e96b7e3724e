/**
  JSON values and the text JSON.stringify prints for them. Strings are sequences of
  UTF-16 units; a number is the token it prints as. Printing is uniquely decodable.
 */
module Json {
  import opened JsonString
  import opened Sequences
  import opened Utf16
  import opened Utf8

  datatype Json =
    | Null
    | Bool(b: bool)
    | Number(token: seq<Scalar>)
    | Text(units: seq<Unit>)
    | Array(items: seq<Json>)
    | Object(members: seq<Member>)

  datatype Member = Member(key: seq<Unit>, value: Json)

  const COMMA: Scalar := 44
  const COLON: Scalar := 58
  const OPEN_ARRAY: Scalar := 91
  const CLOSE_ARRAY: Scalar := 93
  const OPEN_OBJECT: Scalar := 123
  const CLOSE_OBJECT: Scalar := 125

  /** The characters number tokens are made of: digits, signs, point and exponent. */
  predicate IsNumberChar(c: Scalar) {
    48 <= c <= 57 || c == 43 || c == 45 || c == 46 || c == 101
  }

  predicate IsToken(token: seq<Scalar>) {
    && token != [] && (48 <= token[0] <= 57 || token[0] == 45)
    && forall i | 0 <= i < |token| :: IsNumberChar(token[i])
  }

  predicate DistinctKeys(members: seq<Member>) {
    forall i, j | 0 <= i < j < |members| :: members[i].key != members[j].key
  }

  /** A JSON value: numbers are tokens and the keys of an object differ. */
  predicate Valid(j: Json) {
    match j
    case Null => true
    case Bool(_) => true
    case Number(token) => IsToken(token)
    case Text(_) => true
    case Array(items) => forall i | 0 <= i < |items| :: Valid(items[i])
    case Object(members) => DistinctKeys(members) && forall i | 0 <= i < |members| :: Valid(members[i].value)
  }

  function PrintText(units: seq<Unit>): seq<Scalar> {
    Quote(CodePoints(units))
  }

  const NULL_TEXT: seq<Scalar> := [110, 117, 108, 108]
  const TRUE_TEXT: seq<Scalar> := [116, 114, 117, 101]
  const FALSE_TEXT: seq<Scalar> := [102, 97, 108, 115, 101]

  function Print(j: Json): seq<Scalar>
    decreases j
  {
    match j
    case Null => NULL_TEXT
    case Bool(b) => if b then TRUE_TEXT else FALSE_TEXT
    case Number(token) => token
    case Text(units) => PrintText(units)
    case Array(items) => [OPEN_ARRAY] + (PrintItems(items) + [CLOSE_ARRAY])
    case Object(members) => [OPEN_OBJECT] + (PrintMembers(members) + [CLOSE_OBJECT])
  }

  /** The printed items, joined with commas. */
  function PrintItems(items: seq<Json>): seq<Scalar>
    decreases items
  {
    if items == [] then []
    else Print(items[0]) + (if |items| == 1 then [] else [COMMA] + PrintItems(items[1..]))
  }

  function PrintMember(m: Member): seq<Scalar>
    decreases m
  {
    PrintText(m.key) + ([COLON] + Print(m.value))
  }

  function PrintMembers(members: seq<Member>): seq<Scalar>
    decreases members
  {
    if members == [] then []
    else PrintMember(members[0]) + (if |members| == 1 then [] else [COMMA] + PrintMembers(members[1..]))
  }

  // ----- concatenation -----

  lemma Uncons(c: Scalar, d: Scalar, x: seq<Scalar>, y: seq<Scalar>)
    requires [c] + x == [d] + y
    ensures c == d && x == y
  {
    assert ([c] + x)[0] == c && ([d] + y)[0] == d;
    assert ([c] + x)[1..] == x && ([d] + y)[1..] == y;
  }

  lemma Enclosed(open: Scalar, body: seq<Scalar>, close: Scalar, x: seq<Scalar>)
    ensures ([open] + (body + [close])) + x == [open] + (body + ([close] + x))
  {
    AppendAssoc([open], body + [close], x);
    AppendAssoc(body, [close], x);
  }

  // ----- the text of a string is uniquely decodable -----

  lemma HexInjective(a: int, b: int)
    requires 0 <= a < 16 && 0 <= b < 16 && Hex(a) == Hex(b)
    ensures a == b
  {
  }

  lemma UnicodeEscapeInjective(c: int, d: int)
    requires 0 <= c < 0x1_0000 && 0 <= d < 0x1_0000 && UnicodeEscape(c) == UnicodeEscape(d)
    ensures c == d
  {
    var e, f := UnicodeEscape(c), UnicodeEscape(d);
    assert e[2] == f[2] && e[3] == f[3] && e[4] == f[4] && e[5] == f[5];
    HexInjective(c / 0x1000, d / 0x1000);
    HexInjective(c / 0x100 % 16, d / 0x100 % 16);
    HexInjective(c / 16 % 16, d / 16 % 16);
    HexInjective(c % 16, d % 16);
    FourDigits(c);
    FourDigits(d);
  }

  lemma FourDigits(c: int)
    requires 0 <= c < 0x1_0000
    ensures c == c / 0x1000 * 0x1000 + c / 0x100 % 16 * 0x100 + c / 16 % 16 * 16 + c % 16
  {
    assert c / 0x100 == c / 0x1000 * 16 + c / 0x100 % 16;
    assert c / 16 == c / 0x100 * 16 + c / 16 % 16;
  }

  /** The escape of one character is not the beginning of that of another. */
  lemma EscapePrefixFree(c: CodePoint, d: CodePoint, x: seq<Scalar>, y: seq<Scalar>)
    requires Escape(c) + x == Escape(d) + y
    ensures c == d && x == y
  {
    var e, f := Escape(c), Escape(d);
    var whole := e + x;
    assert whole[0] == e[0] && whole == f + y && whole[0] == f[0];
    if |e| > 1 && |f| > 1 {
      assert whole[1] == e[1] && whole[1] == f[1];
    }
    assert |e| == |f|;
    assert e == whole[..|e|] && f == whole[..|f|];
    assert x == whole[|e|..] && y == whole[|f|..];
    if |e| == 6 { UnicodeEscapeInjective(c, d); }
  }

  lemma EscapeNeverQuotes(c: CodePoint)
    ensures Escape(c)[0] != QUOTE
  {
  }

  /** A string body ends at the first unescaped quote, so it can be told from what follows. */
  lemma {:induction false} EscapedPrefixFree(a: seq<CodePoint>, b: seq<CodePoint>, x: seq<Scalar>, y: seq<Scalar>)
    requires x != [] && x[0] == QUOTE && y != [] && y[0] == QUOTE
    requires EscapeAll(a) + x == EscapeAll(b) + y
    ensures a == b && x == y
  {
    if a != [] { EscapedHead(a, x); }
    if b != [] { EscapedHead(b, y); }
    assert a == [] ==> EscapeAll(a) + x == x;
    assert b == [] ==> EscapeAll(b) + y == y;
    if a != [] && b != [] {
      var restA, restB := EscapeAll(a[1..]) + x, EscapeAll(b[1..]) + y;
      EscapePrefixFree(a[0], b[0], restA, restB);
      EscapedPrefixFree(a[1..], b[1..], x, y);
      assert a == [a[0]] + a[1..] && b == [b[0]] + b[1..];
    }
  }

  lemma EscapedHead(a: seq<CodePoint>, x: seq<Scalar>)
    requires a != []
    ensures EscapeAll(a) + x == Escape(a[0]) + (EscapeAll(a[1..]) + x)
    ensures (EscapeAll(a) + x)[0] != QUOTE
  {
    AppendAssoc(Escape(a[0]), EscapeAll(a[1..]), x);
    EscapeNeverQuotes(a[0]);
  }

  lemma QuoteThen(text: seq<CodePoint>, x: seq<Scalar>)
    ensures Quote(text) + x == [QUOTE] + (EscapeAll(text) + ([QUOTE] + x))
  {
    AppendAssoc([QUOTE], EscapeAll(text), [QUOTE]);
    Enclosed(QUOTE, EscapeAll(text), QUOTE, x);
  }

  lemma TextPrefixFree(a: seq<Unit>, b: seq<Unit>, x: seq<Scalar>, y: seq<Scalar>)
    requires PrintText(a) + x == PrintText(b) + y
    ensures a == b && x == y
  {
    var p, q := CodePoints(a), CodePoints(b);
    QuoteThen(p, x);
    QuoteThen(q, y);
    Uncons(QUOTE, QUOTE, EscapeAll(p) + ([QUOTE] + x), EscapeAll(q) + ([QUOTE] + y));
    EscapedPrefixFree(p, q, [QUOTE] + x, [QUOTE] + y);
    Uncons(QUOTE, QUOTE, x, y);
    UnitsOfPoints(a);
    UnitsOfPoints(b);
  }

  // ----- the text of a value is uniquely decodable -----

  /** What may follow a value: nothing, or something no number contains. */
  predicate Stops(x: seq<Scalar>) {
    x == [] || !IsNumberChar(x[0])
  }

  /** The first character of a value tells its kind. */
  function Kind(j: Json): nat {
    match j
    case Null => 0
    case Bool(b) => if b then 1 else 2
    case Number(_) => 3
    case Text(_) => 4
    case Array(_) => 5
    case Object(_) => 6
  }

  lemma FirstCharacter(j: Json)
    requires Valid(j)
    ensures var p := Print(j);
            && p != [] && p[0] != COMMA && p[0] != CLOSE_ARRAY && p[0] != CLOSE_OBJECT
            && (p[0] == 110 <==> Kind(j) == 0) && (p[0] == 116 <==> Kind(j) == 1) && (p[0] == 102 <==> Kind(j) == 2)
            && (p[0] == 34 <==> Kind(j) == 4) && (p[0] == 91 <==> Kind(j) == 5) && (p[0] == 123 <==> Kind(j) == 6)
  {
  }

  /** How many number characters a text begins with. */
  function NumberRun(s: seq<Scalar>): nat {
    if s == [] || !IsNumberChar(s[0]) then 0 else 1 + NumberRun(s[1..])
  }

  lemma {:induction false} TokenIsRun(a: seq<Scalar>, x: seq<Scalar>)
    requires (forall i | 0 <= i < |a| :: IsNumberChar(a[i])) && Stops(x)
    ensures NumberRun(a + x) == |a|
  {
    if a == [] {
      assert a + x == x;
    } else {
      assert (a + x)[1..] == a[1..] + x;
      TokenIsRun(a[1..], x);
    }
  }

  lemma TokenPrefixFree(a: seq<Scalar>, b: seq<Scalar>, x: seq<Scalar>, y: seq<Scalar>)
    requires IsToken(a) && IsToken(b) && Stops(x) && Stops(y) && a + x == b + y
    ensures a == b && x == y
  {
    TokenIsRun(a, x);
    TokenIsRun(b, y);
    assert a == (a + x)[..|a|] && b == (b + y)[..|b|] && x == (a + x)[|a|..] && y == (b + y)[|b|..];
  }

  /** One value followed by a stop determines the value and what follows. */
  lemma {:induction false} PrintPrefixFree(a: Json, b: Json, x: seq<Scalar>, y: seq<Scalar>)
    requires Valid(a) && Valid(b) && Stops(x) && Stops(y) && Print(a) + x == Print(b) + y
    ensures a == b && x == y
    decreases a, 1
  {
    SameKind(a, b, x, y);
    if a.Number? {
      TokenPrefixFree(a.token, b.token, x, y);
    } else if a.Text? {
      TextPrefixFree(a.units, b.units, x, y);
    } else if a.Array? {
      ArrayPrefixFree(a, b, x, y);
    } else if a.Object? {
      ObjectPrefixFree(a, b, x, y);
    } else {
      var p := Print(a);
      assert (p + x)[|p|..] == x && (p + y)[|p|..] == y;
    }
  }

  lemma SameKind(a: Json, b: Json, x: seq<Scalar>, y: seq<Scalar>)
    requires Valid(a) && Valid(b) && Print(a) + x == Print(b) + y
    ensures Kind(a) == Kind(b)
  {
    FirstCharacter(a);
    FirstCharacter(b);
    assert (Print(a) + x)[0] == Print(a)[0] && (Print(b) + y)[0] == Print(b)[0];
  }

  lemma {:induction false} ArrayPrefixFree(a: Json, b: Json, x: seq<Scalar>, y: seq<Scalar>)
    requires Valid(a) && Valid(b) && a.Array? && b.Array? && Print(a) + x == Print(b) + y
    ensures a == b && x == y
    decreases a, 0
  {
    Enclosed(OPEN_ARRAY, PrintItems(a.items), CLOSE_ARRAY, x);
    Enclosed(OPEN_ARRAY, PrintItems(b.items), CLOSE_ARRAY, y);
    var endA, endB := [CLOSE_ARRAY] + x, [CLOSE_ARRAY] + y;
    Uncons(OPEN_ARRAY, OPEN_ARRAY, PrintItems(a.items) + endA, PrintItems(b.items) + endB);
    ItemsPrefixFree(a.items, b.items, endA, endB);
    Uncons(CLOSE_ARRAY, CLOSE_ARRAY, x, y);
  }

  lemma {:induction false} ObjectPrefixFree(a: Json, b: Json, x: seq<Scalar>, y: seq<Scalar>)
    requires Valid(a) && Valid(b) && a.Object? && b.Object? && Print(a) + x == Print(b) + y
    ensures a == b && x == y
    decreases a, 0
  {
    Enclosed(OPEN_OBJECT, PrintMembers(a.members), CLOSE_OBJECT, x);
    Enclosed(OPEN_OBJECT, PrintMembers(b.members), CLOSE_OBJECT, y);
    var endA, endB := [CLOSE_OBJECT] + x, [CLOSE_OBJECT] + y;
    Uncons(OPEN_OBJECT, OPEN_OBJECT, PrintMembers(a.members) + endA, PrintMembers(b.members) + endB);
    MembersPrefixFree(a.members, b.members, endA, endB);
    Uncons(CLOSE_OBJECT, CLOSE_OBJECT, x, y);
  }

  /** What comes after the first item of a list that `end` ends: that end, or a comma and the others. */
  function AfterItem(items: seq<Json>, end: seq<Scalar>): seq<Scalar>
    requires items != []
  {
    if |items| == 1 then end else [COMMA] + (PrintItems(items[1..]) + end)
  }

  lemma FirstItem(items: seq<Json>, end: seq<Scalar>)
    requires items != []
    ensures PrintItems(items) + end == Print(items[0]) + AfterItem(items, end)
  {
    var first := Print(items[0]);
    if |items| == 1 {
      assert first + [] == first;
    } else {
      var rest := PrintItems(items[1..]);
      AppendAssoc(first, [COMMA] + rest, end);
      AppendAssoc([COMMA], rest, end);
    }
  }

  predicate Ends(end: seq<Scalar>, close: Scalar) {
    end != [] && end[0] == close
  }

  lemma {:induction false} ItemsPrefixFree(a: seq<Json>, b: seq<Json>, x: seq<Scalar>, y: seq<Scalar>)
    requires (forall i | 0 <= i < |a| :: Valid(a[i])) && (forall i | 0 <= i < |b| :: Valid(b[i]))
    requires Ends(x, CLOSE_ARRAY) && Ends(y, CLOSE_ARRAY) && PrintItems(a) + x == PrintItems(b) + y
    ensures a == b && x == y
    decreases a
  {
    ItemsStart(a, x);
    ItemsStart(b, y);
    if a != [] && b != [] {
      var restA, restB := AfterItem(a, x), AfterItem(b, y);
      PrintPrefixFree(a[0], b[0], restA, restB);
      if |a| > 1 {
        Uncons(COMMA, restB[0], PrintItems(a[1..]) + x, restB[1..]);
        assert restB == [restB[0]] + restB[1..];
        Uncons(COMMA, COMMA, PrintItems(a[1..]) + x, PrintItems(b[1..]) + y);
        ItemsPrefixFree(a[1..], b[1..], x, y);
      }
      assert a == [a[0]] + a[1..] && b == [b[0]] + b[1..];
    }
  }

  /** A list's text begins with its first item, or is its end. */
  lemma ItemsStart(items: seq<Json>, end: seq<Scalar>)
    requires (forall i | 0 <= i < |items| :: Valid(items[i])) && Ends(end, CLOSE_ARRAY)
    ensures items == [] ==> PrintItems(items) + end == end
    ensures items != [] ==>
      && PrintItems(items) + end == Print(items[0]) + AfterItem(items, end)
      && (PrintItems(items) + end)[0] != CLOSE_ARRAY
      && Ends(AfterItem(items, end), if |items| == 1 then CLOSE_ARRAY else COMMA)
  {
    if items == [] {
      assert [] + end == end;
    } else {
      FirstItem(items, end);
      FirstCharacter(items[0]);
      Leads(Print(items[0]), AfterItem(items, end));
    }
  }

  lemma Leads(a: seq<Scalar>, b: seq<Scalar>)
    requires a != []
    ensures (a + b)[0] == a[0]
  {
  }

  function AfterMember(members: seq<Member>, end: seq<Scalar>): seq<Scalar>
    requires members != []
  {
    if |members| == 1 then end else [COMMA] + (PrintMembers(members[1..]) + end)
  }

  lemma FirstMember(members: seq<Member>, end: seq<Scalar>)
    requires members != []
    ensures PrintMembers(members) + end == PrintMember(members[0]) + AfterMember(members, end)
  {
    var first := PrintMember(members[0]);
    if |members| == 1 {
      assert first + [] == first;
    } else {
      var rest := PrintMembers(members[1..]);
      AppendAssoc(first, [COMMA] + rest, end);
      AppendAssoc([COMMA], rest, end);
    }
  }

  lemma MembersStart(members: seq<Member>, end: seq<Scalar>)
    requires Ends(end, CLOSE_OBJECT)
    ensures members == [] ==> PrintMembers(members) + end == end
    ensures members != [] ==>
      && PrintMembers(members) + end == PrintMember(members[0]) + AfterMember(members, end)
      && (PrintMembers(members) + end)[0] == QUOTE
      && Ends(AfterMember(members, end), if |members| == 1 then CLOSE_OBJECT else COMMA)
  {
    if members == [] {
      assert [] + end == end;
    } else {
      FirstMember(members, end);
      MemberQuoted(members[0]);
      Leads(PrintMember(members[0]), AfterMember(members, end));
    }
  }

  lemma MemberQuoted(m: Member)
    ensures PrintMember(m) != [] && PrintMember(m)[0] == QUOTE
  {
    var text := PrintText(m.key);
    QuoteThen(CodePoints(m.key), []);
    assert text + [] == text;
    Leads([QUOTE], EscapeAll(CodePoints(m.key)) + ([QUOTE] + []));
    Leads(text, [COLON] + Print(m.value));
  }

  lemma {:induction false} MembersPrefixFree(a: seq<Member>, b: seq<Member>, x: seq<Scalar>, y: seq<Scalar>)
    requires (forall i | 0 <= i < |a| :: Valid(a[i].value)) && (forall i | 0 <= i < |b| :: Valid(b[i].value))
    requires Ends(x, CLOSE_OBJECT) && Ends(y, CLOSE_OBJECT) && PrintMembers(a) + x == PrintMembers(b) + y
    ensures a == b && x == y
    decreases a
  {
    MembersStart(a, x);
    MembersStart(b, y);
    if a != [] && b != [] {
      var restA, restB := AfterMember(a, x), AfterMember(b, y);
      MemberPrefixFree(a[0], b[0], restA, restB);
      if |a| > 1 {
        Uncons(COMMA, restB[0], PrintMembers(a[1..]) + x, restB[1..]);
        assert restB == [restB[0]] + restB[1..];
        Uncons(COMMA, COMMA, PrintMembers(a[1..]) + x, PrintMembers(b[1..]) + y);
        MembersPrefixFree(a[1..], b[1..], x, y);
      }
      assert a == [a[0]] + a[1..] && b == [b[0]] + b[1..];
    }
  }

  lemma {:induction false} MemberPrefixFree(a: Member, b: Member, x: seq<Scalar>, y: seq<Scalar>)
    requires Valid(a.value) && Valid(b.value) && Stops(x) && Stops(y) && PrintMember(a) + x == PrintMember(b) + y
    ensures a == b && x == y
    decreases a
  {
    MemberThen(a, x);
    MemberThen(b, y);
    var restA, restB := Print(a.value) + x, Print(b.value) + y;
    TextPrefixFree(a.key, b.key, [COLON] + restA, [COLON] + restB);
    Uncons(COLON, COLON, restA, restB);
    PrintPrefixFree(a.value, b.value, x, y);
  }

  lemma MemberThen(m: Member, x: seq<Scalar>)
    ensures PrintMember(m) + x == PrintText(m.key) + ([COLON] + (Print(m.value) + x))
  {
    AppendAssoc(PrintText(m.key), [COLON] + Print(m.value), x);
    AppendAssoc([COLON], Print(m.value), x);
  }

  /** Values that print the same are the same. */
  lemma PrintInjective(a: Json, b: Json)
    requires Valid(a) && Valid(b) && Print(a) == Print(b)
    ensures a == b
  {
    assert Print(a) + [] == Print(b) + [];
    PrintPrefixFree(a, b, [], []);
  }

  /** The words, and the characters around and between items and members. */
  lemma PunctuationVerdict(a: Json, b: Json, key: seq<Unit>)
    ensures Print(Null) == [110, 117, 108, 108] && Print(Bool(true)) == [116, 114, 117, 101]
    ensures Print(Bool(false)) == [102, 97, 108, 115, 101]
    ensures Print(Array([a, b])) == [91] + Print(a) + [44] + Print(b) + [93]
    ensures Print(Object([Member(key, a)])) == [123] + PrintText(key) + [58] + Print(a) + [125]
  {
    assert [a, b][1..] == [b];
    assert PrintItems([b]) == Print(b) + [];
    assert PrintMembers([Member(key, a)]) == PrintMember(Member(key, a)) + [];
  }

  /** The strings "\n" and "\u001f". */
  lemma EscapeSamples()
    ensures PrintText([10]) == [34, 92, 110, 34] && PrintText([31]) == [34, 92, 117, 48, 48, 49, 102, 34]
  {
    assert CodePoints([10]) == [10] && CodePoints([31]) == [31];
    assert EscapeAll([10]) == [92, 110] && EscapeAll([31]) == [92, 117, 48, 48, 49, 102];
  }
}
