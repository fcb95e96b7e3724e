/**
  How JSON.stringify prints a string: the escapes of section 7 of RFC 8259 that
  the language prescribes, lone surrogates written as \uXXXX.
 */
module JsonString {
  import opened Utf8

  const QUOTE: Scalar := 34
  const BACKSLASH: Scalar := 92

  function Hex(digit: int): Scalar
    requires 0 <= digit < 16
  {
    if digit < 10 then 48 + digit else 87 + digit
  }

  function UnicodeEscape(c: int): seq<Scalar>
    requires 0 <= c < 0x1_0000
  {
    [BACKSLASH, 117, Hex(c / 0x1000), Hex(c / 0x100 % 16), Hex(c / 16 % 16), Hex(c % 16)]
  }

  function Escape(c: CodePoint): seq<Scalar> {
    if c == QUOTE || c == BACKSLASH then [BACKSLASH, c]
    else if c == 8 then [BACKSLASH, 98]
    else if c == 9 then [BACKSLASH, 116]
    else if c == 10 then [BACKSLASH, 110]
    else if c == 12 then [BACKSLASH, 102]
    else if c == 13 then [BACKSLASH, 114]
    else if c < 32 || 0xD800 <= c < 0xE000 then UnicodeEscape(c)
    else [c]
  }

  function EscapeAll(text: seq<CodePoint>): seq<Scalar> {
    if text == [] then [] else Escape(text[0]) + EscapeAll(text[1..])
  }

  function Quote(text: seq<CodePoint>): seq<Scalar> {
    [QUOTE] + EscapeAll(text) + [QUOTE]
  }

  lemma {:induction false} EscapeConcat(a: seq<CodePoint>, b: seq<CodePoint>)
    ensures EscapeAll(a + b) == EscapeAll(a) + EscapeAll(b)
  {
    if a == [] {
      assert a + b == b;
    } else {
      assert (a + b)[1..] == a[1..] + b;
      EscapeConcat(a[1..], b);
    }
  }
}
