/**
  The fragment of JavaScript regular expressions that a compiled glob uses:
  how its text is read, and what an expression matches.
 */
module Regex {
  import opened Wrappers

  datatype Rx =
    | Nothing
    | Any
    | NotSlash
    | Lit(c: char)
    | Then(first: Rx, rest: Rx)
    | Star(body: Rx)
    | Opt(body: Rx)

  /** The whole of `s` is matched by `r`. */
  ghost predicate Matches(r: Rx, s: string)
    decreases r, |s|
  {
    match r
    case Nothing => s == []
    case Any => |s| == 1
    case NotSlash => |s| == 1 && s[0] != '/'
    case Lit(c) => s == [c]
    case Then(first, rest) => exists k | 0 <= k <= |s| :: Matches(first, s[..k]) && Matches(rest, s[k..])
    case Star(body) => s == [] || exists k | 0 < k <= |s| :: Matches(body, s[..k]) && Matches(r, s[k..])
    case Opt(body) => s == [] || Matches(body, s)
  }

  const ANY := "[\\s\\S]"
  const NOT_SLASH := "[^/]"
  const OPEN := "(?:"

  /** The characters that mean something else than themselves. */
  predicate IsSyntax(c: char) {
    c in {'^', '$', '\\', '.', '*', '+', '?', '(', ')', '[', ']', '{', '}', '|'}
  }

  datatype Reading = Reading(rx: Rx, rest: string)

  /** One atom, with the text that follows it. */
  function ReadAtom(e: string): (r: Option<Reading>)
    ensures r.Some? ==> |r.value.rest| < |e|
    decreases |e|, 0
  {
    if ANY <= e then Some(Reading(Any, e[|ANY|..]))
    else if NOT_SLASH <= e then Some(Reading(NotSlash, e[|NOT_SLASH|..]))
    else if OPEN <= e then
      var inner := ReadTerms(e[|OPEN|..]);
      if inner.Some? && inner.value.rest != [] && inner.value.rest[0] == ')'
      then Some(Reading(inner.value.rx, inner.value.rest[1..]))
      else None
    else if e == [] then None
    else if e[0] == '\\' then
      if |e| > 1 && IsSyntax(e[1]) then Some(Reading(Lit(e[1]), e[2..])) else None
    else if IsSyntax(e[0]) then None
    else Some(Reading(Lit(e[0]), e[1..]))
  }

  /** A sequence of atoms, each with an optional `*` or `?`, up to the end or to `)` or `$`. */
  function ReadTerms(e: string): (r: Option<Reading>)
    ensures r.Some? ==> |r.value.rest| <= |e|
    decreases |e|, 1
  {
    if e == [] || e[0] == ')' || e[0] == '$' then Some(Reading(Nothing, e))
    else
      var atom := ReadAtom(e);
      if atom.None? then None
      else
        var after := atom.value.rest;
        var starred := after != [] && after[0] == '*';
        var optional := after != [] && after[0] == '?';
        var term := if starred then Star(atom.value.rx) else if optional then Opt(atom.value.rx) else atom.value.rx;
        var more := ReadTerms(if starred || optional then after[1..] else after);
        if more.None? then None else Some(Reading(Then(term, more.value.rx), more.value.rest))
  }

  /** new RegExp(e), for an expression anchored at both ends. */
  function Read(e: string): Option<Rx> {
    if e == [] || e[0] != '^' then None
    else
      var body := ReadTerms(e[1..]);
      if body.Some? && body.value.rest == "$" then Some(body.value.rx) else None
  }

  /** The expression matches the whole text. */
  ghost predicate Accepts(e: string, s: string) {
    Read(e).Some? && Matches(Read(e).value, s)
  }
}
