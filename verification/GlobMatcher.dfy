/**
  fileListingGlobMatcher: a glob is compiled to the text of a regular
  expression. What a glob means is stated on the glob itself; the compiled text
  is then proved to be readable and to accept exactly that.
 */
module GlobMatcher {
  import opened Wrappers
  import opened Regex
  import opened Sequences

  const ANY_DIRECTORIES := "(?:[\\s\\S]*/)?"
  const ANYTHING := "[\\s\\S]*"
  const IN_SEGMENT := "[^/]*"
  const ONE := "[^/]"

  predicate NeedsEscape(c: char) {
    c in {'|', '\\', '{', '}', '(', ')', '[', ']', '^', '$', '+', '?', '.'}
  }

  function Escape(c: char): string {
    if NeedsEscape(c) then ['\\', c] else [c]
  }

  /** How much of the pattern the next step of the loop reads, and what it appends. */
  function Width(p: string): (n: nat)
    requires p != []
    ensures 0 < n <= |p|
  {
    if "**/" <= p then 3 else if "**" <= p then 2 else 1
  }

  function Token(p: string): string
    requires p != []
  {
    if "**/" <= p then ANY_DIRECTORIES
    else if "**" <= p then ANYTHING
    else if p[0] == '*' then IN_SEGMENT
    else if p[0] == '?' then ONE
    else Escape(p[0])
  }

  function Body(p: string): string {
    if p == [] then [] else Token(p) + Body(p[Width(p)..])
  }

  /** What the loop's look-ahead finds at `index`. */
  predicate DoubleStarAt(pattern: string, index: nat) {
    index + 1 < |pattern| && pattern[index] == '*' && pattern[index + 1] == '*'
  }

  predicate SlashAt(pattern: string, index: nat) {
    index < |pattern| && pattern[index] == '/'
  }

  /** One round of the loop appends the next token and skips what it stands for. */
  lemma OneRound(pattern: string, index: nat, done: string)
    requires index < |pattern|
    ensures var double := DoubleStarAt(pattern, index);
            var token := if double && SlashAt(pattern, index + 2) then ANY_DIRECTORIES
                         else if double then ANYTHING
                         else if pattern[index] == '*' then IN_SEGMENT
                         else if pattern[index] == '?' then ONE
                         else Escape(pattern[index]);
            var width := if double && SlashAt(pattern, index + 2) then 3 else if double then 2 else 1;
            done + Body(pattern[index..]) == done + token + Body(pattern[index + width..])
  {
    var rest := pattern[index..];
    assert "**" <= rest <==> DoubleStarAt(pattern, index);
    assert "**/" <= rest <==> DoubleStarAt(pattern, index) && SlashAt(pattern, index + 2);
    assert pattern[index + Width(rest)..] == rest[Width(rest)..];
    assert done + (Token(rest) + Body(rest[Width(rest)..])) == done + Token(rest) + Body(rest[Width(rest)..]);
  }

  method Compile(pattern: string) returns (expression: string)
    ensures expression == "^" + Body(pattern) + "$"
    ensures forall path :: Accepts(expression, path) <==> Means(pattern, path)
  {
    expression := "^";
    var index := 0;
    while index < |pattern|
      invariant 0 <= index <= |pattern|
      invariant expression + Body(pattern[index..]) == "^" + Body(pattern)
    {
      OneRound(pattern, index, expression);
      var character := pattern[index];
      if DoubleStarAt(pattern, index) {
        if SlashAt(pattern, index + 2) {
          expression := expression + ANY_DIRECTORIES;
          index := index + 1;
        } else {
          expression := expression + ANYTHING;
        }
        index := index + 1;
      } else if character == '*' {
        expression := expression + IN_SEGMENT;
      } else if character == '?' {
        expression := expression + ONE;
      } else {
        expression := expression + Escape(character);
      }
      index := index + 1;
    }
    assert pattern[index..] == [];
    expression := expression + "$";
    CompiledMeansAlways(pattern);
  }

  /**
    What a glob means. A double star before a slash stands for any number of
    whole directories, any other double star for any text, a star for text
    within one segment, and a question mark for one character within a segment.
   */
  predicate Means(p: string, s: string)
    decreases |p|
  {
    if p == [] then s == []
    else if "**/" <= p then exists k | 0 <= k <= |s| :: (k == 0 || s[k - 1] == '/') && Means(p[3..], s[k..])
    else if "**" <= p then exists k | 0 <= k <= |s| :: Means(p[2..], s[k..])
    else if p[0] == '*' then exists k | 0 <= k <= |s| :: '/' !in s[..k] && Means(p[1..], s[k..])
    else if p[0] == '?' then s != [] && s[0] != '/' && Means(p[1..], s[1..])
    else s != [] && s[0] == p[0] && Means(p[1..], s[1..])
  }

  // ----- the text is read back as intended -----

  function Term(p: string): Rx
    requires p != []
  {
    if "**/" <= p then Opt(Then(Star(Any), SLASH))
    else if "**" <= p then Star(Any)
    else if p[0] == '*' then Star(NotSlash)
    else if p[0] == '?' then NotSlash
    else Lit(p[0])
  }

  function Expression(p: string): Rx {
    if p == [] then Nothing else Then(Term(p), Expression(p[Width(p)..]))
  }

  /** A compiled pattern never starts with a quantifier, nor closes a group. */
  lemma BodyHead(p: string)
    ensures var e := Body(p) + "$"; e[0] != '*' && e[0] != '?' && e[0] != ')' && (p != [] ==> e[0] != '$')
  {
  }

  lemma ReadOne(tail: string)
    ensures ReadAtom(NOT_SLASH + tail) == Some(Reading(NotSlash, tail))
  {
    var e := NOT_SLASH + tail;
    assert e[1] == '^' && e[|NOT_SLASH|..] == tail;
  }

  lemma ReadAny(tail: string)
    ensures ReadAtom(ANY + tail) == Some(Reading(Any, tail))
  {
    var e := ANY + tail;
    assert e[|ANY|..] == tail;
  }

  lemma ReadLiteral(c: char, tail: string)
    requires c != '*' && c != '?'
    ensures ReadAtom(Escape(c) + tail) == Some(Reading(Lit(c), tail))
  {
    var e := Escape(c) + tail;
    assert e[0] != '[' && e[0] != '(';
    if NeedsEscape(c) {
      assert e[0] == '\\' && e[1] == c && e[2..] == tail;
    } else {
      assert e[0] == c && e[1..] == tail;
    }
  }

  /** An atom that is not followed by a quantifier is a term of its own. */
  lemma ReadPlain(e: string, rx: Rx, tail: string)
    requires e != [] && e[0] != ')' && e[0] != '$' && ReadAtom(e) == Some(Reading(rx, tail))
    requires tail != [] && tail[0] != '*' && tail[0] != '?'
    ensures var more := ReadTerms(tail);
            ReadTerms(e) == if more.None? then None else Some(Reading(Then(rx, more.value.rx), more.value.rest))
  {
  }

  lemma ReadStarred(e: string, rx: Rx, tail: string)
    requires e != [] && e[0] != ')' && e[0] != '$' && ReadAtom(e) == Some(Reading(rx, "*" + tail))
    ensures var more := ReadTerms(tail);
            ReadTerms(e) == if more.None? then None else Some(Reading(Then(Star(rx), more.value.rx), more.value.rest))
  {
    assert ("*" + tail)[0] == '*' && ("*" + tail)[1..] == tail;
  }

  lemma ReadOptional(e: string, rx: Rx, tail: string)
    requires e != [] && e[0] != ')' && e[0] != '$' && ReadAtom(e) == Some(Reading(rx, "?" + tail))
    ensures var more := ReadTerms(tail);
            ReadTerms(e) == if more.None? then None else Some(Reading(Then(Opt(rx), more.value.rx), more.value.rest))
  {
    assert ("?" + tail)[0] == '?' && ("?" + tail)[1..] == tail;
  }

  /** The inside of the group that stands for whole directories. */
  lemma ReadInside(tail: string)
    ensures ReadTerms("[\\s\\S]*/)" + tail) == Some(Reading(Then(Star(Any), SLASH), ")" + tail))
  {
    var close := ")" + tail;
    assert close[0] == ')';
    var slash := "/" + close;
    ReadLiteral('/', close);
    assert Escape('/') == "/";
    ReadPlain(slash, Lit('/'), close);
    var starred := "*" + slash;
    ReadAny(starred);
    ReadStarred(ANY + starred, Any, slash);
    assert ANY + starred == "[\\s\\S]*/)" + tail;
  }

  lemma ReadDirectories(tail: string)
    ensures ReadAtom(ANY_DIRECTORIES + tail)
            == Some(Reading(Then(Star(Any), SLASH), "?" + tail))
  {
    var e := ANY_DIRECTORIES + tail;
    var inside := "[\\s\\S]*/)" + ("?" + tail);
    ReadInside("?" + tail);
    assert e == OPEN + inside;
    assert e[0] == '(' && e[|OPEN|..] == inside;
    var close := ")" + ("?" + tail);
    assert close[0] == ')' && close[1..] == "?" + tail;
  }

  lemma {:induction false} ReadBody(p: string)
    ensures ReadTerms(Body(p) + "$") == Some(Reading(Expression(p), "$"))
    decreases |p|
  {
    if p == [] {
      assert Body(p) + "$" == "$";
      return;
    }
    var q := p[Width(p)..];
    var tail := Body(q) + "$";
    ReadBody(q);
    BodyHead(q);
    BodyHead(p);
    AppendAssoc(Token(p), Body(q), "$");
    ReadToken(p, tail, Expression(q));
  }

  /** The text of one token before a text that is already readable. */
  lemma ReadToken(p: string, tail: string, rest: Rx)
    requires p != [] && ReadTerms(tail) == Some(Reading(rest, "$"))
    requires tail != [] && tail[0] != '*' && tail[0] != '?' && tail[0] != ')'
    requires var e := Token(p) + tail; e[0] != '*' && e[0] != '?' && e[0] != ')' && e[0] != '$'
    ensures ReadTerms(Token(p) + tail) == Some(Reading(Then(Term(p), rest), "$"))
  {
    var e := Token(p) + tail;
    if "**/" <= p {
      ReadDirectories(tail);
      ReadOptional(e, Term(p).body, tail);
    } else if "**" <= p {
      ReadAny("*" + tail);
      assert ANY + ("*" + tail) == e;
      ReadStarred(e, Any, tail);
    } else if p[0] == '*' {
      ReadOne("*" + tail);
      assert NOT_SLASH + ("*" + tail) == e;
      ReadStarred(e, NotSlash, tail);
    } else {
      if p[0] == '?' { ReadOne(tail); } else { ReadLiteral(p[0], tail); }
      ReadPlain(e, Term(p), tail);
    }
  }

  // ----- what the expression matches -----

  lemma {:induction false} StarAny(s: string)
    ensures Matches(Star(Any), s)
    decreases |s|
  {
    if s != [] {
      StarAny(s[1..]);
      assert Matches(Any, s[..1]);
    }
  }

  lemma {:induction false} StarNotSlash(s: string)
    ensures Matches(Star(NotSlash), s) <==> '/' !in s
    decreases |s|
  {
    if s != [] {
      StarNotSlash(s[1..]);
      assert s == [s[0]] + s[1..];
      assert Matches(NotSlash, s[..1]) <==> s[0] != '/';
      assert Matches(Star(NotSlash), s) <==> s[0] != '/' && Matches(Star(NotSlash), s[1..]) by {
        if k :| 0 < k <= |s| && Matches(NotSlash, s[..k]) && Matches(Star(NotSlash), s[k..]) {
          assert k == 1;
        }
      }
    }
  }

  const SLASH := Then(Lit('/'), Nothing)

  lemma SlashMatches(t: string)
    ensures Matches(SLASH, t) <==> t == "/"
  {
    if t == "/" { assert Matches(Lit('/'), t[..1]) && Matches(Nothing, t[1..]); }
    if k :| 0 <= k <= |t| && Matches(Lit('/'), t[..k]) && Matches(Nothing, t[k..]) { SplitAt(t, k); }
  }

  lemma EndsInSlash(s: string)
    requires s != [] && s[|s| - 1] == '/'
    ensures Matches(Then(Star(Any), SLASH), s)
  {
    var k := |s| - 1;
    StarAny(s[..k]);
    assert s[k..] == "/";
    SlashMatches(s[k..]);
  }

  lemma DirectoriesMatch(s: string)
    ensures Matches(Then(Star(Any), SLASH), s) <==> s != [] && s[|s| - 1] == '/'
  {
    if s != [] && s[|s| - 1] == '/' {
      EndsInSlash(s);
    }
    if k :| 0 <= k <= |s| && Matches(Star(Any), s[..k]) && Matches(SLASH, s[k..]) {
      SlashMatches(s[k..]);
      SplitAt(s, k);
      assert s[|s| - 1] == s[k..][0];
    }
  }

  /** What the expression of one token matches. */
  lemma TermMatches(p: string, s: string)
    requires p != []
    ensures Matches(Term(p), s) <==>
            if "**/" <= p then s == [] || s[|s| - 1] == '/'
            else if "**" <= p then true
            else if p[0] == '*' then '/' !in s
            else if p[0] == '?' then |s| == 1 && s[0] != '/'
            else s == [p[0]]
  {
    DirectoriesMatch(s);
    StarAny(s);
    StarNotSlash(s);
  }

  lemma {:induction false} ExpressionMeans(p: string, s: string)
    ensures Matches(Expression(p), s) <==> Means(p, s)
    decreases |p|
  {
    if p != [] {
      var q := p[Width(p)..];
      forall k | 0 <= k <= |s|
        ensures Matches(Expression(q), s[k..]) <==> Means(q, s[k..])
      {
        ExpressionMeans(q, s[k..]);
      }
      forall k | 0 <= k <= |s|
        ensures Matches(Term(p), s[..k]) <==>
            if "**/" <= p then k == 0 || s[k - 1] == '/'
            else if "**" <= p then true
            else if p[0] == '*' then '/' !in s[..k]
            else if p[0] == '?' then k == 1 && s[0] != '/'
            else k == 1 && s[0] == p[0]
      {
        TermMatches(p, s[..k]);
      }
      if !("**" <= p) && p[0] != '*' && s != [] {
        assert Matches(Term(p), s[..1]) && Matches(Expression(q), s[1..]) <==> Means(p, s);
      }
    }
  }

  /** The compiled expression is readable and accepts exactly the paths the glob means. */
  lemma CompiledMeans(pattern: string, path: string)
    ensures Accepts("^" + Body(pattern) + "$", path) <==> Means(pattern, path)
  {
    var e := "^" + Body(pattern) + "$";
    assert e[1..] == Body(pattern) + "$";
    ReadBody(pattern);
    ExpressionMeans(pattern, path);
  }

  lemma CompiledMeansAlways(pattern: string)
    ensures forall path :: Accepts("^" + Body(pattern) + "$", path) <==> Means(pattern, path)
  {
    forall path ensures Accepts("^" + Body(pattern) + "$", path) <==> Means(pattern, path) {
      CompiledMeans(pattern, path);
    }
  }

  // ----- consequences a caller relies on -----

  function Slashes(s: string): nat {
    if s == [] then 0 else (if s[0] == '/' then 1 else 0) + Slashes(s[1..])
  }

  predicate NoDoubleStar(p: string) {
    forall i | 0 <= i < |p| - 1 && p[i] == '*' :: p[i + 1] != '*'
  }

  lemma {:induction false} SlashesDrop(s: string, k: nat)
    requires k <= |s| && '/' !in s[..k]
    ensures Slashes(s[k..]) == Slashes(s)
  {
    if k > 0 {
      assert s[0] == s[..k][0];
      assert s[1..][..k - 1] == s[..k][1..] && s[1..][k - 1..] == s[k..];
      SlashesDrop(s[1..], k - 1);
    } else {
      assert s[k..] == s;
    }
  }

  /** Without a double star a glob matches at one depth only: the number of slashes agrees. */
  lemma {:induction false} SingleStarsStayInSegment(p: string, s: string)
    requires NoDoubleStar(p) && Means(p, s)
    ensures Slashes(p) == Slashes(s)
    decreases |p|
  {
    if p != [] {
      assert |p| > 1 ==> !(p[0] == '*' && p[1] == '*');
      var q := p[1..];
      assert forall i | 0 <= i < |q| :: q[i] == p[i + 1];
      if p[0] == '*' {
        var k :| 0 <= k <= |s| && '/' !in s[..k] && Means(q, s[k..]);
        SingleStarsStayInSegment(q, s[k..]);
        SlashesDrop(s, k);
      } else {
        SingleStarsStayInSegment(q, s[1..]);
      }
    }
  }
}
