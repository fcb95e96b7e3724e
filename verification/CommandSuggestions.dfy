/**
  Command suggestions: the edit distance that fills a table row by row, the
  words at distance one, and the suggestion that is made only when unique.
 */
module CommandSuggestions {
  import opened Sequences
  import opened Wrappers

  /** One cell of the table, from the cells above, to the left, diagonal, and two up and left. */
  function Cell(a: string, b: string, i: nat, j: nat, above: nat, left: nat, diagonal: nat, crossed: nat): nat
    requires 0 < i <= |a| && 0 < j <= |b|
  {
    var plain := Min(Min(above + 1, left + 1), diagonal + (if a[i - 1] == b[j - 1] then 0 else 1));
    if i > 1 && j > 1 && a[i - 1] == b[j - 2] && a[i - 2] == b[j - 1] then Min(plain, crossed + 1) else plain
  }

  /** The restricted Damerau distance of the first `i` letters of `a` and the first `j` of `b`. */
  function Distance(a: string, b: string, i: nat, j: nat): nat
    requires i <= |a| && j <= |b|
    decreases i + j
  {
    if i == 0 then j
    else if j == 0 then i
    else Cell(a, b, i, j, Distance(a, b, i - 1, j), Distance(a, b, i, j - 1), Distance(a, b, i - 1, j - 1),
              if i > 1 && j > 1 then Distance(a, b, i - 2, j - 2) else 0)
  }

  /** The body of the inner loop. */
  method FillCell(rows: array2<nat>, input: string, candidate: string, i: nat, j: nat)
    requires rows.Length0 == |input| + 1 && rows.Length1 == |candidate| + 1
    requires 0 < i <= |input| && 0 < j <= |candidate|
    modifies rows
    ensures forall p, q {:trigger rows[p, q]} | 0 <= p <= |input| && 0 <= q <= |candidate| ::
        rows[p, q] == (if p == i && q == j
                       then Cell(input, candidate, i, j, old(rows[i - 1, j]), old(rows[i, j - 1]), old(rows[i - 1, j - 1]),
                                 if i > 1 && j > 1 then old(rows[i - 2, j - 2]) else 0)
                       else old(rows[p, q]))
  {
    var cost := if input[i - 1] == candidate[j - 1] then 0 else 1;
    rows[i, j] := Min(Min(rows[i - 1, j] + 1, rows[i, j - 1] + 1), rows[i - 1, j - 1] + cost);
    if i > 1 && j > 1 && input[i - 1] == candidate[j - 2] && input[i - 2] == candidate[j - 1] {
      rows[i, j] := Min(rows[i, j], rows[i - 2, j - 2] + 1);
    }
  }

  ghost predicate RowsDone(rows: array2<nat>, a: string, b: string, n: nat)
    requires rows.Length0 == |a| + 1 && rows.Length1 == |b| + 1 && n <= |a| + 1
    reads rows
  {
    && (forall p, q {:trigger rows[p, q]} | 0 <= p < n && 0 <= q <= |b| :: rows[p, q] == Distance(a, b, p, q))
    && (forall p | 0 <= p <= |a| :: rows[p, 0] == p)
  }

  lemma DistanceIsCell(a: string, b: string, i: nat, j: nat)
    requires 0 < i <= |a| && 0 < j <= |b|
    ensures Distance(a, b, i, j)
            == Cell(a, b, i, j, Distance(a, b, i - 1, j), Distance(a, b, i, j - 1), Distance(a, b, i - 1, j - 1),
                    if i > 1 && j > 1 then Distance(a, b, i - 2, j - 2) else 0)
  {
  }

  /** The inner loop: one row of the table. */
  method FillRow(rows: array2<nat>, input: string, candidate: string, i: nat)
    requires rows.Length0 == |input| + 1 && rows.Length1 == |candidate| + 1 && 0 < i <= |input|
    requires RowsDone(rows, input, candidate, i)
    modifies rows
    ensures RowsDone(rows, input, candidate, i + 1)
  {
    for j := 1 to |candidate| + 1
      invariant RowsDone(rows, input, candidate, i)
      invariant forall q {:trigger rows[i, q]} | 0 <= q < j :: rows[i, q] == Distance(input, candidate, i, q)
    {
      DistanceIsCell(input, candidate, i, j);
      FillCell(rows, input, candidate, i, j);
    }
  }

  /** The table filled in place, by rows. */
  method EditDistance(input: string, candidate: string) returns (distance: nat)
    ensures distance == Distance(input, candidate, |input|, |candidate|)
  {
    var rows := new nat[|input| + 1, |candidate| + 1]((i, j) => if i == 0 then j else i);
    for i := 1 to |input| + 1
      invariant RowsDone(rows, input, candidate, i)
    {
      FillRow(rows, input, candidate, i);
    }
    distance := rows[|input|, |candidate|];
  }

  // ----- what distance one means -----

  predicate DeletedAt(a: string, b: string, k: nat) {
    k < |a| && b == a[..k] + a[k + 1..]
  }

  predicate SubstitutedAt(a: string, b: string, k: nat) {
    k < |a| && k < |b| && a[k] != b[k] && b == a[..k] + [b[k]] + a[k + 1..]
  }

  predicate SwappedAt(a: string, b: string, k: nat) {
    k + 1 < |a| && a[k] != a[k + 1] && b == a[..k] + [a[k + 1], a[k]] + a[k + 2..]
  }

  /** One deletion, insertion, substitution or exchange of neighbours turns `a` into `b`. */
  predicate OneEdit(a: string, b: string) {
    || (exists k | 0 <= k < |a| :: DeletedAt(a, b, k))
    || (exists k | 0 <= k < |b| :: DeletedAt(b, a, k))
    || (exists k | 0 <= k < |a| :: SubstitutedAt(a, b, k))
    || (exists k | 0 <= k < |a| :: SwappedAt(a, b, k))
  }

  lemma DeletedExtends(a: string, b: string, k: nat, c: char)
    requires DeletedAt(a, b, k)
    ensures DeletedAt(a + [c], b + [c], k)
  {
    var x := a + [c];
    assert x[..k] == a[..k] && x[k + 1..] == a[k + 1..] + [c];
  }

  lemma SubstitutedExtends(a: string, b: string, k: nat, c: char)
    requires SubstitutedAt(a, b, k)
    ensures SubstitutedAt(a + [c], b + [c], k)
  {
    var x := a + [c];
    assert x[..k] == a[..k] && x[k + 1..] == a[k + 1..] + [c];
  }

  lemma SwappedExtends(a: string, b: string, k: nat, c: char)
    requires SwappedAt(a, b, k)
    ensures SwappedAt(a + [c], b + [c], k)
  {
    var x := a + [c];
    assert x[..k] == a[..k] && x[k + 2..] == a[k + 2..] + [c];
  }

  /** Appending the same letter to both words keeps an edit an edit. */
  lemma OneEditExtends(a: string, b: string, c: char)
    requires OneEdit(a, b)
    ensures OneEdit(a + [c], b + [c])
  {
    if k: nat :| 0 <= k < |a| && DeletedAt(a, b, k) {
      DeletedExtends(a, b, k, c);
    } else if k: nat :| 0 <= k < |b| && DeletedAt(b, a, k) {
      DeletedExtends(b, a, k, c);
    } else if k: nat :| 0 <= k < |a| && SubstitutedAt(a, b, k) {
      SubstitutedExtends(a, b, k, c);
    } else {
      var k: nat :| 0 <= k < |a| && SwappedAt(a, b, k);
      SwappedExtends(a, b, k, c);
    }
  }

  lemma PrefixesAgree(a: string, b: string, i: nat, j: nat)
    requires 0 < i <= |a| && 0 < j <= |b|
    ensures a[..i] == b[..j] <==> a[..i - 1] == b[..j - 1] && a[i - 1] == b[j - 1]
  {
    TakeNext(a, i - 1);
    TakeNext(b, j - 1);
  }

  lemma {:induction false} DistanceZero(a: string, b: string, i: nat, j: nat)
    requires i <= |a| && j <= |b|
    ensures Distance(a, b, i, j) == 0 <==> a[..i] == b[..j]
    decreases i + j
  {
    if i > 0 && j > 0 {
      DistanceZero(a, b, i - 1, j - 1);
      PrefixesAgree(a, b, i, j);
    }
  }

  /** The prefixes agree once their endings are dropped, in one of four ways. */
  ghost predicate Ending(a: string, b: string, i: nat, j: nat)
    requires 0 < i <= |a| && 0 < j <= |b|
  {
    || a[..i - 1] == b[..j]
    || a[..i] == b[..j - 1]
    || a[..i - 1] == b[..j - 1]
    || (i > 1 && j > 1 && a[i - 1] == b[j - 2] && a[i - 2] == b[j - 1] && a[..i - 2] == b[..j - 2])
  }

  /** How a distance of one comes about, at the end of the two prefixes. */
  lemma DistanceOneCases(a: string, b: string, i: nat, j: nat)
    requires 0 < i <= |a| && 0 < j <= |b| && Distance(a, b, i, j) == 1
    ensures Ending(a, b, i, j) || (a[i - 1] == b[j - 1] && Distance(a, b, i - 1, j - 1) == 1)
  {
    if Distance(a, b, i - 1, j) == 0 {
      DistanceZero(a, b, i - 1, j);
    } else if Distance(a, b, i, j - 1) == 0 {
      DistanceZero(a, b, i, j - 1);
    } else if Distance(a, b, i - 1, j - 1) == 0 {
      DistanceZero(a, b, i - 1, j - 1);
    } else if !(a[i - 1] == b[j - 1] && Distance(a, b, i - 1, j - 1) == 1) {
      DistanceZero(a, b, i - 2, j - 2);
    }
  }

  /** A distance of one is witnessed by one edit. */
  lemma {:induction false} DistanceOneIsOneEdit(a: string, b: string, i: nat, j: nat)
    requires i <= |a| && j <= |b| && Distance(a, b, i, j) == 1
    ensures OneEdit(a[..i], b[..j])
    decreases i + j
  {
    DistanceZero(a, b, i, j);
    if i == 0 || j == 0 {
      assert if i == 0 then j == 1 else i == 1;
      LetterAlone(a[..i], b[..j]);
      return;
    }
    DistanceOneCases(a, b, i, j);
    if Ending(a, b, i, j) {
      EndingCases(a, b, i, j);
    } else {
      DistanceOneIsOneEdit(a, b, i - 1, j - 1);
      PrefixesExtend(a, b, i, j);
    }
  }

  lemma LetterAlone(x: string, y: string)
    requires (x == [] && |y| == 1) || (|x| == 1 && y == [])
    ensures OneEdit(x, y)
  {
    assert if x == [] then DeletedAt(y, x, 0) else DeletedAt(x, y, 0);
  }

  lemma PrefixesExtend(a: string, b: string, i: nat, j: nat)
    requires 0 < i <= |a| && 0 < j <= |b| && a[i - 1] == b[j - 1] && OneEdit(a[..i - 1], b[..j - 1])
    ensures OneEdit(a[..i], b[..j])
  {
    OneEditExtends(a[..i - 1], b[..j - 1], a[i - 1]);
    TakeNext(a, i - 1);
    TakeNext(b, j - 1);
  }

  lemma EndingCases(a: string, b: string, i: nat, j: nat)
    requires 0 < i <= |a| && 0 < j <= |b| && a[..i] != b[..j] && Ending(a, b, i, j)
    ensures OneEdit(a[..i], b[..j])
  {
    var x, y := a[..i], b[..j];
    assert x[..i - 1] == a[..i - 1] && y[..j - 1] == b[..j - 1];
    assert i > 1 ==> x[..i - 2] == a[..i - 2];
    assert j > 1 ==> y[..j - 2] == b[..j - 2];
    EndingOneEdit(x, y);
  }

  /** Two different words whose prefixes agree in one of four ways are one edit apart. */
  lemma EndingOneEdit(x: string, y: string)
    requires x != [] && y != [] && x != y
    requires var i, j := |x|, |y|;
             || x[..i - 1] == y || x == y[..j - 1] || x[..i - 1] == y[..j - 1]
             || (i > 1 && j > 1 && x[i - 1] == y[j - 2] && x[i - 2] == y[j - 1] && x[..i - 2] == y[..j - 2])
    ensures OneEdit(x, y)
  {
    var i, j := |x|, |y|;
    if x[..i - 1] == y {
      assert DeletedAt(x, y, i - 1);
    } else if x == y[..j - 1] {
      assert DeletedAt(y, x, j - 1);
    } else if x[..i - 1] == y[..j - 1] {
      assert x == x[..i - 1] + [x[i - 1]] && y == y[..j - 1] + [y[j - 1]];
      assert SubstitutedAt(x, y, i - 1);
    } else {
      assert x == x[..i - 2] + [x[i - 2], x[i - 1]] && y == y[..j - 2] + [y[j - 2], y[j - 1]];
      assert SwappedAt(x, y, i - 2);
    }
  }

  /** A common ending costs nothing. */
  lemma {:induction false} CommonEnding(a: string, b: string, i: nat, j: nat, n: nat)
    requires i + n <= |a| && j + n <= |b|
    requires forall t | i <= t < i + n :: a[t] == b[t - i + j]
    ensures Distance(a, b, i + n, j + n) <= Distance(a, b, i, j)
    decreases n
  {
    if n > 0 {
      CommonEnding(a, b, i, j, n - 1);
      SameLetter(a, b, i + n - 1, j + n - 1);
    }
  }

  lemma SameLetter(a: string, b: string, i: nat, j: nat)
    requires i < |a| && j < |b| && a[i] == b[j]
    ensures Distance(a, b, i + 1, j + 1) <= Distance(a, b, i, j)
  {
  }

  /** Every edit at the end of a prefix costs at most one more. */
  lemma EndingEdits(a: string, b: string, i: nat, j: nat)
    requires i <= |a| && j <= |b|
    ensures i < |a| ==> Distance(a, b, i + 1, j) <= Distance(a, b, i, j) + 1
    ensures j < |b| ==> Distance(a, b, i, j + 1) <= Distance(a, b, i, j) + 1
    ensures i < |a| && j < |b| ==> Distance(a, b, i + 1, j + 1) <= Distance(a, b, i, j) + 1
    ensures i + 1 < |a| && j + 1 < |b| && a[i] == b[j + 1] && a[i + 1] == b[j]
            ==> Distance(a, b, i + 2, j + 2) <= Distance(a, b, i, j) + 1
  {
    if j == 0 && i < |a| && |b| > 0 {
      assert Distance(a, b, i, 0) == i;
    }
  }

  /** Two words that agree but for one place are at distance at most one. */
  lemma EditInside(a: string, b: string, k: nat, p: nat, q: nat)
    requires k <= |a| && k <= |b| && a[..k] == b[..k]
    requires p <= |a| && q <= |b| && a[p..] == b[q..]
    requires Distance(a, b, k, k) == 0 ==> Distance(a, b, p, q) <= 1
    ensures Distance(a, b, |a|, |b|) <= 1
  {
    DistanceZero(a, b, k, k);
    var n := |a| - p;
    assert |a[p..]| == |b[q..]|;
    forall t | p <= t < p + n ensures a[t] == b[t - p + q] {
      assert a[p..][t - p] == b[q..][t - p];
    }
    CommonEnding(a, b, p, q, n);
  }

  lemma DistanceOfDeletion(a: string, b: string, k: nat)
    requires DeletedAt(a, b, k)
    ensures Distance(a, b, |a|, |b|) == 1 && Distance(b, a, |b|, |a|) == 1
  {
    EndingEdits(a, b, k, k);
    EndingEdits(b, a, k, k);
    EditInside(a, b, k, k + 1, k);
    EditInside(b, a, k, k, k + 1);
    NotZero(a, b);
    NotZero(b, a);
  }

  lemma NotZero(a: string, b: string)
    requires a != b
    ensures Distance(a, b, |a|, |b|) > 0
  {
    DistanceZero(a, b, |a|, |b|);
    assert a[..|a|] == a && b[..|b|] == b;
  }

  lemma DistanceOfSubstitution(a: string, b: string, k: nat)
    requires SubstitutedAt(a, b, k)
    ensures Distance(a, b, |a|, |b|) == 1
  {
    EndingEdits(a, b, k, k);
    EditInside(a, b, k, k + 1, k + 1);
    NotZero(a, b);
  }

  lemma DistanceOfSwap(a: string, b: string, k: nat)
    requires SwappedAt(a, b, k)
    ensures Distance(a, b, |a|, |b|) == 1
  {
    assert b[k] == a[k + 1] && b[k + 1] == a[k];
    EndingEdits(a, b, k, k);
    EditInside(a, b, k, k + 2, k + 2);
    NotZero(a, b);
  }

  /** The distance is one exactly when one edit turns one word into the other. */
  lemma DistanceOne(a: string, b: string)
    ensures Distance(a, b, |a|, |b|) == 1 <==> OneEdit(a, b)
  {
    assert a[..|a|] == a && b[..|b|] == b;
    if Distance(a, b, |a|, |b|) == 1 {
      DistanceOneIsOneEdit(a, b, |a|, |b|);
    }
    if k: nat :| 0 <= k < |a| && DeletedAt(a, b, k) { DistanceOfDeletion(a, b, k); }
    if k: nat :| 0 <= k < |b| && DeletedAt(b, a, k) { DistanceOfDeletion(b, a, k); }
    if k: nat :| 0 <= k < |a| && SubstitutedAt(a, b, k) { DistanceOfSubstitution(a, b, k); }
    if k: nat :| 0 <= k < |a| && SwappedAt(a, b, k) { DistanceOfSwap(a, b, k); }
  }

  // ----- the suggestion -----

  predicate IsWord(input: string) {
    |input| >= 3 && forall i | 0 <= i < |input| :: 'a' <= input[i] <= 'z'
  }

  function Gap(a: nat, b: nat): nat {
    if a <= b then b - a else a - b
  }

  predicate IsMatch(input: string, candidate: string) {
    |candidate| >= 4 && Gap(|candidate|, |input|) <= 1 && Distance(input, candidate, |input|, |candidate|) == 1
  }

  function MatchesOf(input: string, candidates: seq<string>): seq<string> {
    if candidates == [] then []
    else (if IsMatch(input, candidates[0]) then [candidates[0]] else []) + MatchesOf(input, candidates[1..])
  }

  function SuggestCommand(input: string, candidates: seq<string>): Option<string> {
    if !IsWord(input) || input in candidates then None
    else
      var matches := MatchesOf(input, candidates);
      if |matches| == 1 then Some(matches[0]) else None
  }

  predicate Suggestible(input: string, candidate: string) {
    |candidate| >= 4 && OneEdit(input, candidate)
  }

  /** One place of the list, and no other, holds a suggestible word. */
  ghost predicate OnlyAt(input: string, candidates: seq<string>, k: nat) {
    && k < |candidates| && Suggestible(input, candidates[k])
    && forall j | 0 <= j < |candidates| && j != k :: !Suggestible(input, candidates[j])
  }

  /** The test on the lengths rules nothing out. */
  lemma MatchIsSuggestible(input: string, candidate: string)
    ensures IsMatch(input, candidate) <==> Suggestible(input, candidate)
  {
    DistanceOne(input, candidate);
    if OneEdit(input, candidate) {
      assert Gap(|candidate|, |input|) <= 1;
    }
  }

  lemma {:induction false} NoMatches(input: string, candidates: seq<string>)
    ensures MatchesOf(input, candidates) == [] <==>
            forall j | 0 <= j < |candidates| :: !Suggestible(input, candidates[j])
  {
    if candidates != [] {
      MatchIsSuggestible(input, candidates[0]);
      NoMatches(input, candidates[1..]);
      assert forall j | 1 <= j < |candidates| :: candidates[j] == candidates[1..][j - 1];
    }
  }

  lemma {:induction false} OneMatch(input: string, candidates: seq<string>, word: string)
    ensures MatchesOf(input, candidates) == [word] <==>
            exists k: nat :: OnlyAt(input, candidates, k) && candidates[k] == word
  {
    if candidates == [] {
      return;
    }
    var rest := candidates[1..];
    assert forall j | 1 <= j < |candidates| :: candidates[j] == rest[j - 1];
    assert forall j | 0 <= j < |rest| :: rest[j] == candidates[j + 1];
    MatchIsSuggestible(input, candidates[0]);
    NoMatches(input, rest);
    OneMatch(input, rest, word);
    if Suggestible(input, candidates[0]) {
      assert MatchesOf(input, candidates) == [candidates[0]] + MatchesOf(input, rest);
      assert MatchesOf(input, candidates)[0] == candidates[0];
      assert MatchesOf(input, candidates)[1..] == MatchesOf(input, rest);
      if MatchesOf(input, candidates) == [word] {
        assert OnlyAt(input, candidates, 0);
      }
      if k: nat :| OnlyAt(input, candidates, k) && candidates[k] == word {
        assert k == 0;
        assert forall j | 0 <= j < |rest| :: !Suggestible(input, rest[j]);
      }
    } else {
      if k: nat :| OnlyAt(input, rest, k) && rest[k] == word { assert OnlyAt(input, candidates, k + 1); }
      if k: nat :| OnlyAt(input, candidates, k) && candidates[k] == word {
        assert k > 0 && OnlyAt(input, rest, k - 1);
      }
    }
  }

  /**
    A word is suggested exactly when the input is a plain word, not itself a
    candidate, and that word is the only candidate one edit away.
   */
  lemma SuggestionIsUnique(input: string, candidates: seq<string>, word: string)
    ensures SuggestCommand(input, candidates) == Some(word) <==>
            |input| >= 3 && (forall c <- input :: 'a' <= c <= 'z') && input !in candidates
            && exists k: nat :: OnlyAt(input, candidates, k) && candidates[k] == word
  {
    OneMatch(input, candidates, word);
    if forall c <- input :: 'a' <= c <= 'z' {
      forall i | 0 <= i < |input| ensures 'a' <= input[i] <= 'z' { assert input[i] in input; }
    }
  }

  /** findIndex: the first position where the words differ. */
  function FirstDifference(a: string, b: string, from: nat): (k: Option<nat>)
    requires |a| == |b| && from <= |a|
    ensures k.Some? ==> from <= k.value < |a| && a[k.value] != b[k.value]
    ensures forall j | from <= j < (if k.Some? then k.value else |a|) :: a[j] == b[j]
    decreases |a| - from
  {
    if from == |a| then None
    else if a[from] != b[from] then Some(from)
    else FirstDifference(a, b, from + 1)
  }

  predicate IsTransposition(input: string, candidate: string) {
    |input| == |candidate| &&
    var index := FirstDifference(input, candidate, 0);
    index.Some?
    && index.value + 1 < |input|
    && input[index.value] == candidate[index.value + 1] && input[index.value + 1] == candidate[index.value]
    && input[index.value + 2..] == candidate[index.value + 2..]
  }

  /** isTransposition recognises exactly the exchanges of two different neighbours. */
  lemma TranspositionIsSwap(input: string, candidate: string)
    ensures IsTransposition(input, candidate) <==> exists k: nat :: SwappedAt(input, candidate, k)
  {
    if IsTransposition(input, candidate) {
      var k := FirstDifference(input, candidate, 0).value;
      assert input[..k] == candidate[..k];
      assert candidate == candidate[..k] + [candidate[k], candidate[k + 1]] + candidate[k + 2..];
      assert SwappedAt(input, candidate, k);
    }
    if k: nat :| SwappedAt(input, candidate, k) {
      var d := FirstDifference(input, candidate, 0);
      assert forall j | 0 <= j < k :: candidate[j] == input[..k][j];
      assert d == Some(k);
      assert input[k + 2..] == candidate[k + 2..];
    }
  }
}
