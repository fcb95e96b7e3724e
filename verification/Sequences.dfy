/** Sequences as buffers: their last elements, and lists of pieces joined. */
module Sequences {
  function Min(a: int, b: int): int {
    if a < b then a else b
  }

  function Max(a: int, b: int): int {
    if a > b then a else b
  }

  function Last<T>(s: seq<T>, n: nat): (r: seq<T>)
    ensures |r| == Min(|s|, n)
  {
    s[|s| - Min(|s|, n)..]
  }

  lemma LastOfLong<T>(front: seq<T>, back: seq<T>, n: nat)
    requires |back| >= n
    ensures Last(front + back, n) == Last(back, n)
  {
  }

  lemma LastSplits<T>(s: seq<T>, n: nat)
    ensures s == s[..|s| - Min(|s|, n)] + Last(s, n)
  {
  }

  lemma LastAppend<T>(s: seq<T>, more: seq<T>, n: nat)
    ensures Last(Last(s, n) + more, n) == Last(s + more, n)
  {
    if |s| > n {
      var front := s[..|s| - Min(|s|, n)];
      LastSplits(s, n);
      AppendAssoc(front, Last(s, n), more);
      LastOfLong(front, Last(s, n) + more, n);
    } else {
      assert Last(s, n) == s;
    }
  }

  lemma LastAppendLast<T>(s: seq<T>, more: seq<T>, n: nat)
    ensures Last(Last(s, n) + Last(more, n), n) == Last(s + more, n)
  {
    if |more| >= n {
      LastOfLong(s, more, n);
      LastOfLong(Last(s, n), Last(more, n), n);
      LastOfLast(more, n, n);
    } else {
      assert Last(more, n) == more;
      LastAppend(s, more, n);
    }
  }

  lemma LastOfLast<T>(s: seq<T>, n: nat, m: nat)
    ensures Last(Last(s, n), m) == Last(s, Min(n, m))
  {
  }

  lemma AppendAssoc<T>(a: seq<T>, b: seq<T>, c: seq<T>)
    ensures (a + b) + c == a + (b + c)
  {
  }

  lemma AppendNothing<T>(s: seq<T>)
    ensures s + [] == s
  {
  }

  lemma ConcatHead<T>(a: seq<T>, b: seq<T>)
    requires a != []
    ensures (a + b)[0] == a[0] && (a + b)[1..] == a[1..] + b
  {
  }

  lemma SplitAt<T>(s: seq<T>, i: nat)
    requires i <= |s|
    ensures s == s[..i] + s[i..]
  {
  }

  lemma SplitSlice<T>(s: seq<T>, from: nat, middle: nat, to: nat)
    requires from <= middle <= to <= |s|
    ensures s[from..to] == s[from..middle] + s[middle..to]
    ensures s[from..|s|] == s[from..]
  {
  }

  lemma TakeNext<T>(s: seq<T>, i: nat)
    requires i < |s|
    ensures s[..i + 1] == s[..i] + [s[i]]
  {
  }

  lemma TakeAll<T>(s: seq<T>)
    ensures s[..|s|] == s
  {
  }

  predicate Distinct<T(==)>(s: seq<T>) {
    forall i, j | 0 <= i < j < |s| :: s[i] != s[j]
  }

  function Reverse<T>(s: seq<T>): (r: seq<T>)
    ensures |r| == |s| && forall i | 0 <= i < |s| :: r[i] == s[|s| - 1 - i]
  {
    if s == [] then [] else Reverse(s[1..]) + [s[0]]
  }

  function Flatten<T>(parts: seq<seq<T>>): seq<T> {
    if parts == [] then [] else parts[0] + Flatten(parts[1..])
  }

  lemma {:induction false} FlattenConcat<T>(a: seq<seq<T>>, b: seq<seq<T>>)
    ensures Flatten(a + b) == Flatten(a) + Flatten(b)
  {
    if a == [] {
      assert a + b == b;
    } else {
      assert (a + b)[1..] == a[1..] + b;
      FlattenConcat(a[1..], b);
    }
  }

  lemma FlattenPush<T>(parts: seq<seq<T>>, last: seq<T>)
    ensures Flatten(parts + [last]) == Flatten(parts) + last
  {
    FlattenConcat(parts, [last]);
    assert Flatten([last]) == last;
  }
}
