/** Sorting and selection for any total order, given as its `<=`. */
module Order {
  /** A ranking: different values may rank alike. */
  ghost predicate TotalPreorder<T(!new)>(le: (T, T) -> bool) {
    && (forall a, b :: le(a, b) || le(b, a))
    && (forall a, b, c :: le(a, b) && le(b, c) ==> le(a, c))
  }

  ghost predicate TotalOrder<T(!new)>(le: (T, T) -> bool) {
    TotalPreorder(le) && forall a, b :: le(a, b) && le(b, a) ==> a == b
  }

  ghost predicate IsSorted<T>(le: (T, T) -> bool, s: seq<T>) {
    forall i, j | 0 <= i < j < |s| :: le(s[i], s[j])
  }

  function Insert<T>(le: (T, T) -> bool, x: T, s: seq<T>): seq<T> {
    if s == [] || le(x, s[0]) then [x] + s else [s[0]] + Insert(le, x, s[1..])
  }

  /** What a stable sort leaves: the same elements in order, equals in their old order. */
  function Sort<T>(le: (T, T) -> bool, s: seq<T>): seq<T> {
    if s == [] then [] else Insert(le, s[0], Sort(le, s[1..]))
  }

  lemma {:induction false} InsertElements<T>(le: (T, T) -> bool, x: T, s: seq<T>)
    ensures multiset(Insert(le, x, s)) == multiset(s) + multiset{x}
  {
    if s != [] {
      assert s == [s[0]] + s[1..];
      if !le(x, s[0]) { InsertElements(le, x, s[1..]); }
    }
  }

  lemma {:induction false} InsertSorted<T(!new)>(le: (T, T) -> bool, x: T, s: seq<T>)
    requires TotalPreorder(le) && IsSorted(le, s)
    ensures IsSorted(le, Insert(le, x, s))
  {
    if s != [] && !le(x, s[0]) {
      InsertSorted(le, x, s[1..]);
      InsertElements(le, x, s[1..]);
      var t := Insert(le, x, s[1..]);
      forall i | 0 <= i < |t| ensures le(s[0], t[i]) {
        assert t[i] in multiset(t);
        assert t[i] in multiset(s[1..]) || t[i] == x;
      }
    }
  }

  lemma {:induction false} SortSorts<T(!new)>(le: (T, T) -> bool, s: seq<T>)
    requires TotalPreorder(le)
    ensures IsSorted(le, Sort(le, s)) && multiset(Sort(le, s)) == multiset(s) && |Sort(le, s)| == |s|
  {
    if s != [] {
      SortSorts(le, s[1..]);
      InsertSorted(le, s[0], Sort(le, s[1..]));
      InsertElements(le, s[0], Sort(le, s[1..]));
      assert s == [s[0]] + s[1..];
    }
    assert |multiset(Sort(le, s))| == |multiset(s)|;
  }

  /** A sorted list is determined by its elements. */
  lemma {:induction false} SortedUnique<T(!new)>(le: (T, T) -> bool, s: seq<T>, t: seq<T>)
    requires TotalOrder(le) && IsSorted(le, s) && IsSorted(le, t) && multiset(s) == multiset(t)
    ensures s == t
  {
    assert |multiset(s)| == |multiset(t)|;
    if s != [] {
      SameHead(le, s, t);
      assert s == [s[0]] + s[1..] && t == [t[0]] + t[1..];
      assert multiset(s[1..]) == multiset(s) - multiset{s[0]};
      assert multiset(t[1..]) == multiset(t) - multiset{t[0]};
      SortedUnique(le, s[1..], t[1..]);
    }
  }

  lemma SameHead<T(!new)>(le: (T, T) -> bool, s: seq<T>, t: seq<T>)
    requires TotalOrder(le) && IsSorted(le, s) && IsSorted(le, t) && multiset(s) == multiset(t)
    requires s != [] && t != []
    ensures s[0] == t[0]
  {
    assert s[0] in multiset(t) && t[0] in multiset(s);
    var i :| 0 <= i < |t| && t[i] == s[0];
    var j :| 0 <= j < |s| && s[j] == t[0];
  }

  /** `kept` are the `k` smallest elements of `all`, or all of them when there are fewer. */
  ghost predicate KeepsSmallest<T(!new)>(le: (T, T) -> bool, kept: multiset<T>, all: multiset<T>, k: nat) {
    && kept <= all
    && |kept| == (if |all| <= k then |all| else k)
    && forall x, y :: x in kept && y in all - kept ==> le(x, y)
  }

  lemma ConcatSorted<T(!new)>(le: (T, T) -> bool, low: seq<T>, high: seq<T>)
    requires IsSorted(le, low) && IsSorted(le, high)
    requires forall x, y :: x in multiset(low) && y in multiset(high) ==> le(x, y)
    ensures IsSorted(le, low + high)
  {
    forall i, j | 0 <= i < j < |low + high| ensures le((low + high)[i], (low + high)[j]) {
      if i < |low| <= j {
        assert low[i] in multiset(low) && high[j - |low|] in multiset(high);
      }
    }
  }

  /** Sorting the k smallest gives the first k of sorting everything. */
  lemma SmallestFirst<T(!new)>(le: (T, T) -> bool, kept: seq<T>, all: seq<T>, k: nat)
    requires TotalOrder(le) && KeepsSmallest(le, multiset(kept), multiset(all), k)
    ensures |Sort(le, all)| == |all| && |kept| == (if |all| <= k then |all| else k)
    ensures Sort(le, kept) == Sort(le, all)[..|kept|]
  {
    var rest := SeqOf(multiset(all) - multiset(kept));
    SortSorts(le, kept);
    SortSorts(le, all);
    SortSorts(le, rest);
    assert |multiset(kept)| == |kept| && |multiset(all)| == |all|;
    var low, high := Sort(le, kept), Sort(le, rest);
    ConcatSorted(le, low, high);
    assert multiset(low + high) == multiset(low) + multiset(high) == multiset(all);
    SortedUnique(le, low + high, Sort(le, all));
  }

  ghost function SeqOf<T>(m: multiset<T>): (s: seq<T>)
    ensures multiset(s) == m
  {
    if m == multiset{} then []
    else var x :| x in m; [x] + SeqOf(m - multiset{x})
  }

  /** The elements that rank like `x`, in their order. */
  function Alike<T>(le: (T, T) -> bool, s: seq<T>, x: T): seq<T> {
    if s == [] then [] else (if le(s[0], x) && le(x, s[0]) then [s[0]] else []) + Alike(le, s[1..], x)
  }

  lemma {:induction false} InsertKeepsOrder<T(!new)>(le: (T, T) -> bool, y: T, s: seq<T>, x: T)
    requires TotalPreorder(le)
    ensures Alike(le, Insert(le, y, s), x) == Alike(le, [y] + s, x)
  {
    assert ([y] + s)[1..] == s;
    if s != [] && !le(y, s[0]) {
      InsertKeepsOrder(le, y, s[1..], x);
      assert ([y] + s[1..])[1..] == s[1..];
    }
  }

  /** Sorting leaves elements of the same rank in their old order. */
  lemma {:induction false} SortIsStable<T(!new)>(le: (T, T) -> bool, s: seq<T>, x: T)
    requires TotalPreorder(le)
    ensures Alike(le, Sort(le, s), x) == Alike(le, s, x)
  {
    if s != [] {
      SortIsStable(le, s[1..], x);
      InsertKeepsOrder(le, s[0], Sort(le, s[1..]), x);
      assert ([s[0]] + Sort(le, s[1..]))[1..] == Sort(le, s[1..]);
    }
  }
}
