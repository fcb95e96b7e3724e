/**
  The order JavaScript's `<`, `>=` and sort() put on strings: lexicographic by
  code unit, and total.
 */
module StringOrder {
  import opened Order

  predicate LexLeq<T(==)>(less: (T, T) -> bool, a: seq<T>, b: seq<T>) {
    a == [] || (b != [] && (less(a[0], b[0]) || (a[0] == b[0] && LexLeq(less, a[1..], b[1..]))))
  }

  ghost predicate StrictOrder<T(!new)>(less: (T, T) -> bool) {
    && (forall a, b :: a == b || less(a, b) || less(b, a))
    && (forall a, b :: less(a, b) ==> a != b && !less(b, a))
    && (forall a, b, c :: less(a, b) && less(b, c) ==> less(a, c))
  }

  lemma {:induction false} LexTotal<T(!new)>(less: (T, T) -> bool, a: seq<T>, b: seq<T>)
    requires StrictOrder(less)
    ensures LexLeq(less, a, b) || LexLeq(less, b, a)
  {
    if a != [] && b != [] && a[0] == b[0] { LexTotal(less, a[1..], b[1..]); }
  }

  lemma {:induction false} LexAntisymmetric<T(!new)>(less: (T, T) -> bool, a: seq<T>, b: seq<T>)
    requires StrictOrder(less) && LexLeq(less, a, b) && LexLeq(less, b, a)
    ensures a == b
  {
    if a != [] && b != [] {
      LexAntisymmetric(less, a[1..], b[1..]);
      assert a == [a[0]] + a[1..] && b == [b[0]] + b[1..];
    }
  }

  lemma {:induction false} LexTransitive<T(!new)>(less: (T, T) -> bool, a: seq<T>, b: seq<T>, c: seq<T>)
    requires StrictOrder(less) && LexLeq(less, a, b) && LexLeq(less, b, c)
    ensures LexLeq(less, a, c)
  {
    if a != [] && a[0] == b[0] && b[0] == c[0] { LexTransitive(less, a[1..], b[1..], c[1..]); }
  }

  predicate CharLess(a: char, b: char) {
    a < b
  }

  predicate Leq(a: string, b: string) {
    LexLeq(CharLess, a, b)
  }

  lemma LeqIsTotalOrder()
    ensures TotalOrder(Leq)
  {
    forall a, b ensures Leq(a, b) || Leq(b, a) { LexTotal(CharLess, a, b); }
    forall a, b | Leq(a, b) && Leq(b, a) ensures a == b { LexAntisymmetric(CharLess, a, b); }
    forall a, b, c | Leq(a, b) && Leq(b, c) ensures Leq(a, c) { LexTransitive(CharLess, a, b, c); }
  }

  /** One text is a beginning of the other, or has the smaller element where they first differ. */
  ghost predicate Precedes<T(!new)>(less: (T, T) -> bool, a: seq<T>, b: seq<T>, k: nat) {
    && k <= |a| && k <= |b| && a[..k] == b[..k]
    && (k == |a| || (k < |b| && less(a[k], b[k])))
  }

  lemma {:induction false} LexAsTold<T(!new)>(less: (T, T) -> bool, a: seq<T>, b: seq<T>)
    ensures LexLeq(less, a, b) <==> exists k: nat :: Precedes(less, a, b, k)
  {
    if a == [] {
      assert Precedes(less, a, b, 0);
    } else if b != [] {
      LexAsTold(less, a[1..], b[1..]);
      if less(a[0], b[0]) {
        assert Precedes(less, a, b, 0);
      } else if a[0] == b[0] && LexLeq(less, a[1..], b[1..]) {
        var k: nat :| Precedes(less, a[1..], b[1..], k);
        assert a[..k + 1] == [a[0]] + a[1..][..k] && b[..k + 1] == [b[0]] + b[1..][..k];
        assert Precedes(less, a, b, k + 1);
      }
      if k: nat :| Precedes(less, a, b, k) && k > 0 {
        assert a[0] == a[..k][0] == b[..k][0] == b[0];
        assert a[1..][..k - 1] == a[..k][1..] && b[1..][..k - 1] == b[..k][1..];
        assert Precedes(less, a[1..], b[1..], k - 1);
      }
    }
  }

  /** The order of strings, on their characters. */
  lemma LeqAsTold(a: string, b: string)
    ensures Leq(a, b) <==> exists k: nat | k <= |a| :: k <= |b| && a[..k] == b[..k] && (k == |a| || (k < |b| && a[k] < b[k]))
  {
    LexAsTold(CharLess, a, b);
    if k: nat :| Precedes(CharLess, a, b, k) { assert a[..k] == b[..k]; }
    if k: nat :| k <= |a| && k <= |b| && a[..k] == b[..k] && (k == |a| || (k < |b| && a[k] < b[k])) {
      assert Precedes(CharLess, a, b, k);
    }
  }
}
