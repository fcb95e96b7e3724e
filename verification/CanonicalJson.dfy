/**
  apps/daemon/src/session-history.ts: canonicalJson prints a value with the keys of
  every object in order, so that equal values, and only those, print the same.
 */
module CanonicalJson {
  import opened Json
  import opened Order
  import opened StringOrder
  import opened Utf16
  import opened Utf8

  predicate UnitLess(a: Unit, b: Unit) {
    a < b
  }

  /** The order in which sort() puts keys. */
  predicate KeyLeq(a: seq<Unit>, b: seq<Unit>) {
    LexLeq(UnitLess, a, b)
  }

  lemma KeyLeqIsTotalOrder()
    ensures TotalOrder(KeyLeq)
  {
    forall a, b ensures KeyLeq(a, b) || KeyLeq(b, a) { LexTotal(UnitLess, a, b); }
    forall a, b | KeyLeq(a, b) && KeyLeq(b, a) ensures a == b { LexAntisymmetric(UnitLess, a, b); }
    forall a, b, c | KeyLeq(a, b) && KeyLeq(b, c) ensures KeyLeq(a, c) { LexTransitive(UnitLess, a, b, c); }
  }

  // ----- the printed form -----

  function Keys(members: seq<Member>): (keys: seq<seq<Unit>>)
    ensures |keys| == |members| && forall i | 0 <= i < |keys| :: keys[i] == members[i].key
  {
    if members == [] then [] else [members[0].key] + Keys(members[1..])
  }

  /** The first value that an object gives a key. */
  function Lookup(members: seq<Member>, key: seq<Unit>): (j: Json)
    requires key in Keys(members)
    ensures Member(key, j) in members
  {
    if members[0].key == key then members[0].value else Lookup(members[1..], key)
  }

  /** The keys of an object in ascending order. */
  function SortedKeys(members: seq<Member>): (keys: seq<seq<Unit>>)
    ensures multiset(keys) == multiset(Keys(members)) && IsSorted(KeyLeq, keys)
    ensures forall k :: k in keys <==> k in Keys(members)
  {
    KeyLeqIsTotalOrder();
    SortSorts(KeyLeq, Keys(members));
    var keys := Sort(KeyLeq, Keys(members));
    assert forall k :: (k in keys <==> k in multiset(keys)) && (k in Keys(members) <==> k in multiset(Keys(members)));
    keys
  }

  function CanonicalText(j: Json): seq<Scalar>
    decreases j, 1, 0
  {
    match j
    case Array(items) => [OPEN_ARRAY] + (CanonicalItems(items) + [CLOSE_ARRAY])
    case Object(members) => [OPEN_OBJECT] + (CanonicalMembers(j, SortedKeys(members)) + [CLOSE_OBJECT])
    case _ => Print(j)
  }

  function CanonicalItems(items: seq<Json>): seq<Scalar>
    decreases items
  {
    if items == [] then []
    else CanonicalText(items[0]) + (if |items| == 1 then [] else [COMMA] + CanonicalItems(items[1..]))
  }

  /** The members of an object under the given keys, joined with commas. */
  function CanonicalMembers(j: Json, keys: seq<seq<Unit>>): seq<Scalar>
    requires j.Object? && forall k | k in keys :: k in Keys(j.members)
    decreases j, 0, |keys|
  {
    if keys == [] then []
    else
      (PrintText(keys[0]) + ([COLON] + CanonicalText(Lookup(j.members, keys[0]))))
      + (if |keys| == 1 then [] else [COMMA] + CanonicalMembers(j, keys[1..]))
  }

  // ----- it is the plain print of the value with its keys in order -----

  function Normal(j: Json): Json
    decreases j, 1, 0
  {
    match j
    case Array(items) => Array(NormalItems(items))
    case Object(members) => Object(NormalMembers(j, SortedKeys(members)))
    case _ => j
  }

  function NormalItems(items: seq<Json>): (r: seq<Json>)
    ensures |r| == |items| && forall i | 0 <= i < |r| :: r[i] == Normal(items[i])
    decreases items
  {
    if items == [] then [] else [Normal(items[0])] + NormalItems(items[1..])
  }

  function NormalMembers(j: Json, keys: seq<seq<Unit>>): (r: seq<Member>)
    requires j.Object? && forall k | k in keys :: k in Keys(j.members)
    ensures |r| == |keys|
    ensures forall i | 0 <= i < |r| :: r[i] == Member(keys[i], Normal(Lookup(j.members, keys[i])))
    decreases j, 0, |keys|
  {
    if keys == [] then []
    else [Member(keys[0], Normal(Lookup(j.members, keys[0])))] + NormalMembers(j, keys[1..])
  }

  lemma {:induction false} CanonicalIsPrint(j: Json)
    ensures CanonicalText(j) == Print(Normal(j))
    decreases j, 1, 0
  {
    if j.Array? {
      CanonicalItemsPrint(j.items);
    } else if j.Object? {
      CanonicalMembersPrint(j, SortedKeys(j.members));
    }
  }

  lemma {:induction false} CanonicalItemsPrint(items: seq<Json>)
    ensures CanonicalItems(items) == PrintItems(NormalItems(items))
    decreases items
  {
    if items != [] {
      CanonicalIsPrint(items[0]);
      CanonicalItemsPrint(items[1..]);
      assert NormalItems(items)[1..] == NormalItems(items[1..]);
    }
  }

  lemma {:induction false} CanonicalMembersPrint(j: Json, keys: seq<seq<Unit>>)
    requires j.Object? && forall k | k in keys :: k in Keys(j.members)
    ensures CanonicalMembers(j, keys) == PrintMembers(NormalMembers(j, keys))
    decreases j, 0, |keys|
  {
    if keys != [] {
      CanonicalIsPrint(Lookup(j.members, keys[0]));
      CanonicalMembersPrint(j, keys[1..]);
      assert NormalMembers(j, keys)[1..] == NormalMembers(j, keys[1..]);
    }
  }

  // ----- equality as JSON -----

  /** Equal up to the order of object keys. */
  ghost predicate Same(a: Json, b: Json)
    decreases a
  {
    match a
    case Array(items) =>
      b.Array? && |items| == |b.items| && forall i | 0 <= i < |items| :: Same(items[i], b.items[i])
    case Object(members) =>
      && b.Object? && (forall k :: k in Keys(members) <==> k in Keys(b.members))
      && forall i | 0 <= i < |members| :: Same(members[i].value, Lookup(b.members, Keys(members)[i]))
    case _ => a == b
  }

  lemma {:induction false} LookupAt(members: seq<Member>, i: nat)
    requires DistinctKeys(members) && i < |members|
    ensures Lookup(members, Keys(members)[i]) == members[i].value
  {
    if i > 0 {
      assert members[1..][i - 1] == members[i];
      assert Keys(members)[1..] == Keys(members[1..]);
      LookupAt(members[1..], i - 1);
    }
  }

  lemma KeyIndex(members: seq<Member>, k: seq<Unit>) returns (i: nat)
    requires k in Keys(members)
    ensures i < |members| && members[i].key == k
  {
    i :| 0 <= i < |members| && Keys(members)[i] == k;
  }

  /** Lists of distinct keys with the same elements are sorted into the same list. */
  lemma SameKeysSortAlike(a: seq<Member>, b: seq<Member>)
    requires DistinctKeys(a) && DistinctKeys(b) && forall k :: k in Keys(a) <==> k in Keys(b)
    ensures SortedKeys(a) == SortedKeys(b)
  {
    forall k ensures multiset(Keys(a))[k] == multiset(Keys(b))[k] {
      KeyOnce(a, k);
      KeyOnce(b, k);
      assert k in Keys(a) <==> k in multiset(Keys(a));
      assert k in Keys(b) <==> k in multiset(Keys(b));
    }
    assert multiset(Keys(a)) == multiset(Keys(b));
    KeyLeqIsTotalOrder();
    SortedUnique(KeyLeq, SortedKeys(a), SortedKeys(b));
  }

  lemma {:induction false} KeyOnce(members: seq<Member>, k: seq<Unit>)
    requires DistinctKeys(members)
    ensures multiset(Keys(members))[k] <= 1
  {
    if members != [] {
      KeyOnce(members[1..], k);
      assert Keys(members) == [members[0].key] + Keys(members[1..]);
      if k == members[0].key { assert k !in Keys(members[1..]); }
    }
  }

  lemma NormalKeys(a: Json, b: Json)
    requires a.Object? && b.Object? && Normal(a) == Normal(b)
    ensures SortedKeys(a.members) == SortedKeys(b.members)
  {
    var p, q := SortedKeys(a.members), SortedKeys(b.members);
    var m, n := NormalMembers(a, p), NormalMembers(b, q);
    assert m == n;
    forall i | 0 <= i < |p| ensures p[i] == q[i] {
      assert m[i].key == p[i] && n[i].key == q[i];
    }
  }

  /** Sorting keys identifies exactly the values that are equal as JSON. */
  lemma {:induction false} NormalIffSame(a: Json, b: Json)
    requires Valid(a) && Valid(b)
    ensures Normal(a) == Normal(b) <==> Same(a, b)
    decreases a
  {
    if a.Array? && b.Array? {
      if |a.items| == |b.items| {
        forall i | 0 <= i < |a.items|
          ensures Normal(a.items[i]) == Normal(b.items[i]) <==> Same(a.items[i], b.items[i])
        {
          NormalIffSame(a.items[i], b.items[i]);
        }
        ItemsIff(a, b);
      }
    } else if a.Object? && b.Object? {
      ObjectIff(a, b);
    }
  }

  lemma ItemsIff(a: Json, b: Json)
    requires a.Array? && b.Array? && |a.items| == |b.items|
    ensures Normal(a) == Normal(b) <==> forall i | 0 <= i < |a.items| :: Normal(a.items[i]) == Normal(b.items[i])
  {
    var p, q := NormalItems(a.items), NormalItems(b.items);
    if forall i | 0 <= i < |a.items| :: Normal(a.items[i]) == Normal(b.items[i]) {
      assert p == q;
    }
    if p == q {
      forall i | 0 <= i < |a.items| ensures Normal(a.items[i]) == Normal(b.items[i]) {
        assert p[i] == q[i];
      }
    }
  }

  lemma {:induction false} ObjectIff(a: Json, b: Json)
    requires Valid(a) && Valid(b) && a.Object? && b.Object?
    ensures Normal(a) == Normal(b) <==> Same(a, b)
    decreases a, 0, 2
  {
    if Normal(a) == Normal(b) { NormalGivesSame(a, b); }
    if Same(a, b) { SameGivesNormal(a, b); }
  }

  lemma {:induction false} NormalGivesSame(a: Json, b: Json)
    requires Valid(a) && Valid(b) && a.Object? && b.Object? && Normal(a) == Normal(b)
    ensures Same(a, b)
    decreases a, 0, 1
  {
    NormalKeys(a, b);
    var keys := SortedKeys(a.members);
    assert forall k :: k in Keys(a.members) <==> k in keys;
    assert forall k :: k in Keys(b.members) <==> k in keys;
    forall i | 0 <= i < |a.members|
      ensures Same(a.members[i].value, Lookup(b.members, Keys(a.members)[i]))
    {
      var k := Keys(a.members)[i];
      assert k in Keys(a.members);
      NormalAtKey(a, b, keys, k);
      LookupAt(a.members, i);
      ValueIff(a, b, k);
    }
  }

  lemma {:induction false} SameGivesNormal(a: Json, b: Json)
    requires Valid(a) && Valid(b) && a.Object? && b.Object? && Same(a, b)
    ensures Normal(a) == Normal(b)
    decreases a, 0, 1
  {
    SameKeysSortAlike(a.members, b.members);
    var keys := SortedKeys(a.members);
    forall i | 0 <= i < |keys|
      ensures Normal(Lookup(a.members, keys[i])) == Normal(Lookup(b.members, keys[i]))
    {
      assert keys[i] in keys;
      var at := KeyIndex(a.members, keys[i]);
      assert Keys(a.members)[at] == keys[i];
      LookupAt(a.members, at);
      ValueIff(a, b, keys[i]);
    }
    assert NormalMembers(a, keys) == NormalMembers(b, keys);
  }

  lemma NormalAtKey(a: Json, b: Json, keys: seq<seq<Unit>>, k: seq<Unit>)
    requires a.Object? && b.Object? && k in keys
    requires (forall k | k in keys :: k in Keys(a.members)) && (forall k | k in keys :: k in Keys(b.members))
    requires NormalMembers(a, keys) == NormalMembers(b, keys)
    ensures Normal(Lookup(a.members, k)) == Normal(Lookup(b.members, k))
  {
    var i :| 0 <= i < |keys| && keys[i] == k;
    assert NormalMembers(a, keys)[i] == NormalMembers(b, keys)[i];
  }

  lemma {:induction false} ValueIff(a: Json, b: Json, k: seq<Unit>)
    requires Valid(a) && Valid(b) && a.Object? && b.Object? && k in Keys(a.members) && k in Keys(b.members)
    ensures Normal(Lookup(a.members, k)) == Normal(Lookup(b.members, k))
            <==> Same(Lookup(a.members, k), Lookup(b.members, k))
    decreases a, 0, 0
  {
    var i := KeyIndex(a.members, k);
    var j := KeyIndex(b.members, k);
    LookupAt(a.members, i);
    LookupAt(b.members, j);
    NormalIffSame(a.members[i].value, b.members[j].value);
  }

  lemma {:induction false} NormalIsValid(j: Json)
    requires Valid(j)
    ensures Valid(Normal(j))
    decreases j
  {
    if j.Array? {
      forall i | 0 <= i < |j.items| ensures Valid(Normal(j.items[i])) { NormalIsValid(j.items[i]); }
    } else if j.Object? {
      var keys := SortedKeys(j.members);
      forall i | 0 <= i < |keys| ensures Valid(Normal(Lookup(j.members, keys[i]))) {
        var at := KeyIndex(j.members, keys[i]);
        LookupAt(j.members, at);
        NormalIsValid(j.members[at].value);
      }
      SortedDistinct(j.members);
    }
  }

  lemma SortedDistinct(members: seq<Member>)
    requires DistinctKeys(members)
    ensures forall i, j | 0 <= i < j < |SortedKeys(members)| :: SortedKeys(members)[i] != SortedKeys(members)[j]
  {
    var keys := SortedKeys(members);
    forall i, j | 0 <= i < j < |keys| ensures keys[i] != keys[j] {
      KeyOnce(members, keys[j]);
      if keys[i] == keys[j] { CountsTwice(keys, i, j); }
    }
  }

  lemma CountsTwice(keys: seq<seq<Unit>>, i: nat, j: nat)
    requires i < j < |keys| && keys[i] == keys[j]
    ensures multiset(keys)[keys[j]] >= 2
  {
    assert keys == keys[..j] + [keys[j]] + keys[j + 1..];
    assert keys[..j][i] == keys[j] && keys[j] in multiset(keys[..j]);
  }

  /** Two JSON values have the same canonical text exactly when they are equal as JSON. */
  lemma CanonicalTextDecides(a: Json, b: Json)
    requires Valid(a) && Valid(b)
    ensures CanonicalText(a) == CanonicalText(b) <==> Same(a, b)
  {
    CanonicalIsPrint(a);
    CanonicalIsPrint(b);
    NormalIsValid(a);
    NormalIsValid(b);
    NormalIffSame(a, b);
    if CanonicalText(a) == CanonicalText(b) { PrintInjective(Normal(a), Normal(b)); }
  }

  /** The keys are printed in the order of their units, each after those it extends or exceeds where they first differ. */
  lemma KeysAscend(members: seq<Member>, i: nat, j: nat)
    requires i < j < |SortedKeys(members)|
    ensures var a, b := SortedKeys(members)[i], SortedKeys(members)[j];
            exists k: nat | k <= |a| :: k <= |b| && a[..k] == b[..k] && (k == |a| || (k < |b| && a[k] < b[k]))
  {
    var a, b := SortedKeys(members)[i], SortedKeys(members)[j];
    assert KeyLeq(a, b);
    LexAsTold(UnitLess, a, b);
    var k: nat :| Precedes(UnitLess, a, b, k);
    assert a[..k] == b[..k];
  }
}
