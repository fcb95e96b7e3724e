/**
  BoundedPathHeap: a max-heap in an array that keeps the `limit` smallest
  strings pushed to it, in the order given by `atMost`.
 */
module PathHeap {
  import opened Order

  function Parent(i: nat): nat
    requires i > 0
  {
    (i - 1) / 2
  }

  ghost predicate UnderParent(le: (string, string) -> bool, h: seq<string>, i: nat)
    requires 0 < i < |h|
  {
    le(h[i], h[Parent(i)])
  }

  ghost predicate IsHeap(le: (string, string) -> bool, h: seq<string>) {
    forall i | 0 < i < |h| :: UnderParent(le, h, i)
  }

  ghost predicate ChildrenAtMost(le: (string, string) -> bool, h: seq<string>, i: nat, x: string) {
    && (2 * i + 1 < |h| ==> le(h[2 * i + 1], x))
    && (2 * i + 2 < |h| ==> le(h[2 * i + 2], x))
  }

  /** A heap but for the entry at `hole`, which may exceed its parent. */
  ghost predicate RisingAt(le: (string, string) -> bool, h: seq<string>, hole: nat) {
    && (forall i | 0 < i < |h| && i != hole :: UnderParent(le, h, i))
    && (0 < hole < |h| ==> ChildrenAtMost(le, h, hole, h[Parent(hole)]))
  }

  /** A heap but for the entry at `hole`, which may be below its children. */
  ghost predicate SinkingAt(le: (string, string) -> bool, h: seq<string>, hole: nat) {
    && (forall i | 0 < i < |h| && Parent(i) != hole :: UnderParent(le, h, i))
    && (0 < hole < |h| ==> ChildrenAtMost(le, h, hole, h[Parent(hole)]))
  }

  lemma {:induction false} RootIsLargest(le: (string, string) -> bool, h: seq<string>, i: nat)
    requires TotalOrder(le) && IsHeap(le, h) && i < |h|
    ensures le(h[i], h[0])
  {
    if i > 0 {
      assert UnderParent(le, h, i);
      RootIsLargest(le, h, Parent(i));
    }
  }

  lemma RootIsTop(le: (string, string) -> bool, h: seq<string>)
    requires TotalOrder(le) && IsHeap(le, h) && h != []
    ensures h[0] in multiset(h) && forall y :: y in multiset(h) ==> le(y, h[0])
  {
    forall y | y in multiset(h) ensures le(y, h[0]) {
      var i :| 0 <= i < |h| && h[i] == y;
      RootIsLargest(le, h, i);
    }
  }

  lemma AppendRises(le: (string, string) -> bool, h: seq<string>, x: string)
    requires IsHeap(le, h)
    ensures RisingAt(le, h + [x], |h|) && multiset(h + [x]) == multiset(h) + multiset{x}
  {
    forall i | 0 < i < |h| ensures UnderParent(le, h + [x], i) { assert UnderParent(le, h, i); }
  }

  lemma ReplacedRootSinks(le: (string, string) -> bool, h: seq<string>, x: string)
    requires IsHeap(le, h) && h != []
    ensures SinkingAt(le, h[0 := x], 0) && multiset(h[0 := x]) == multiset(h) - multiset{h[0]} + multiset{x}
  {
    forall i | 0 < i < |h| && Parent(i) != 0 ensures UnderParent(le, h[0 := x], i) { assert UnderParent(le, h, i); }
  }

  /** The child that siftDown compares with is the larger one. */
  lemma LargerChild(le: (string, string) -> bool, h: seq<string>, hole: nat, child: nat)
    requires TotalOrder(le) && 2 * hole + 1 < |h|
    requires child == if 2 * hole + 2 < |h| && !le(h[2 * hole + 2], h[2 * hole + 1]) then 2 * hole + 2 else 2 * hole + 1
    ensures ChildrenAtMost(le, h, hole, h[child])
  {
  }

  /** Nothing is out of place once the larger child fits. */
  lemma SunkIsHeap(le: (string, string) -> bool, h: seq<string>, hole: nat)
    requires SinkingAt(le, h, hole) && hole < |h| && ChildrenAtMost(le, h, hole, h[hole])
    ensures IsHeap(le, h)
  {
    forall i | 0 < i < |h| ensures UnderParent(le, h, i) {
      assert Parent(i) == hole ==> i == 2 * hole + 1 || i == 2 * hole + 2;
    }
  }

  /** Exchanging two entries keeps the elements. */
  lemma SwapElements(h: seq<string>, i: nat, j: nat)
    requires i < |h| && j < |h|
    ensures multiset(h[i := h[j]][j := h[i]]) == multiset(h)
  {
  }

  lemma RiseStep(le: (string, string) -> bool, h: seq<string>, hole: nat)
    requires TotalOrder(le) && RisingAt(le, h, hole) && 0 < hole < |h|
    requires !le(h[hole], h[Parent(hole)])
    ensures var parent := Parent(hole);
            RisingAt(le, h[hole := h[parent]][parent := h[hole]], parent)
  {
    var parent := Parent(hole);
    var g := h[hole := h[parent]][parent := h[hole]];
    forall i | 0 < i < |g| && i != parent ensures UnderParent(le, g, i) {
      if i != hole {
        assert UnderParent(le, h, i);
        assert Parent(i) == hole ==> i == 2 * hole + 1 || i == 2 * hole + 2;
      }
    }
    if parent > 0 {
      assert UnderParent(le, h, parent);
      forall i | i < |g| && (i == 2 * parent + 1 || i == 2 * parent + 2) ensures le(g[i], g[Parent(parent)]) {
        assert Parent(i) == parent;
        assert i != hole ==> UnderParent(le, h, i);
      }
    }
  }

  /** After the exchange every place but those below the child is in order. */
  lemma SinkPlace(le: (string, string) -> bool, h: seq<string>, hole: nat, child: nat, i: nat)
    requires TotalOrder(le) && SinkingAt(le, h, hole) && child < |h|
    requires child == 2 * hole + 1 || child == 2 * hole + 2
    requires ChildrenAtMost(le, h, hole, h[child])
    requires !le(h[child], h[hole])
    requires 0 < i < |h| && Parent(i) != child
    ensures UnderParent(le, h[hole := h[child]][child := h[hole]], i)
  {
    assert Parent(i) == hole ==> i == 2 * hole + 1 || i == 2 * hole + 2;
    assert Parent(i) != hole ==> UnderParent(le, h, i);
  }

  lemma SinkStep(le: (string, string) -> bool, h: seq<string>, hole: nat, child: nat)
    requires TotalOrder(le) && SinkingAt(le, h, hole) && child < |h|
    requires child == 2 * hole + 1 || child == 2 * hole + 2
    requires ChildrenAtMost(le, h, hole, h[child])
    requires !le(h[child], h[hole])
    ensures SinkingAt(le, h[hole := h[child]][child := h[hole]], child)
  {
    var g := h[hole := h[child]][child := h[hole]];
    forall i | 0 < i < |g| && Parent(i) != child ensures UnderParent(le, g, i) {
      SinkPlace(le, h, hole, child, i);
    }
    forall i | i < |g| && (i == 2 * child + 1 || i == 2 * child + 2) ensures le(g[i], g[hole]) {
      assert Parent(i) == child && UnderParent(le, h, i);
    }
  }

  /** There was room: everything pushed is kept. */
  lemma KeepsAll(le: (string, string) -> bool, kept: multiset<string>, all: multiset<string>, k: nat, x: string)
    requires KeepsSmallest(le, kept, all, k) && |kept| < k
    ensures KeepsSmallest(le, kept + multiset{x}, all + multiset{x}, k)
  {
    assert all == kept + (all - kept);
  }

  /** No room, and the new entry is no smaller than the largest kept. */
  lemma KeepsOld(le: (string, string) -> bool, kept: multiset<string>, all: multiset<string>, k: nat, x: string,
                 top: string)
    requires TotalOrder(le) && KeepsSmallest(le, kept, all, k) && |kept| == k
    requires forall y :: y in kept ==> le(y, top)
    requires le(top, x)
    ensures KeepsSmallest(le, kept, all + multiset{x}, k)
  {
  }

  /** No room, and the new entry takes the place of the largest kept. */
  lemma KeepsNew(le: (string, string) -> bool, kept: multiset<string>, all: multiset<string>, k: nat, x: string,
                 top: string)
    requires TotalOrder(le) && KeepsSmallest(le, kept, all, k) && |kept| == k
    requires top in kept && forall y :: y in kept ==> le(y, top)
    requires le(x, top)
    ensures KeepsSmallest(le, kept - multiset{top} + multiset{x}, all + multiset{x}, k)
  {
    var kept' := kept - multiset{top} + multiset{x};
    forall a, b | a in kept' && b in all + multiset{x} - kept' ensures le(a, b) {
      assert b in all - kept || b == top;
    }
  }

  class BoundedPathHeap {
    const limit: nat
    const atMost: (string, string) -> bool
    var entries: seq<string>
    ghost var pushed: seq<string>

    ghost predicate Valid()
      reads this
    {
      && limit > 0 && TotalOrder(atMost)
      && IsHeap(atMost, entries)
      && KeepsSmallest(atMost, multiset(entries), multiset(pushed), limit)
    }

    constructor (limit: nat, atMost: (string, string) -> bool)
      requires limit > 0 && TotalOrder(atMost)
      ensures Valid() && pushed == [] && this.limit == limit && this.atMost == atMost
    {
      this.limit, this.atMost := limit, atMost;
      entries, pushed := [], [];
    }

    method Push(entry: string)
      requires Valid()
      modifies this
      ensures Valid() && pushed == old(pushed) + [entry]
    {
      ghost var h, all := entries, multiset(pushed);
      pushed := pushed + [entry];
      assert |multiset(h)| == |h|;
      if |entries| >= limit {
        RootIsTop(atMost, h);
        if atMost(entries[0], entry) {
          KeepsOld(atMost, multiset(h), all, limit, entry, h[0]);
          return;
        }
        ReplacedRootSinks(atMost, h, entry);
        entries := entries[0 := entry];
        SiftDown(0);
        KeepsNew(atMost, multiset(h), all, limit, entry, h[0]);
      } else {
        AppendRises(atMost, h, entry);
        entries := entries + [entry];
        SiftUp(|entries| - 1, entry);
        KeepsAll(atMost, multiset(h), all, limit, entry);
      }
    }

    /** The loop of push: parents move down until the entry fits. */
    method SiftUp(start: nat, entry: string)
      requires TotalOrder(atMost) && start < |entries| && entries[start] == entry
      requires RisingAt(atMost, entries, start)
      modifies this`entries
      ensures IsHeap(atMost, entries) && multiset(entries) == multiset(old(entries))
    {
      var index: nat := start;
      ghost var h := entries;
      while index > 0
        invariant index < |entries| == |h|
        invariant h == entries[index := entry]
        invariant RisingAt(atMost, h, index)
        invariant multiset(h) == multiset(old(entries))
      {
        var parent := Parent(index);
        if atMost(entry, entries[parent]) {
          break;
        }
        RiseStep(atMost, h, index);
        SwapElements(h, index, parent);
        h := h[index := h[parent]][parent := h[index]];
        entries := entries[index := entries[parent]];
        index := parent;
      }
      entries := entries[index := entry];
    }

    method SiftDown(start: nat)
      requires TotalOrder(atMost) && start < |entries|
      requires SinkingAt(atMost, entries, start)
      modifies this`entries
      ensures IsHeap(atMost, entries) && multiset(entries) == multiset(old(entries))
    {
      var index: nat := start;
      while true
        invariant index < |entries|
        invariant SinkingAt(atMost, entries, index)
        invariant multiset(entries) == multiset(old(entries))
        decreases |entries| - index
      {
        var left := index * 2 + 1;
        if left >= |entries| {
          return;
        }
        var right := left + 1;
        var child := if right < |entries| && !atMost(entries[right], entries[left]) then right else left;
        LargerChild(atMost, entries, index, child);
        if atMost(entries[child], entries[index]) {
          SunkIsHeap(atMost, entries, index);
          return;
        }
        SinkStep(atMost, entries, index, child);
        SwapElements(entries, index, child);
        entries := entries[index := entries[child]][child := entries[index]];
        index := child;
      }
    }

    /** Sorting the kept entries gives the first `limit` of everything pushed, in order. */
    lemma ValuesAreSmallest()
      requires Valid()
      ensures var all := Sort(atMost, pushed);
              && |all| == |pushed|
              && Sort(atMost, entries) == all[..if |all| <= limit then |all| else limit]
    {
      SmallestFirst(atMost, entries, pushed, limit);
    }
  }
}
