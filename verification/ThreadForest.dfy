/**
  What the threaded list is: every session whose chain of parents ends at a root, and
  no other, once, below its parent, siblings by recency.
 */
module ThreadForest {
  import opened Order
  import opened Threading
  import opened Wrappers

  ghost predicate Once(f: seq<PickerSession>) {
    forall i, j | 0 <= i < j < |f| :: f[i].session != f[j].session
  }

  /** The entry at `j` is the nearest before `i` that is one level up, and it is the parent's. */
  ghost predicate ParentAbove(f: seq<PickerSession>, i: nat, j: nat)
    requires i < |f|
  {
    && j < i && f[i].session.parent == Some(f[j].session.path) && f[i].depth == f[j].depth + 1
    && forall k | j < k < i :: f[k].depth >= f[i].depth
  }

  ghost predicate HasParentAbove(f: seq<PickerSession>, i: nat)
    requires i < |f|
  {
    exists j: nat :: ParentAbove(f, i, j)
  }

  /** Every entry below the base level follows its parent within the parent's part of the list. */
  ghost predicate IsPreorder(f: seq<PickerSession>, base: nat) {
    forall i | 0 <= i < |f| :: f[i].depth >= base && (f[i].depth > base ==> HasParentAbove(f, i))
  }

  predicate Siblings(a: PickerSession, b: PickerSession, base: nat) {
    a.depth == b.depth && (a.depth == base || a.session.parent == b.session.parent)
  }

  ghost predicate Ranked(f: seq<PickerSession>, base: nat) {
    forall i, j | 0 <= i < j < |f| && Siblings(f[i], f[j], base) :: MoreRecent(f[i].session, f[j].session)
  }

  // ----- the parts of a forest -----

  function Below(kids: Kin, s: Session, depth: nat, levels: nat): seq<PickerSession>
    requires levels > 0
  {
    Forest(kids, kids(s.path), depth + 1, levels - 1)
  }

  lemma Parts(kids: Kin, ss: seq<Session>, depth: nat, levels: nat)
    requires ss != [] && levels > 0
    ensures Forest(kids, ss, depth, levels)
            == [PickerSession(ss[0], depth)] + Below(kids, ss[0], depth, levels)
               + Forest(kids, ss[1..], depth, levels)
  {
  }

  lemma InParts<T>(p: T, k: seq<T>, r: seq<T>, e: T)
    ensures e in [p] + k + r <==> e == p || e in k || e in r
  {
  }

  lemma PartsMember(kids: Kin, ss: seq<Session>, depth: nat, levels: nat, e: PickerSession)
    requires ss != [] && levels > 0
    ensures e in Forest(kids, ss, depth, levels) <==>
            || e == PickerSession(ss[0], depth)
            || e in Below(kids, ss[0], depth, levels)
            || e in Forest(kids, ss[1..], depth, levels)
  {
    Parts(kids, ss, depth, levels);
    InParts(PickerSession(ss[0], depth), Below(kids, ss[0], depth, levels), Forest(kids, ss[1..], depth, levels), e);
  }

  /** An entry is at the level it is listed with; at the base level it is one of the given sessions. */
  lemma {:induction false} EntryLevel(sessions: seq<Session>, kids: Kin, ss: seq<Session>, depth: nat, levels: nat,
                                      e: PickerSession)
    requires KinOk(sessions, kids) && AllAtLevel(sessions, ss, depth) && e in Forest(kids, ss, depth, levels)
    ensures e.depth >= depth && AtLevel(sessions, e.session, e.depth) && (e.depth == depth ==> e.session in ss)
    decreases levels, |ss|
  {
    PartsMember(kids, ss, depth, levels, e);
    if e in Below(kids, ss[0], depth, levels) {
      BelowLevel(sessions, kids, ss[0], depth, levels, e);
    } else if e in Forest(kids, ss[1..], depth, levels) {
      EntryLevel(sessions, kids, ss[1..], depth, levels, e);
    }
  }

  lemma {:induction false} BelowLevel(sessions: seq<Session>, kids: Kin, s: Session, depth: nat, levels: nat,
                                      e: PickerSession)
    requires KinOk(sessions, kids) && AtLevel(sessions, s, depth) && levels > 0 && e in Below(kids, s, depth, levels)
    ensures e.depth > depth && AtLevel(sessions, e.session, e.depth)
    ensures e.depth == depth + 1 ==> e.session.parent == Some(s.path)
    decreases levels, 0
  {
    KidsAtLevel(sessions, kids, s, depth);
    assert AreKids(sessions, kids(s.path), s);
    EntryLevel(sessions, kids, kids(s.path), depth + 1, levels - 1, e);
  }

  // ----- nothing is missing -----

  lemma {:induction false} GivenAreListed(kids: Kin, ss: seq<Session>, depth: nat, levels: nat, e: PickerSession)
    requires e.session in ss && e.depth == depth && levels > 0
    ensures e in Forest(kids, ss, depth, levels)
    decreases |ss|
  {
    PartsMember(kids, ss, depth, levels, e);
    if e.session != ss[0] { GivenAreListed(kids, ss[1..], depth, levels, e); }
  }

  /** With a session its children are listed, as long as levels are left. */
  lemma {:induction false} ChildrenAreListed(sessions: seq<Session>, kids: Kin, ss: seq<Session>, depth: nat,
                                             levels: nat,
                                             p: PickerSession, e: PickerSession)
    requires KinOk(sessions, kids) && AllAtLevel(sessions, ss, depth) && p in Forest(kids, ss, depth, levels)
    requires e.session in sessions && IsParent(sessions, p.session, e.session)
    requires e.depth == p.depth + 1 && e.depth < depth + levels
    ensures e in Forest(kids, ss, depth, levels)
    decreases levels, |ss|
  {
    PartsMember(kids, ss, depth, levels, p);
    PartsMember(kids, ss, depth, levels, e);
    if p == PickerSession(ss[0], depth) || p in Below(kids, ss[0], depth, levels) {
      ChildrenBelow(sessions, kids, ss[0], depth, levels, p, e);
    } else {
      ChildrenAreListed(sessions, kids, ss[1..], depth, levels, p, e);
    }
  }

  lemma {:induction false} ChildrenBelow(sessions: seq<Session>, kids: Kin, s: Session, depth: nat, levels: nat,
                                         p: PickerSession, e: PickerSession)
    requires KinOk(sessions, kids) && AtLevel(sessions, s, depth) && levels > 0
    requires p == PickerSession(s, depth) || p in Below(kids, s, depth, levels)
    requires e.session in sessions && IsParent(sessions, p.session, e.session)
    requires e.depth == p.depth + 1 && e.depth < depth + levels
    ensures e in Below(kids, s, depth, levels)
    decreases levels, 0
  {
    KidsAtLevel(sessions, kids, s, depth);
    if p in Below(kids, s, depth, levels) {
      ChildrenAreListed(sessions, kids, kids(s.path), depth + 1, levels - 1, p, e);
    } else {
      assert AreKids(sessions, kids(s.path), s);
      GivenAreListed(kids, kids(s.path), depth + 1, levels - 1, e);
    }
  }

  lemma {:induction false} AllLevelsListed(sessions: seq<Session>, kids: Kin, roots: seq<Session>, e: PickerSession)
    requires DistinctPaths(sessions) && KinOk(sessions, kids) && AllAtLevel(sessions, roots, 0)
    requires forall s | s in sessions && IsRoot(sessions, s) :: s in roots
    requires AtLevel(sessions, e.session, e.depth)
    ensures e in Forest(kids, roots, 0, |sessions|)
    decreases e.depth
  {
    LevelBound(sessions, e.session, e.depth);
    if e.depth == 0 {
      GivenAreListed(kids, roots, 0, |sessions|, e);
    } else {
      var p :| IsParent(sessions, p, e.session) && AtLevel(sessions, p, e.depth - 1);
      var above := PickerSession(p, e.depth - 1);
      AllLevelsListed(sessions, kids, roots, above);
      ChildrenAreListed(sessions, kids, roots, 0, |sessions|, above, e);
    }
  }

  // ----- nothing is listed twice -----

  /** `s` is reached from `x` by `k` steps to the parent. */
  ghost predicate Descends(sessions: seq<Session>, x: Session, s: Session, k: nat)
    decreases k
  {
    if k == 0 then x == s else exists p :: IsParent(sessions, p, x) && Descends(sessions, p, s, k - 1)
  }

  lemma {:induction false} DescendsUnique(sessions: seq<Session>, x: Session, s: Session, t: Session, k: nat)
    requires DistinctPaths(sessions) && Descends(sessions, x, s, k) && Descends(sessions, x, t, k)
    ensures s == t
    decreases k
  {
    if k > 0 {
      var p :| IsParent(sessions, p, x) && Descends(sessions, p, s, k - 1);
      var q :| IsParent(sessions, q, x) && Descends(sessions, q, t, k - 1);
      SamePath(sessions, p, q);
      DescendsUnique(sessions, p, s, t, k - 1);
    }
  }

  lemma {:induction false} DescendsFurther(sessions: seq<Session>, x: Session, c: Session, s: Session, k: nat)
    requires Descends(sessions, x, c, k) && IsParent(sessions, s, c)
    ensures Descends(sessions, x, s, k + 1)
    decreases k
  {
    if k == 0 {
      assert Descends(sessions, s, s, 0);
    } else {
      var p :| IsParent(sessions, p, x) && Descends(sessions, p, c, k - 1);
      DescendsFurther(sessions, p, c, s, k - 1);
    }
  }

  /** The given session below which an entry is listed. */
  lemma {:induction false} ListedBelow(sessions: seq<Session>, kids: Kin, ss: seq<Session>, depth: nat, levels: nat,
                                       e: PickerSession)
    returns (s: Session, k: nat)
    requires KinOk(sessions, kids) && AllAtLevel(sessions, ss, depth) && e in Forest(kids, ss, depth, levels)
    ensures s in ss && e.depth == depth + k && Descends(sessions, e.session, s, k)
    decreases levels, |ss|
  {
    PartsMember(kids, ss, depth, levels, e);
    if e == PickerSession(ss[0], depth) {
      s, k := ss[0], 0;
    } else if e in Below(kids, ss[0], depth, levels) {
      k := ListedBelowKid(sessions, kids, ss[0], depth, levels, e);
      s := ss[0];
    } else {
      s, k := ListedBelow(sessions, kids, ss[1..], depth, levels, e);
    }
  }

  lemma {:induction false} ListedBelowKid(sessions: seq<Session>, kids: Kin, s: Session, depth: nat, levels: nat,
                                          e: PickerSession)
    returns (k: nat)
    requires KinOk(sessions, kids) && AtLevel(sessions, s, depth) && levels > 0 && e in Below(kids, s, depth, levels)
    ensures k > 0 && e.depth == depth + k && Descends(sessions, e.session, s, k)
    decreases levels, 0
  {
    KidsAtLevel(sessions, kids, s, depth);
    assert AreKids(sessions, kids(s.path), s);
    var c, steps := ListedBelow(sessions, kids, kids(s.path), depth + 1, levels - 1, e);
    DescendsFurther(sessions, e.session, c, s, steps);
    k := steps + 1;
  }

  /** Different sessions of one level have nothing below them in common. */
  lemma Disjoint(sessions: seq<Session>, a: PickerSession, b: PickerSession, s: Session, t: Session, depth: nat,
                 j: nat, k: nat)
    requires DistinctPaths(sessions)
    requires AtLevel(sessions, a.session, a.depth) && a.depth == depth + j && Descends(sessions, a.session, s, j)
    requires AtLevel(sessions, b.session, b.depth) && b.depth == depth + k && Descends(sessions, b.session, t, k)
    requires s != t
    ensures a.session != b.session
  {
    if a.session == b.session {
      LevelUnique(sessions, a.session, a.depth, b.depth);
      DescendsUnique(sessions, a.session, s, t, k);
    }
  }

  /** What is listed below one session is not listed with the others. */
  lemma Apart(sessions: seq<Session>, kids: Kin, ss: seq<Session>, depth: nat, levels: nat, a: PickerSession,
              b: PickerSession)
    requires DistinctPaths(sessions) && KinOk(sessions, kids) && AllAtLevel(sessions, ss, depth) && ss != [] && ss[0] !in ss[1..] && levels > 0
    requires a == PickerSession(ss[0], depth) || a in Below(kids, ss[0], depth, levels)
    requires b in Forest(kids, ss[1..], depth, levels)
    ensures a.session != b.session
  {
    var j: nat := 0;
    if a in Below(kids, ss[0], depth, levels) {
      j := ListedBelowKid(sessions, kids, ss[0], depth, levels, a);
      BelowLevel(sessions, kids, ss[0], depth, levels, a);
    }
    var t, k := ListedBelow(sessions, kids, ss[1..], depth, levels, b);
    EntryLevel(sessions, kids, ss[1..], depth, levels, b);
    Disjoint(sessions, a, b, ss[0], t, depth, j, k);
  }

  lemma OnceCombined(p: PickerSession, k: seq<PickerSession>, r: seq<PickerSession>)
    requires Once(k) && Once(r)
    requires forall e | e in k :: e.session != p.session
    requires forall a, b | (a == p || a in k) && b in r :: a.session != b.session
    ensures Once([p] + k + r)
  {
    var f := [p] + k + r;
    forall i, j | 0 <= i < j < |f| ensures f[i].session != f[j].session {
      assert i == 0 ==> f[i] == p;
      assert 0 < i <= |k| ==> f[i] == k[i - 1] && f[i] in k;
      assert i > |k| ==> f[i] == r[i - 1 - |k|];
      assert 0 < j <= |k| ==> f[j] == k[j - 1] && f[j] in k;
      assert j > |k| ==> f[j] == r[j - 1 - |k|] && f[j] in r;
    }
  }

  lemma NotBelowItself(sessions: seq<Session>, kids: Kin, s: Session, depth: nat, levels: nat, e: PickerSession)
    requires DistinctPaths(sessions) && KinOk(sessions, kids) && AtLevel(sessions, s, depth) && levels > 0 && e in Below(kids, s, depth, levels)
    ensures e.session != s
  {
    BelowLevel(sessions, kids, s, depth, levels, e);
    if e.session == s { LevelUnique(sessions, s, e.depth, depth); }
  }

  lemma {:induction false} ForestOnce(sessions: seq<Session>, kids: Kin, ss: seq<Session>, depth: nat, levels: nat)
    requires DistinctPaths(sessions) && KinOk(sessions, kids) && AllAtLevel(sessions, ss, depth) && NoRepeats(ss)
    ensures Once(Forest(kids, ss, depth, levels))
    decreases levels, |ss|
  {
    if ss != [] && levels > 0 {
      var k, r := Below(kids, ss[0], depth, levels), Forest(kids, ss[1..], depth, levels);
      BelowOnce(sessions, kids, ss[0], depth, levels);
      ForestOnce(sessions, kids, ss[1..], depth, levels);
      PartsApart(sessions, kids, ss, depth, levels, k, r);
      OnceCombined(PickerSession(ss[0], depth), k, r);
      Parts(kids, ss, depth, levels);
    }
  }

  lemma {:induction false} BelowOnce(sessions: seq<Session>, kids: Kin, s: Session, depth: nat, levels: nat)
    requires DistinctPaths(sessions) && KinOk(sessions, kids) && AtLevel(sessions, s, depth) && levels > 0
    ensures Once(Below(kids, s, depth, levels))
    decreases levels, 0
  {
    KidsAtLevel(sessions, kids, s, depth);
    assert AreKids(sessions, kids(s.path), s);
    ForestOnce(sessions, kids, kids(s.path), depth + 1, levels - 1);
  }

  lemma PartsApart(sessions: seq<Session>, kids: Kin, ss: seq<Session>, depth: nat, levels: nat,
                   k: seq<PickerSession>, r: seq<PickerSession>)
    requires DistinctPaths(sessions) && KinOk(sessions, kids) && AllAtLevel(sessions, ss, depth) && NoRepeats(ss) && ss != [] && levels > 0
    requires k == Below(kids, ss[0], depth, levels) && r == Forest(kids, ss[1..], depth, levels)
    ensures forall e | e in k :: e.session != ss[0]
    ensures forall a, b | (a == PickerSession(ss[0], depth) || a in k) && b in r :: a.session != b.session
  {
    forall e | e in k ensures e.session != ss[0] {
      NotBelowItself(sessions, kids, ss[0], depth, levels, e);
    }
    forall a, b | (a == PickerSession(ss[0], depth) || a in k) && b in r ensures a.session != b.session {
      Apart(sessions, kids, ss, depth, levels, a, b);
    }
  }

  // ----- order -----

  /** Below a session come the entries of its children's forest, then those of the others. */
  lemma PreorderCombined(p: PickerSession, k: seq<PickerSession>, r: seq<PickerSession>)
    requires IsPreorder(k, p.depth + 1) && IsPreorder(r, p.depth)
    requires forall e | e in k && e.depth == p.depth + 1 :: e.session.parent == Some(p.session.path)
    ensures IsPreorder([p] + k + r, p.depth)
  {
    var f := [p] + k + r;
    assert IsSplit(f, p, k, r);
    forall i | 0 <= i < |f| ensures f[i].depth >= p.depth && (f[i].depth > p.depth ==> HasParentAbove(f, i)) {
      if i == 0 {
        assert f[i] == p;
      } else if i <= |k| {
        assert k[i - 1] in k;
        PreorderInKids(p, k, r, f, i);
      } else {
        PreorderInRest(p, k, r, f, i);
      }
    }
  }

  /** `f` is `p`, then `k`, then `r`. */
  ghost predicate IsSplit(f: seq<PickerSession>, p: PickerSession, k: seq<PickerSession>, r: seq<PickerSession>) {
    |f| == 1 + |k| + |r| && f[0] == p && f[1..1 + |k|] == k && f[1 + |k|..] == r
  }

  lemma PreorderInKids(p: PickerSession, k: seq<PickerSession>, r: seq<PickerSession>, f: seq<PickerSession>, at: nat)
    requires IsSplit(f, p, k, r) && 0 < at <= |k|
    requires forall m | 0 <= m < |k| :: k[m].depth >= p.depth + 1
    requires k[at - 1].depth > p.depth + 1 ==> HasParentAbove(k, at - 1)
    requires k[at - 1].depth == p.depth + 1 ==> k[at - 1].session.parent == Some(p.session.path)
    ensures f[at].depth > p.depth && HasParentAbove(f, at)
  {
    var i := at - 1;
    assert f[at] == f[1..1 + |k|][i];
    if k[i].depth == p.depth + 1 {
      ParentFirst(p, k, r, f, at);
    } else {
      ShiftParent(k, f, 1, i, at);
    }
  }

  lemma ParentFirst(p: PickerSession, k: seq<PickerSession>, r: seq<PickerSession>, f: seq<PickerSession>, at: nat)
    requires IsSplit(f, p, k, r) && 0 < at <= |k| && f[at].depth == p.depth + 1
    requires forall m | 0 <= m < |k| :: k[m].depth >= p.depth + 1
    requires f[at].session.parent == Some(p.session.path)
    ensures HasParentAbove(f, at)
  {
    forall m | 0 < m < at ensures f[m].depth >= f[at].depth {
      assert f[m] == f[1..1 + |k|][m - 1];
    }
    assert ParentAbove(f, at, 0);
  }

  /** The relation of an entry to its parent's does not depend on what surrounds the part they are in. */
  lemma ShiftParent(part: seq<PickerSession>, f: seq<PickerSession>, shift: nat, i: nat, at: nat)
    requires i < |part| && |part| + shift <= |f| && at == i + shift && HasParentAbove(part, i)
    requires f[shift..shift + |part|] == part
    ensures HasParentAbove(f, at)
  {
    var j: nat :| ParentAbove(part, i, j);
    var above := j + shift;
    assert f[above] == f[shift..shift + |part|][j] && f[at] == f[shift..shift + |part|][i];
    forall m | above < m < at ensures f[m].depth >= f[at].depth {
      assert f[m] == f[shift..shift + |part|][m - shift];
    }
    assert ParentAbove(f, at, above);
  }

  lemma PreorderInRest(p: PickerSession, k: seq<PickerSession>, r: seq<PickerSession>, f: seq<PickerSession>, at: nat)
    requires IsSplit(f, p, k, r) && |k| < at < |f|
    requires var e := r[at - 1 - |k|]; e.depth >= p.depth && (e.depth > p.depth ==> HasParentAbove(r, at - 1 - |k|))
    ensures f[at].depth >= p.depth && (f[at].depth > p.depth ==> HasParentAbove(f, at))
  {
    var shift := 1 + |k|;
    var i := at - shift;
    assert f[shift..shift + |r|] == f[shift..] && f[at] == f[shift..][i];
    if r[i].depth > p.depth {
      ShiftParent(r, f, shift, i, at);
    }
  }

  lemma {:induction false} ForestPreorder(sessions: seq<Session>, kids: Kin, ss: seq<Session>, depth: nat, levels: nat)
    requires KinOk(sessions, kids) && AllAtLevel(sessions, ss, depth)
    ensures IsPreorder(Forest(kids, ss, depth, levels), depth)
    decreases levels, |ss|
  {
    if ss != [] && levels > 0 {
      var k, r := Below(kids, ss[0], depth, levels), Forest(kids, ss[1..], depth, levels);
      BelowPreorder(sessions, kids, ss[0], depth, levels);
      ForestPreorder(sessions, kids, ss[1..], depth, levels);
      PreorderCombined(PickerSession(ss[0], depth), k, r);
      Parts(kids, ss, depth, levels);
    }
  }

  lemma {:induction false} BelowPreorder(sessions: seq<Session>, kids: Kin, s: Session, depth: nat, levels: nat)
    requires KinOk(sessions, kids) && AtLevel(sessions, s, depth) && levels > 0
    ensures IsPreorder(Below(kids, s, depth, levels), depth + 1)
    ensures forall e | e in Below(kids, s, depth, levels) && e.depth == depth + 1 :: e.session.parent == Some(s.path)
    decreases levels, 0
  {
    KidsAtLevel(sessions, kids, s, depth);
    ForestPreorder(sessions, kids, kids(s.path), depth + 1, levels - 1);
    forall e | e in Below(kids, s, depth, levels) && e.depth == depth + 1 ensures e.session.parent == Some(s.path) {
      BelowLevel(sessions, kids, s, depth, levels, e);
    }
  }

  /** Entries of different parts below the base level have different parents. */
  lemma DifferentParents(sessions: seq<Session>, kids: Kin, ss: seq<Session>, depth: nat, levels: nat,
                         a: PickerSession, b: PickerSession)
    requires DistinctPaths(sessions) && KinOk(sessions, kids) && AllAtLevel(sessions, ss, depth) && ss != [] && ss[0] !in ss[1..] && levels > 0
    requires a in Below(kids, ss[0], depth, levels) && b in Forest(kids, ss[1..], depth, levels)
    requires a.depth == b.depth
    ensures a.session.parent != b.session.parent
  {
    var j := ListedBelowKid(sessions, kids, ss[0], depth, levels, a);
    var t, k := ListedBelow(sessions, kids, ss[1..], depth, levels, b);
    NoCommonParent(sessions, a.session, b.session, ss[0], t, k);
  }

  lemma NoCommonParent(sessions: seq<Session>, x: Session, y: Session, s: Session, t: Session, k: nat)
    requires DistinctPaths(sessions) && k > 0 && s != t
    requires Descends(sessions, x, s, k) && Descends(sessions, y, t, k)
    ensures x.parent != y.parent
  {
    var p :| IsParent(sessions, p, x) && Descends(sessions, p, s, k - 1);
    var q :| IsParent(sessions, q, y) && Descends(sessions, q, t, k - 1);
    if x.parent == y.parent {
      SamePath(sessions, p, q);
      DescendsUnique(sessions, p, s, t, k - 1);
    }
  }

  lemma RankedCombined(p: PickerSession, k: seq<PickerSession>, r: seq<PickerSession>)
    requires Ranked(k, p.depth + 1) && Ranked(r, p.depth)
    requires forall e | e in k :: e.depth > p.depth
    requires forall e | e in r :: e.depth >= p.depth && (e.depth == p.depth ==> MoreRecent(p.session, e.session))
    requires forall a, b | a in k && b in r && a.depth == b.depth :: a.session.parent != b.session.parent
    ensures Ranked([p] + k + r, p.depth)
  {
    var f := [p] + k + r;
    forall i, j | 0 <= i < j < |f| && Siblings(f[i], f[j], p.depth) ensures MoreRecent(f[i].session, f[j].session) {
      assert i == 0 ==> f[i] == p;
      assert 0 < i <= |k| ==> f[i] == k[i - 1] && f[i] in k;
      assert i > |k| ==> f[i] == r[i - 1 - |k|];
      assert 0 < j <= |k| ==> f[j] == k[j - 1] && f[j] in k;
      assert j > |k| ==> f[j] == r[j - 1 - |k|] && f[j] in r;
    }
  }

  lemma {:induction false} ForestRanked(sessions: seq<Session>, kids: Kin, ss: seq<Session>, depth: nat, levels: nat)
    requires DistinctPaths(sessions) && KinOk(sessions, kids) && AllAtLevel(sessions, ss, depth) && NoRepeats(ss) && IsSorted(MoreRecent, ss)
    ensures Ranked(Forest(kids, ss, depth, levels), depth)
    decreases levels, |ss|
  {
    if ss != [] && levels > 0 {
      var k, r := Below(kids, ss[0], depth, levels), Forest(kids, ss[1..], depth, levels);
      BelowRanked(sessions, kids, ss[0], depth, levels);
      ForestRanked(sessions, kids, ss[1..], depth, levels);
      PartsRanked(sessions, kids, ss, depth, levels, k, r);
      RankedCombined(PickerSession(ss[0], depth), k, r);
      Parts(kids, ss, depth, levels);
    }
  }

  lemma {:induction false} BelowRanked(sessions: seq<Session>, kids: Kin, s: Session, depth: nat, levels: nat)
    requires DistinctPaths(sessions) && KinOk(sessions, kids) && AtLevel(sessions, s, depth) && levels > 0
    ensures Ranked(Below(kids, s, depth, levels), depth + 1)
    decreases levels, 0
  {
    KidsAtLevel(sessions, kids, s, depth);
    assert AreKids(sessions, kids(s.path), s);
    ForestRanked(sessions, kids, kids(s.path), depth + 1, levels - 1);
  }

  lemma PartsRanked(sessions: seq<Session>, kids: Kin, ss: seq<Session>, depth: nat, levels: nat,
                    k: seq<PickerSession>, r: seq<PickerSession>)
    requires DistinctPaths(sessions) && KinOk(sessions, kids) && AllAtLevel(sessions, ss, depth) && NoRepeats(ss) && IsSorted(MoreRecent, ss)
    requires ss != [] && levels > 0
    requires k == Below(kids, ss[0], depth, levels) && r == Forest(kids, ss[1..], depth, levels)
    ensures forall e | e in k :: e.depth > depth
    ensures forall e | e in r :: e.depth >= depth && (e.depth == depth ==> MoreRecent(ss[0], e.session))
    ensures forall a, b | a in k && b in r && a.depth == b.depth :: a.session.parent != b.session.parent
  {
    forall e | e in k ensures e.depth > depth {
      BelowLevel(sessions, kids, ss[0], depth, levels, e);
    }
    forall e | e in r ensures e.depth >= depth && (e.depth == depth ==> MoreRecent(ss[0], e.session)) {
      EntryLevel(sessions, kids, ss[1..], depth, levels, e);
    }
    forall a, b | a in k && b in r && a.depth == b.depth ensures a.session.parent != b.session.parent {
      DifferentParents(sessions, kids, ss, depth, levels, a, b);
    }
  }

  /**
    For sessions with different paths and any parent links, cyclic ones included, the list
    holds exactly the sessions whose chain of parents ends at a root, each once and at its
    level, in preorder, siblings most recent first.
   */
  lemma ThreadedIsForest(sessions: seq<Session>)
    requires DistinctPaths(sessions)
    ensures forall e :: e in Threaded(sessions) <==> AtLevel(sessions, e.session, e.depth)
    ensures Once(Threaded(sessions))
    ensures IsPreorder(Threaded(sessions), 0) && Ranked(Threaded(sessions), 0)
  {
    var kids := KinOf(sessions);
    KinOfIsOk(sessions);
    var roots := Sort(MoreRecent, Roots(sessions, sessions));
    RootsAtLevel(sessions);
    SessionsNoRepeats(sessions);
    RootsNoRepeats(sessions, sessions);
    SortNoRepeats(Roots(sessions, sessions));
    RecentIsPreorder();
    SortSorts(MoreRecent, Roots(sessions, sessions));
    ForestOnce(sessions, kids, roots, 0, |sessions|);
    ForestPreorder(sessions, kids, roots, 0, |sessions|);
    ForestRanked(sessions, kids, roots, 0, |sessions|);
    forall e ensures e in Threaded(sessions) <==> AtLevel(sessions, e.session, e.depth) {
      if e in Threaded(sessions) { EntryLevel(sessions, kids, roots, 0, |sessions|, e); }
      if AtLevel(sessions, e.session, e.depth) { AllLevelsListed(sessions, kids, roots, e); }
    }
  }

  /**
    In particular, the entries at depth zero are the sessions that name no parent in the list, and
    of two siblings the one listed first was modified no earlier.
   */
  lemma RootsAndSiblings(sessions: seq<Session>, i: nat, j: nat)
    requires DistinctPaths(sessions) && i < j < |Threaded(sessions)|
    ensures var f := Threaded(sessions); var s := f[i].session;
            && s in sessions
            && (f[i].depth == 0 <==> s.parent.None? || s.parent.value == "" || forall t <- sessions :: t.path != s.parent.value)
            && (f[i].depth == f[j].depth && (f[i].depth == 0 || s.parent == f[j].session.parent) ==>
                  s.modified >= f[j].session.modified)
  {
    ThreadedIsForest(sessions);
    var e := Threaded(sessions)[i];
    assert e in Threaded(sessions);
    assert AtLevel(sessions, e.session, e.depth);
    if e.depth > 0 {
      var p :| IsParent(sessions, p, e.session) && AtLevel(sessions, p, e.depth - 1);
      ParentIsNoRoot(sessions, p, e.session);
    }
    assert Siblings(Threaded(sessions)[i], Threaded(sessions)[j], 0) ==> MoreRecent(e.session, Threaded(sessions)[j].session);
  }

  /** A session that names no parent in the list is listed as a root. */
  lemma RootIsListed(sessions: seq<Session>, s: Session)
    requires DistinctPaths(sessions) && s in sessions
    requires s.parent.None? || s.parent.value == "" || forall t <- sessions :: t.path != s.parent.value
    ensures PickerSession(s, 0) in Threaded(sessions)
  {
    ThreadedIsForest(sessions);
    assert IsRoot(sessions, s);
    assert AtLevel(sessions, PickerSession(s, 0).session, PickerSession(s, 0).depth);
  }

  /** A session whose parent is listed stands a level below it. */
  lemma ChildIsListed(sessions: seq<Session>, s: Session, e: PickerSession)
    requires DistinctPaths(sessions) && s in sessions && e in Threaded(sessions)
    requires s.parent == Some(e.session.path) && e.session.path != ""
    ensures PickerSession(s, e.depth + 1) in Threaded(sessions)
  {
    ThreadedIsForest(sessions);
    assert AtLevel(sessions, e.session, e.depth) && IsParent(sessions, e.session, s);
    assert AtLevel(sessions, PickerSession(s, e.depth + 1).session, PickerSession(s, e.depth + 1).depth);
  }
}
