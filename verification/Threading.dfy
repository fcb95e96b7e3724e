/**
  apps/felan/src/session-picker.ts: sessions are listed as a forest, each below the
  session it was started from. Parent links may be missing, dangling or cyclic.
 */
module Threading {
  import opened Order
  import opened Sequences
  import opened Wrappers

  datatype Session = Session(path: string, parent: Option<string>, modified: int)

  datatype PickerSession = PickerSession(session: Session, depth: nat)

  predicate DistinctPaths(sessions: seq<Session>) {
    forall i, j | 0 <= i < j < |sessions| :: sessions[i].path != sessions[j].path
  }

  predicate HasPath(sessions: seq<Session>, path: string) {
    exists i | 0 <= i < |sessions| :: sessions[i].path == path
  }

  /** The session names no parent, or one that is not in the list. */
  predicate IsRoot(sessions: seq<Session>, s: Session) {
    s.parent.None? || s.parent.value == "" || !HasPath(sessions, s.parent.value)
  }

  predicate IsParent(sessions: seq<Session>, p: Session, s: Session) {
    p in sessions && s.parent == Some(p.path) && p.path != ""
  }

  /** The sessions that satisfy a condition, in their order. */
  function Roots(sessions: seq<Session>, from: seq<Session>): seq<Session> {
    if from == [] then []
    else (if IsRoot(sessions, from[0]) then [from[0]] else []) + Roots(sessions, from[1..])
  }

  function Kids(sessions: seq<Session>, from: seq<Session>, path: string): seq<Session> {
    if from == [] then []
    else
      (if !IsRoot(sessions, from[0]) && from[0].parent == Some(path) then [from[0]] else [])
      + Kids(sessions, from[1..], path)
  }

  /** The comparison of siblings does not put `a` after `b`. */
  predicate MoreRecent(a: Session, b: Session) {
    a.modified >= b.modified
  }

  function SortedKids(sessions: seq<Session>, path: string): seq<Session> {
    Sort(MoreRecent, Kids(sessions, sessions, path))
  }

  /** The sorted children of each path. */
  type Kin = string -> seq<Session>

  function KinOf(sessions: seq<Session>): Kin {
    path => SortedKids(sessions, path)
  }

  /** Each of the given sessions followed by what is below it, at most `levels` levels deep. */
  function Forest(kids: Kin, ss: seq<Session>, depth: nat, levels: nat): seq<PickerSession>
    decreases levels, |ss|
  {
    if ss == [] || levels == 0 then []
    else
      [PickerSession(ss[0], depth)]
      + Forest(kids, kids(ss[0].path), depth + 1, levels - 1)
      + Forest(kids, ss[1..], depth, levels)
  }

  /** The threaded list: no chain of parents is longer than the list of sessions. */
  function Threaded(sessions: seq<Session>): seq<PickerSession> {
    Forest(KinOf(sessions), Sort(MoreRecent, Roots(sessions, sessions)), 0, |sessions|)
  }

  // ----- levels -----

  /** The chain of parents of `s` ends at a root after `n` steps. */
  ghost predicate AtLevel(sessions: seq<Session>, s: Session, n: nat)
    decreases n
  {
    s in sessions &&
    if n == 0 then IsRoot(sessions, s) else exists p :: IsParent(sessions, p, s) && AtLevel(sessions, p, n - 1)
  }

  lemma SamePath(sessions: seq<Session>, a: Session, b: Session)
    requires DistinctPaths(sessions) && a in sessions && b in sessions && a.path == b.path
    ensures a == b
  {
    var i :| 0 <= i < |sessions| && sessions[i] == a;
    var j :| 0 <= j < |sessions| && sessions[j] == b;
  }

  lemma ParentIsNoRoot(sessions: seq<Session>, p: Session, s: Session)
    requires IsParent(sessions, p, s)
    ensures !IsRoot(sessions, s)
  {
    var i :| 0 <= i < |sessions| && sessions[i] == p;
    assert sessions[i].path == s.parent.value;
  }

  lemma {:induction false} LevelUnique(sessions: seq<Session>, s: Session, n: nat, m: nat)
    requires DistinctPaths(sessions) && AtLevel(sessions, s, n) && AtLevel(sessions, s, m)
    ensures n == m
    decreases n
  {
    if n > 0 {
      var p :| IsParent(sessions, p, s) && AtLevel(sessions, p, n - 1);
      ParentIsNoRoot(sessions, p, s);
      var q :| IsParent(sessions, q, s) && AtLevel(sessions, q, m - 1);
      SamePath(sessions, p, q);
      LevelUnique(sessions, p, n - 1, m - 1);
    } else if m > 0 {
      var q :| IsParent(sessions, q, s) && AtLevel(sessions, q, m - 1);
      ParentIsNoRoot(sessions, q, s);
    }
  }

  ghost predicate UpToLevel(sessions: seq<Session>, s: Session, n: nat) {
    AtLevel(sessions, s, n) || (n > 0 && UpToLevel(sessions, s, n - 1))
  }

  lemma {:induction false} NotLower(sessions: seq<Session>, s: Session, n: nat, m: nat)
    requires DistinctPaths(sessions) && AtLevel(sessions, s, n) && UpToLevel(sessions, s, m)
    ensures n <= m
    decreases m
  {
    if AtLevel(sessions, s, m) { LevelUnique(sessions, s, n, m); } else { NotLower(sessions, s, n, m - 1); }
  }

  /** A session and those above it, all different. */
  lemma {:induction false} Chain(sessions: seq<Session>, s: Session, n: nat) returns (chain: set<Session>)
    requires DistinctPaths(sessions) && AtLevel(sessions, s, n)
    ensures |chain| == n + 1 && forall a | a in chain :: a in sessions && UpToLevel(sessions, a, n)
    decreases n
  {
    if n == 0 {
      chain := {s};
    } else {
      var p :| IsParent(sessions, p, s) && AtLevel(sessions, p, n - 1);
      var above := Chain(sessions, p, n - 1);
      if s in above { NotLower(sessions, s, n, n - 1); }
      chain := above + {s};
    }
  }

  lemma {:induction false} SetOfSeq<T>(s: seq<T>, a: set<T>)
    requires forall x | x in a :: x in s
    ensures |a| <= |s|
  {
    if s != [] {
      var rest := a - {s[0]};
      forall x | x in rest ensures x in s[1..] { assert x in s; }
      SetOfSeq(s[1..], rest);
    } else {
      assert a == {};
    }
  }

  lemma LevelBound(sessions: seq<Session>, s: Session, n: nat)
    requires DistinctPaths(sessions) && AtLevel(sessions, s, n)
    ensures n < |sessions|
  {
    var chain := Chain(sessions, s, n);
    SetOfSeq(sessions, chain);
  }

  // ----- the methods -----

  lemma {:induction false} KidsElements(sessions: seq<Session>, from: seq<Session>, path: string)
    ensures forall s :: s in Kids(sessions, from, path) <==> s in from && !IsRoot(sessions, s) && s.parent == Some(path)
  {
    if from != [] { KidsElements(sessions, from[1..], path); }
  }

  lemma {:induction false} RootsElements(sessions: seq<Session>, from: seq<Session>)
    ensures forall s :: s in Roots(sessions, from) <==> s in from && IsRoot(sessions, s)
  {
    if from != [] { RootsElements(sessions, from[1..]); }
  }

  lemma RecentIsPreorder()
    ensures TotalPreorder(MoreRecent)
  {
  }

  lemma SortElements(s: seq<Session>)
    ensures forall x :: x in Sort(MoreRecent, s) <==> x in s
  {
    RecentIsPreorder();
    SortSorts(MoreRecent, s);
    forall x ensures x in Sort(MoreRecent, s) <==> x in s {
      assert x in Sort(MoreRecent, s) <==> x in multiset(Sort(MoreRecent, s));
      assert x in s <==> x in multiset(s);
    }
  }

  ghost predicate NoRepeats(ss: seq<Session>) {
    forall i, j | 0 <= i < j < |ss| :: ss[i] != ss[j]
  }

  lemma {:induction false} KidsNoRepeats(sessions: seq<Session>, from: seq<Session>, path: string)
    requires NoRepeats(from)
    ensures NoRepeats(Kids(sessions, from, path))
  {
    if from != [] {
      KidsNoRepeats(sessions, from[1..], path);
      KidsElements(sessions, from[1..], path);
      assert from[0] !in from[1..];
    }
  }

  lemma {:induction false} RootsNoRepeats(sessions: seq<Session>, from: seq<Session>)
    requires NoRepeats(from)
    ensures NoRepeats(Roots(sessions, from))
  {
    if from != [] {
      RootsNoRepeats(sessions, from[1..]);
      RootsElements(sessions, from[1..]);
      assert from[0] !in from[1..];
    }
  }

  lemma {:induction false} InsertNoRepeats(x: Session, s: seq<Session>)
    requires NoRepeats(s) && x !in s
    ensures NoRepeats(Insert(MoreRecent, x, s)) && forall y :: y in Insert(MoreRecent, x, s) <==> y == x || y in s
  {
    if s != [] && !MoreRecent(x, s[0]) {
      assert s[0] !in s[1..];
      InsertNoRepeats(x, s[1..]);
    }
  }

  lemma {:induction false} SortNoRepeats(s: seq<Session>)
    requires NoRepeats(s)
    ensures NoRepeats(Sort(MoreRecent, s))
  {
    if s != [] {
      SortNoRepeats(s[1..]);
      SortElements(s[1..]);
      assert s[0] !in s[1..];
      InsertNoRepeats(s[0], Sort(MoreRecent, s[1..]));
    }
  }

  lemma SessionsNoRepeats(sessions: seq<Session>)
    requires DistinctPaths(sessions)
    ensures NoRepeats(sessions)
  {
  }

  /** The children of a session, each once and the most recent first. */
  ghost predicate AreKids(sessions: seq<Session>, ss: seq<Session>, p: Session) {
    && (forall s :: s in ss <==> s in sessions && IsParent(sessions, p, s))
    && NoRepeats(ss) && IsSorted(MoreRecent, ss)
  }

  ghost predicate KinOk(sessions: seq<Session>, kids: Kin) {
    forall p | p in sessions :: AreKids(sessions, kids(p.path), p)
  }

  lemma SortedKidsAreKids(sessions: seq<Session>, p: Session)
    requires DistinctPaths(sessions) && p in sessions
    ensures AreKids(sessions, SortedKids(sessions, p.path), p)
  {
    KidsElements(sessions, sessions, p.path);
    SortElements(Kids(sessions, sessions, p.path));
    forall s | s in sessions ensures s in SortedKids(sessions, p.path) <==> IsParent(sessions, p, s) {
      if IsParent(sessions, p, s) { ParentIsNoRoot(sessions, p, s); } else { NoParentNoKid(sessions, p, s); }
    }
    SessionsNoRepeats(sessions);
    KidsNoRepeats(sessions, sessions, p.path);
    SortNoRepeats(Kids(sessions, sessions, p.path));
    RecentIsPreorder();
    SortSorts(MoreRecent, Kids(sessions, sessions, p.path));
  }

  lemma NoParentNoKid(sessions: seq<Session>, p: Session, s: Session)
    requires p in sessions && !IsParent(sessions, p, s)
    ensures IsRoot(sessions, s) || s.parent != Some(p.path)
  {
  }

  lemma KinOfIsOk(sessions: seq<Session>)
    requires DistinctPaths(sessions)
    ensures KinOk(sessions, KinOf(sessions))
  {
    forall p | p in sessions ensures AreKids(sessions, KinOf(sessions)(p.path), p) {
      SortedKidsAreKids(sessions, p);
    }
  }

  lemma KidsAtLevel(sessions: seq<Session>, kids: Kin, p: Session, depth: nat)
    requires KinOk(sessions, kids) && AtLevel(sessions, p, depth)
    ensures AllAtLevel(sessions, kids(p.path), depth + 1)
  {
    assert AreKids(sessions, kids(p.path), p);
    forall c | c in kids(p.path) ensures AtLevel(sessions, c, depth + 1) {
      assert IsParent(sessions, p, c);
    }
  }

  ghost predicate AllAtLevel(sessions: seq<Session>, ss: seq<Session>, depth: nat) {
    forall s | s in ss :: AtLevel(sessions, s, depth)
  }

  lemma {:induction false} ForestConcat(kids: Kin, a: seq<Session>, b: seq<Session>, depth: nat, levels: nat)
    ensures Forest(kids, a + b, depth, levels) == Forest(kids, a, depth, levels) + Forest(kids, b, depth, levels)
    decreases |a|
  {
    if a == [] {
      assert a + b == b;
    } else if levels > 0 {
      assert (a + b)[1..] == a[1..] + b;
      ForestConcat(kids, a[1..], b, depth, levels);
    }
  }

  lemma {:induction false} KidsAppend(sessions: seq<Session>, from: seq<Session>, s: Session, path: string)
    ensures Kids(sessions, from + [s], path)
            == Kids(sessions, from, path) + (if !IsRoot(sessions, s) && s.parent == Some(path) then [s] else [])
  {
    if from == [] {
      assert from + [s] == [s];
    } else {
      ConcatHead(from, [s]);
      KidsAppend(sessions, from[1..], s, path);
      AppendAssoc(if !IsRoot(sessions, from[0]) && from[0].parent == Some(path) then [from[0]] else [],
                  Kids(sessions, from[1..], path),
                  if !IsRoot(sessions, s) && s.parent == Some(path) then [s] else []);
    }
  }

  lemma {:induction false} RootsAppend(sessions: seq<Session>, from: seq<Session>, s: Session)
    ensures Roots(sessions, from + [s]) == Roots(sessions, from) + (if IsRoot(sessions, s) then [s] else [])
  {
    if from == [] {
      assert from + [s] == [s];
    } else {
      ConcatHead(from, [s]);
      RootsAppend(sessions, from[1..], s);
      AppendAssoc(if IsRoot(sessions, from[0]) then [from[0]] else [], Roots(sessions, from[1..]),
                  if IsRoot(sessions, s) then [s] else []);
    }
  }

  function KidsIn(children: map<string, seq<Session>>, path: string): seq<Session> {
    if path in children then children[path] else []
  }

  ghost predicate Grouped(children: map<string, seq<Session>>, sessions: seq<Session>, from: seq<Session>) {
    forall path :: KidsIn(children, path) == Kids(sessions, from, path)
  }

  lemma GroupChild(children: map<string, seq<Session>>, sessions: seq<Session>, from: seq<Session>, s: Session)
    requires Grouped(children, sessions, from)
    ensures !IsRoot(sessions, s) ==> var parent := s.parent.value;
              Grouped(children[parent := KidsIn(children, parent) + [s]], sessions, from + [s])
    ensures IsRoot(sessions, s) ==> Grouped(children, sessions, from + [s])
  {
    forall path ensures Kids(sessions, from + [s], path)
        == KidsIn(children, path) + (if !IsRoot(sessions, s) && s.parent == Some(path) then [s] else [])
    {
      KidsAppend(sessions, from, s, path);
    }
  }

  method Group(sessions: seq<Session>) returns (children: map<string, seq<Session>>, roots: seq<Session>)
    ensures roots == Roots(sessions, sessions) && Grouped(children, sessions, sessions)
  {
    children, roots := map[], [];
    var paths := set s | s in sessions :: s.path;
    for i := 0 to |sessions|
      invariant roots == Roots(sessions, sessions[..i]) && Grouped(children, sessions, sessions[..i])
    {
      var s := sessions[i];
      assert sessions[..i + 1] == sessions[..i] + [s];
      RootsAppend(sessions, sessions[..i], s);
      GroupChild(children, sessions, sessions[..i], s);
      PathsAreHas(sessions, s.parent.GetOr(""), paths);
      if s.parent.None? || s.parent.value == "" || s.parent.value !in paths {
        roots := roots + [s];
      } else {
        var parent := s.parent.value;
        children := children[parent := KidsIn(children, parent) + [s]];
      }
    }
    TakeAll(sessions);
  }

  lemma PathsAreHas(sessions: seq<Session>, path: string, paths: set<string>)
    requires paths == set s | s in sessions :: s.path
    ensures path in paths <==> HasPath(sessions, path)
  {
    if HasPath(sessions, path) {
      var i :| 0 <= i < |sessions| && sessions[i].path == path;
      assert sessions[i] in sessions;
    }
  }

  lemma ForestOne(kids: Kin, s: Session, depth: nat, levels: nat)
    requires levels > 0
    ensures Forest(kids, [s], depth, levels)
            == [PickerSession(s, depth)] + Forest(kids, kids(s.path), depth + 1, levels - 1)
  {
    var below := [PickerSession(s, depth)] + Forest(kids, kids(s.path), depth + 1, levels - 1);
    assert below + [] == below;
  }

  lemma ForestNext(kids: Kin, ss: seq<Session>, i: nat, depth: nat, levels: nat)
    requires i < |ss|
    ensures Forest(kids, ss[..i + 1], depth, levels)
            == Forest(kids, ss[..i], depth, levels) + Forest(kids, [ss[i]], depth, levels)
  {
    TakeNext(ss, i);
    ForestConcat(kids, ss[..i], [ss[i]], depth, levels);
  }

  /** The grouped children, once sorted, are those of `kids`. */
  ghost predicate Serves(children: map<string, seq<Session>>, kids: Kin) {
    forall path {:trigger KidsIn(children, path)} :: Sort(MoreRecent, KidsIn(children, path)) == kids(path)
  }

  /** Pushes a session and, recursively, what is below it; `levels` are left for it and its descendants. */
  method Visit(ghost sessions: seq<Session>, ghost kids: Kin, children: map<string, seq<Session>>,
               session: Session, depth: nat, ghost levels: nat, result: seq<PickerSession>) returns (r: seq<PickerSession>)
    requires DistinctPaths(sessions) && KinOk(sessions, kids) && Serves(children, kids)
    requires depth + levels == |sessions| && levels > 0 && AtLevel(sessions, session, depth)
    ensures r == result + Forest(kids, [session], depth, levels)
    decreases levels, 0
  {
    var below := Sort(MoreRecent, KidsIn(children, session.path));
    KidsAtLevel(sessions, kids, session, depth);
    r := VisitAll(sessions, kids, children, below, depth + 1, levels - 1, result + [PickerSession(session, depth)]);
    ServedKids(children, kids, session.path);
    ForestBelow(kids, session, depth, levels, result);
  }

  lemma ServedKids(children: map<string, seq<Session>>, kids: Kin, path: string)
    requires Serves(children, kids)
    ensures Sort(MoreRecent, KidsIn(children, path)) == kids(path)
  {
  }

  /** A session followed by what is below it, appended to what has been listed. */
  lemma ForestBelow(kids: Kin, s: Session, depth: nat, levels: nat, result: seq<PickerSession>)
    requires levels > 0
    ensures result + [PickerSession(s, depth)] + Forest(kids, kids(s.path), depth + 1, levels - 1)
            == result + Forest(kids, [s], depth, levels)
  {
    ForestOne(kids, s, depth, levels);
    AppendAssoc(result, [PickerSession(s, depth)], Forest(kids, kids(s.path), depth + 1, levels - 1));
  }

  /** The loop over sessions of one level. */
  method VisitAll(ghost sessions: seq<Session>, ghost kids: Kin, children: map<string, seq<Session>>,
                  ss: seq<Session>, depth: nat, ghost levels: nat, result: seq<PickerSession>)
    returns (r: seq<PickerSession>)
    requires DistinctPaths(sessions) && KinOk(sessions, kids) && Serves(children, kids)
    requires depth + levels == |sessions| && AllAtLevel(sessions, ss, depth)
    ensures r == result + Forest(kids, ss, depth, levels)
    decreases levels, 1
  {
    r := result;
    ghost var done: seq<PickerSession> := [];
    for i := 0 to |ss|
      invariant r == result + done && done == Forest(kids, ss[..i], depth, levels)
    {
      LevelBound(sessions, ss[i], depth);
      ghost var next := Forest(kids, [ss[i]], depth, levels);
      r := Visit(sessions, kids, children, ss[i], depth, levels, r);
      AppendAssoc(result, done, next);
      ForestNext(kids, ss, i, depth, levels);
      done := done + next;
    }
    TakeAll(ss);
  }

  lemma RootsAtLevel(sessions: seq<Session>)
    ensures AllAtLevel(sessions, Sort(MoreRecent, Roots(sessions, sessions)), 0)
    ensures forall s :: s in Sort(MoreRecent, Roots(sessions, sessions)) <==> s in sessions && IsRoot(sessions, s)
  {
    RootsElements(sessions, sessions);
    SortElements(Roots(sessions, sessions));
  }

  method ThreadSessions(sessions: seq<Session>) returns (result: seq<PickerSession>)
    requires DistinctPaths(sessions)
    ensures result == Threaded(sessions)
  {
    var children, roots := Group(sessions);
    RootsAtLevel(sessions);
    KinOfIsOk(sessions);
    result := VisitAll(sessions, KinOf(sessions), children, Sort(MoreRecent, roots), 0, |sessions|, []);
  }
}
