/**
  listHostFiles over a fixed directory tree: the pruned walk that feeds a
  bounded heap returns the first `limit` paths, in sorted order, of all the
  entries that qualify.
 */
module FileListing {
  import opened Wrappers
  import opened Order
  import opened PathHeap
  import opened Sequences
  import GlobMatcher
  import StringOrder

  /** One entry of a directory, in the order the directory yields it. */
  datatype Entry = File(name: string) | Directory(name: string, children: seq<Entry>) | Other(name: string)

  datatype Options = Options(
    recursive: bool, maxDepth: Option<int>, limit: Option<int>,
    pattern: Option<string>, ignore: seq<string>,
    includeDirectories: bool, includeOther: bool)

  datatype Listing = Listed(paths: seq<string>) | InvalidBound

  const MAX_SAFE_INTEGER := 0x1F_FFFF_FFFF_FFFF

  /** validateListingBound: the bound, or its fallback, when it is acceptable. */
  function Bound(value: Option<int>, fallback: nat): Option<nat> {
    var resolved := value.GetOr(fallback);
    if 0 <= resolved <= MAX_SAFE_INTEGER then Some(resolved) else None
  }

  function DepthBound(o: Options): Option<nat> {
    Bound(o.maxDepth, if o.recursive then MAX_SAFE_INTEGER else 1)
  }

  function LimitBound(o: Options): Option<nat> {
    Bound(o.limit, MAX_SAFE_INTEGER)
  }

  function Join(directory: string, name: string): string {
    if directory == [] then name else directory + "/" + name
  }

  function Normalize(path: string): string {
    if path == [] then []
    else [if path[0] == '\\' then '/' else path[0]] + Normalize(path[1..])
  }

  predicate IsIgnored(path: string, directory: bool, ignore: seq<string>) {
    exists i | 0 <= i < |ignore| ::
      GlobMatcher.Means(ignore[i], Normalize(path))
      || (directory && GlobMatcher.Means(ignore[i], Normalize(path) + "/"))
  }

  predicate Selected(path: string, pattern: Option<string>) {
    pattern.None? || GlobMatcher.Means(pattern.value, Normalize(path))
  }

  // ----- what is to be listed -----

  /** An entry with its path, its depth and the directories above it. */
  datatype Node = Node(path: string, entry: Entry, depth: nat, above: seq<string>)

  /** Every entry below a directory, in the order the directories yield them. */
  function AllNodes(directory: string, depth: nat, above: seq<string>, entries: seq<Entry>): seq<Node>
    decreases entries
  {
    if entries == [] then []
    else NodesOf(directory, depth, above, entries[0]) + AllNodes(directory, depth, above, entries[1..])
  }

  function NodesOf(directory: string, depth: nat, above: seq<string>, entry: Entry): seq<Node>
    decreases entry
  {
    var path := Join(directory, entry.name);
    [Node(path, entry, depth + 1, above)]
    + if entry.Directory? then AllNodes(path, depth + 1, above + [path], entry.children) else []
  }

  /**
    An entry qualifies when its kind is wanted, it is within the depth, it
    matches the pattern, and neither it nor any directory above it is ignored.
   */
  predicate Qualifies(n: Node, o: Options, maximumDepth: nat) {
    && (n.entry.File? || (n.entry.Directory? && o.includeDirectories) || (n.entry.Other? && o.includeOther))
    && n.depth <= maximumDepth && (o.recursive || n.depth <= 1)
    && Selected(n.path, o.pattern)
    && !IsIgnored(n.path, n.entry.Directory?, o.ignore)
    && forall i | 0 <= i < |n.above| :: !IsIgnored(n.above[i], true, o.ignore)
  }

  function QualifyingPaths(nodes: seq<Node>, o: Options, maximumDepth: nat): seq<string> {
    if nodes == [] then []
    else (if Qualifies(nodes[0], o, maximumDepth) then [nodes[0].path] else [])
         + QualifyingPaths(nodes[1..], o, maximumDepth)
  }

  function Take(s: seq<string>, n: nat): seq<string> {
    if |s| <= n then s else s[..n]
  }

  /** The first `limit` of the sorted qualifying paths, all of them for the largest limit, or a bad bound. */
  function ListingOf(root: seq<Entry>, o: Options): Listing {
    if DepthBound(o).None? || LimitBound(o).None? then InvalidBound
    else
      var all := Sort(StringOrder.Leq, QualifyingPaths(AllNodes([], 0, [], root), o, DepthBound(o).value));
      Listed(if LimitBound(o).value == MAX_SAFE_INTEGER then all else Take(all, LimitBound(o).value))
  }

  // ----- the pruned walk -----

  function Walk(directory: string, depth: nat, entries: seq<Entry>, o: Options, maximumDepth: nat): seq<string>
    decreases entries
  {
    if entries == [] then []
    else WalkEntry(directory, depth, entries[0], o, maximumDepth)
         + Walk(directory, depth, entries[1..], o, maximumDepth)
  }

  function WalkEntry(directory: string, depth: nat, entry: Entry, o: Options, maximumDepth: nat): seq<string>
    decreases entry
  {
    var path := Join(directory, entry.name);
    if (entry.Other? && !o.includeOther) || IsIgnored(path, entry.Directory?, o.ignore) then []
    else
      (if (entry.Directory? ==> o.includeDirectories) && Selected(path, o.pattern) then [path] else [])
      + (if entry.Directory? && o.recursive && depth + 1 < maximumDepth
         then Walk(path, depth + 1, entry.children, o, maximumDepth) else [])
  }

  lemma {:induction false} QualifyingConcat(a: seq<Node>, b: seq<Node>, o: Options, maximumDepth: nat)
    ensures QualifyingPaths(a + b, o, maximumDepth)
            == QualifyingPaths(a, o, maximumDepth) + QualifyingPaths(b, o, maximumDepth)
  {
    if a == [] {
      assert a + b == b;
    } else {
      assert (a + b)[1..] == a[1..] + b;
      QualifyingConcat(a[1..], b, o, maximumDepth);
    }
  }

  ghost predicate Closed(depth: nat, above: seq<string>, o: Options, maximumDepth: nat) {
    || depth + 1 > maximumDepth
    || (depth > 0 && !o.recursive)
    || exists i | 0 <= i < |above| :: IsIgnored(above[i], true, o.ignore)
  }

  /** Nothing below a directory that is too deep, or under an ignored one, qualifies. */
  lemma {:induction false} NothingBelow(directory: string, depth: nat, above: seq<string>, entries: seq<Entry>,
                                        o: Options, maximumDepth: nat)
    requires Closed(depth, above, o, maximumDepth)
    ensures QualifyingPaths(AllNodes(directory, depth, above, entries), o, maximumDepth) == []
    decreases entries, 1
  {
    if entries != [] {
      NothingFrom(directory, depth, above, entries[0], o, maximumDepth);
      NothingBelow(directory, depth, above, entries[1..], o, maximumDepth);
      QualifyingConcat(NodesOf(directory, depth, above, entries[0]),
                       AllNodes(directory, depth, above, entries[1..]), o, maximumDepth);
    }
  }

  lemma {:induction false} NothingFrom(directory: string, depth: nat, above: seq<string>, entry: Entry, o: Options,
                                       maximumDepth: nat)
    requires Closed(depth, above, o, maximumDepth)
    ensures QualifyingPaths(NodesOf(directory, depth, above, entry), o, maximumDepth) == []
    decreases entry, 0
  {
    var path := Join(directory, entry.name);
    if entry.Directory? {
      if i :| 0 <= i < |above| && IsIgnored(above[i], true, o.ignore) {
        assert (above + [path])[i] == above[i];
      }
      NothingBelow(path, depth + 1, above + [path], entry.children, o, maximumDepth);
    }
    var here := [Node(path, entry, depth + 1, above)];
    assert QualifyingPaths(here, o, maximumDepth) == [];
    QualifyingConcat(here, if entry.Directory? then AllNodes(path, depth + 1, above + [path], entry.children) else [],
                     o, maximumDepth);
  }

  ghost predicate Open(depth: nat, above: seq<string>, o: Options, maximumDepth: nat) {
    && depth + 1 <= maximumDepth
    && (depth > 0 ==> o.recursive)
    && forall i | 0 <= i < |above| :: !IsIgnored(above[i], true, o.ignore)
  }

  /** Pruning loses nothing: the walk finds exactly the qualifying entries, in order. */
  lemma {:induction false} WalkFindsQualifying(directory: string, depth: nat, above: seq<string>,
                                               entries: seq<Entry>, o: Options, maximumDepth: nat)
    requires Open(depth, above, o, maximumDepth)
    ensures Walk(directory, depth, entries, o, maximumDepth)
            == QualifyingPaths(AllNodes(directory, depth, above, entries), o, maximumDepth)
    decreases entries, 1
  {
    if entries != [] {
      WalkEntryFinds(directory, depth, above, entries[0], o, maximumDepth);
      WalkFindsQualifying(directory, depth, above, entries[1..], o, maximumDepth);
      QualifyingConcat(NodesOf(directory, depth, above, entries[0]),
                       AllNodes(directory, depth, above, entries[1..]), o, maximumDepth);
    }
  }

  lemma {:induction false} WalkEntryFinds(directory: string, depth: nat, above: seq<string>, entry: Entry,
                                          o: Options, maximumDepth: nat)
    requires Open(depth, above, o, maximumDepth)
    ensures WalkEntry(directory, depth, entry, o, maximumDepth)
            == QualifyingPaths(NodesOf(directory, depth, above, entry), o, maximumDepth)
    decreases entry, 0
  {
    var path := Join(directory, entry.name);
    var here := [Node(path, entry, depth + 1, above)];
    if entry.Directory? {
      var below := above + [path];
      assert below[|above|] == path;
      if IsIgnored(path, true, o.ignore) || !(o.recursive && depth + 1 < maximumDepth) {
        NothingBelow(path, depth + 1, below, entry.children, o, maximumDepth);
      } else {
        WalkFindsQualifying(path, depth + 1, below, entry.children, o, maximumDepth);
      }
    }
    QualifyingConcat(here, if entry.Directory? then AllNodes(path, depth + 1, above + [path], entry.children) else [],
                     o, maximumDepth);
    assert QualifyingPaths(here, o, maximumDepth)
        == (if Qualifies(here[0], o, maximumDepth) then [path] else []);
  }

  // ----- the imperative listing -----

  /** What has been collected: in the bounded heap when there is one, else in `results`. */
  ghost function Collected(candidates: BoundedPathHeap?, results: seq<string>): seq<string>
    reads candidates
  {
    if candidates != null then candidates.pushed else results
  }

  ghost predicate Ready(candidates: BoundedPathHeap?)
    reads candidates
  {
    candidates != null ==> candidates.Valid()
  }

  /** Adds a path to the bounded heap, or to the list when there is no limit. */
  method AddResult(path: string, candidates: BoundedPathHeap?, found: seq<string>) returns (results: seq<string>)
    requires Ready(candidates)
    modifies candidates
    ensures Ready(candidates)
    ensures Collected(candidates, results) == old(Collected(candidates, found)) + [path]
  {
    results := found;
    if candidates != null {
      candidates.Push(path);
    } else {
      results := results + [path];
    }
  }

  /** Visits the entries of a directory in the order it yields them, and what is below them. */
  method VisitDirectory(directory: string, depth: nat, entries: seq<Entry>, o: Options, maximumDepth: nat,
                        candidates: BoundedPathHeap?, found: seq<string>)
    returns (results: seq<string>)
    requires Ready(candidates)
    modifies candidates
    ensures Ready(candidates)
    ensures Collected(candidates, results)
            == old(Collected(candidates, found)) + Walk(directory, depth, entries, o, maximumDepth)
    decreases entries, 1
  {
    results := found;
    ghost var start := Collected(candidates, found);
    for i := 0 to |entries|
      invariant Ready(candidates)
      invariant Collected(candidates, results) + Walk(directory, depth, entries[i..], o, maximumDepth)
                == start + Walk(directory, depth, entries, o, maximumDepth)
    {
      assert entries[i..][0] == entries[i] && entries[i..][1..] == entries[i + 1..];
      results := VisitEntry(directory, depth, entries[i], o, maximumDepth, candidates, results);
    }
  }

  /** The body of visitDirectory's loop. */
  method VisitEntry(directory: string, depth: nat, entry: Entry, o: Options, maximumDepth: nat,
                    candidates: BoundedPathHeap?, found: seq<string>)
    returns (results: seq<string>)
    requires Ready(candidates)
    modifies candidates
    ensures Ready(candidates)
    ensures Collected(candidates, results)
            == old(Collected(candidates, found)) + WalkEntry(directory, depth, entry, o, maximumDepth)
    decreases entry, 0
  {
    results := found;
    var path := Join(directory, entry.name);
    var skipped := (entry.Other? && !o.includeOther) || IsIgnored(path, entry.Directory?, o.ignore);
    var wanted := (entry.Directory? ==> o.includeDirectories) && Selected(path, o.pattern);
    WalkEntryCases(directory, depth, entry, o, maximumDepth, skipped, wanted);
    ghost var start := Collected(candidates, found);
    if skipped {
      return;
    }
    if wanted {
      results := AddResult(path, candidates, results);
    }
    ghost var here := if wanted then [path] else [];
    assert Collected(candidates, results) == start + here;
    if entry.Directory? && o.recursive && depth + 1 < maximumDepth {
      AppendAssoc(start, here, Walk(path, depth + 1, entry.children, o, maximumDepth));
      results := VisitDirectory(path, depth + 1, entry.children, o, maximumDepth, candidates, results);
    }
  }

  /** The definition of WalkEntry, with its tests evaluated. */
  lemma WalkEntryCases(directory: string, depth: nat, entry: Entry, o: Options, maximumDepth: nat, skipped: bool,
                       wanted: bool)
    requires skipped == ((entry.Other? && !o.includeOther) || IsIgnored(Join(directory, entry.name), entry.Directory?, o.ignore))
    requires wanted == ((entry.Directory? ==> o.includeDirectories) && Selected(Join(directory, entry.name), o.pattern))
    ensures var path := Join(directory, entry.name);
            var here := if wanted then [path] else [];
            WalkEntry(directory, depth, entry, o, maximumDepth)
            == if skipped then []
               else if entry.Directory? && o.recursive && depth + 1 < maximumDepth
               then here + Walk(path, depth + 1, entry.children, o, maximumDepth)
               else here
  {
  }

  lemma NothingListed(root: seq<Entry>, o: Options)
    requires DepthBound(o).Some? && LimitBound(o).Some?
    requires DepthBound(o).value == 0 || LimitBound(o).value == 0
    ensures ListingOf(root, o) == Listed([])
  {
    if DepthBound(o).value == 0 {
      NothingBelow([], 0, [], root, o, 0);
    }
  }

  lemma ListingIsWalk(root: seq<Entry>, o: Options)
    requires DepthBound(o).Some? && LimitBound(o).Some? && DepthBound(o).value > 0
    ensures var all := Sort(StringOrder.Leq, Walk([], 0, root, o, DepthBound(o).value));
            ListingOf(root, o) == Listed(if LimitBound(o).value == MAX_SAFE_INTEGER then all else Take(all, LimitBound(o).value))
  {
    WalkFindsQualifying([], 0, [], root, o, DepthBound(o).value);
  }

  /**
    For every tree and every option set: the first `limit` paths of the sorted
    list of all qualifying entries (the largest limit means no limit), or an
    error exactly for a bad bound.
   */
  method ListHostFiles(root: seq<Entry>, o: Options) returns (r: Listing)
    ensures r == ListingOf(root, o)
  {
    var depthBound, limitBound := DepthBound(o), LimitBound(o);
    if depthBound.None? || limitBound.None? {
      return InvalidBound;
    }
    var maximumDepth, limit := depthBound.value, limitBound.value;
    if maximumDepth == 0 || limit == 0 {
      NothingListed(root, o);
      return Listed([]);
    }
    StringOrder.LeqIsTotalOrder();
    ListingIsWalk(root, o);
    var results;
    if limit == MAX_SAFE_INTEGER {
      results := VisitDirectory([], 0, root, o, maximumDepth, null, []);
      assert results == Walk([], 0, root, o, maximumDepth);
    } else {
      var candidates := new BoundedPathHeap(limit, StringOrder.Leq);
      var _ := VisitDirectory([], 0, root, o, maximumDepth, candidates, []);
      results := candidates.entries;
      candidates.ValuesAreSmallest();
      assert candidates.pushed == Walk([], 0, root, o, maximumDepth);
    }
    return Listed(Sort(StringOrder.Leq, results));
  }

  // ----- the order of directories -----

  function Without<T>(s: seq<T>, i: nat): seq<T>
    requires i < |s|
  {
    s[..i] + s[i + 1..]
  }

  lemma WithoutElements<T>(s: seq<T>, i: nat)
    requires i < |s|
    ensures multiset(Without(s, i)) == multiset(s) - multiset{s[i]}
  {
    assert s == s[..i] + [s[i]] + s[i + 1..];
  }

  /** The same entries, and below directories again the same, each directory yielding them in any order. */
  ghost predicate SameTrees(a: seq<Entry>, b: seq<Entry>)
    decreases a, 1
  {
    if a == [] then b == []
    else exists i | 0 <= i < |b| :: SameEntry(a[0], b[i]) && SameTrees(a[1..], Without(b, i))
  }

  ghost predicate SameEntry(x: Entry, y: Entry)
    decreases x, 0
  {
    if x.Directory? then y.Directory? && x.name == y.name && SameTrees(x.children, y.children) else x == y
  }

  lemma {:induction false} EntryIsItself(x: Entry)
    ensures SameEntry(x, x)
    decreases x, 0
  {
    if x.Directory? { PermutedTrees(x.children, x.children); }
  }

  /** In particular, a directory may yield its entries in any order. */
  lemma {:induction false} PermutedTrees(a: seq<Entry>, b: seq<Entry>)
    requires multiset(a) == multiset(b)
    ensures SameTrees(a, b)
    decreases a, 1
  {
    if a == [] {
      assert |multiset(b)| == |b|;
    } else {
      assert a[0] in multiset(a);
      var i :| 0 <= i < |b| && b[i] == a[0];
      EntryIsItself(a[0]);
      WithoutElements(a, 0);
      WithoutElements(b, i);
      assert Without(a, 0) == a[1..];
      PermutedTrees(a[1..], Without(b, i));
    }
  }

  lemma {:induction false} NodesConcat(directory: string, depth: nat, above: seq<string>, a: seq<Entry>, b: seq<Entry>)
    ensures AllNodes(directory, depth, above, a + b)
            == AllNodes(directory, depth, above, a) + AllNodes(directory, depth, above, b)
  {
    if a == [] {
      assert a + b == b;
    } else {
      assert (a + b)[1..] == a[1..] + b;
      NodesConcat(directory, depth, above, a[1..], b);
    }
  }

  /** What qualifies of the entries of a directory, entry by entry. */
  ghost function Found(directory: string, depth: nat, above: seq<string>, entries: seq<Entry>, o: Options,
                       maximumDepth: nat): multiset<string>
  {
    multiset(QualifyingPaths(AllNodes(directory, depth, above, entries), o, maximumDepth))
  }

  lemma FoundSplit(directory: string, depth: nat, above: seq<string>, entries: seq<Entry>, i: nat, o: Options,
                   maximumDepth: nat)
    requires i < |entries|
    ensures Found(directory, depth, above, entries, o, maximumDepth)
            == multiset(QualifyingPaths(NodesOf(directory, depth, above, entries[i]), o, maximumDepth))
               + Found(directory, depth, above, Without(entries, i), o, maximumDepth)
  {
    var before, here, after := entries[..i], [entries[i]], entries[i + 1..];
    assert entries == before + (here + after);
    NodesConcat(directory, depth, above, before, here + after);
    NodesConcat(directory, depth, above, here, after);
    NodesConcat(directory, depth, above, before, after);
    assert AllNodes(directory, depth, above, here) == NodesOf(directory, depth, above, entries[i]);
    var x, y, z := AllNodes(directory, depth, above, before), AllNodes(directory, depth, above, here),
                   AllNodes(directory, depth, above, after);
    QualifyingConcat(x, y + z, o, maximumDepth);
    QualifyingConcat(y, z, o, maximumDepth);
    QualifyingConcat(x, z, o, maximumDepth);
  }

  lemma {:induction false} SameTreesFound(directory: string, depth: nat, above: seq<string>, a: seq<Entry>,
                                          b: seq<Entry>, o: Options, maximumDepth: nat)
    requires SameTrees(a, b)
    ensures Found(directory, depth, above, a, o, maximumDepth) == Found(directory, depth, above, b, o, maximumDepth)
    decreases a, 1
  {
    if a != [] {
      var i :| 0 <= i < |b| && SameEntry(a[0], b[i]) && SameTrees(a[1..], Without(b, i));
      SameEntryFound(directory, depth, above, a[0], b[i], o, maximumDepth);
      SameTreesFound(directory, depth, above, a[1..], Without(b, i), o, maximumDepth);
      SamePartsFound(directory, depth, above, a, b, i, o, maximumDepth);
    }
  }

  lemma SamePartsFound(directory: string, depth: nat, above: seq<string>, a: seq<Entry>, b: seq<Entry>, i: nat,
                       o: Options, maximumDepth: nat)
    requires a != [] && i < |b|
    requires multiset(QualifyingPaths(NodesOf(directory, depth, above, a[0]), o, maximumDepth))
             == multiset(QualifyingPaths(NodesOf(directory, depth, above, b[i]), o, maximumDepth))
    requires Found(directory, depth, above, a[1..], o, maximumDepth)
             == Found(directory, depth, above, Without(b, i), o, maximumDepth)
    ensures Found(directory, depth, above, a, o, maximumDepth) == Found(directory, depth, above, b, o, maximumDepth)
  {
    assert Without(a, 0) == a[1..];
    FoundSplit(directory, depth, above, a, 0, o, maximumDepth);
    FoundSplit(directory, depth, above, b, i, o, maximumDepth);
  }

  lemma {:induction false} SameEntryFound(directory: string, depth: nat, above: seq<string>, x: Entry, y: Entry,
                                          o: Options, maximumDepth: nat)
    requires SameEntry(x, y)
    ensures multiset(QualifyingPaths(NodesOf(directory, depth, above, x), o, maximumDepth))
            == multiset(QualifyingPaths(NodesOf(directory, depth, above, y), o, maximumDepth))
    decreases x, 0
  {
    if x.Directory? {
      var path := Join(directory, x.name);
      SameTreesFound(path, depth + 1, above + [path], x.children, y.children, o, maximumDepth);
      DirectoryFound(directory, depth, above, x, o, maximumDepth);
      DirectoryFound(directory, depth, above, y, o, maximumDepth);
      var here, there := Node(path, x, depth + 1, above), Node(path, y, depth + 1, above);
      assert Qualifies(here, o, maximumDepth) == Qualifies(there, o, maximumDepth);
    }
  }

  lemma DirectoryFound(directory: string, depth: nat, above: seq<string>, x: Entry, o: Options, maximumDepth: nat)
    requires x.Directory?
    ensures var path := Join(directory, x.name);
            QualifyingPaths(NodesOf(directory, depth, above, x), o, maximumDepth)
            == (if Qualifies(Node(path, x, depth + 1, above), o, maximumDepth) then [path] else [])
               + QualifyingPaths(AllNodes(path, depth + 1, above + [path], x.children), o, maximumDepth)
  {
    var path := Join(directory, x.name);
    var here := [Node(path, x, depth + 1, above)];
    QualifyingConcat(here, AllNodes(path, depth + 1, above + [path], x.children), o, maximumDepth);
    assert QualifyingPaths(here, o, maximumDepth)
        == (if Qualifies(here[0], o, maximumDepth) then [path] else []);
  }

  /** The listing does not depend on the order in which directories yield their entries, at any level. */
  lemma ListingIgnoresOrder(a: seq<Entry>, b: seq<Entry>, o: Options)
    requires SameTrees(a, b)
    ensures ListingOf(a, o) == ListingOf(b, o)
  {
    if DepthBound(o).Some? && LimitBound(o).Some? {
      SameTreesFound([], 0, [], a, b, o, DepthBound(o).value);
      SameElementsSortAlike(QualifyingPaths(AllNodes([], 0, [], a), o, DepthBound(o).value),
                            QualifyingPaths(AllNodes([], 0, [], b), o, DepthBound(o).value));
    }
  }

  lemma SameElementsSortAlike(a: seq<string>, b: seq<string>)
    requires multiset(a) == multiset(b)
    ensures Sort(StringOrder.Leq, a) == Sort(StringOrder.Leq, b)
  {
    StringOrder.LeqIsTotalOrder();
    SortSorts(StringOrder.Leq, a);
    SortSorts(StringOrder.Leq, b);
    SortedUnique(StringOrder.Leq, Sort(StringOrder.Leq, a), Sort(StringOrder.Leq, b));
  }

  // ----- what is listed -----

  /** An ignore pattern means the path, or, of a directory, the path with a slash. */
  predicate IgnoredBy(pattern: string, path: string, directory: bool) {
    var slashed := Slashed(path);
    GlobMatcher.Means(pattern, slashed) || (directory && GlobMatcher.Means(pattern, slashed + "/"))
  }

  /** The path with its backslashes turned. */
  function Slashed(path: string): (r: string)
    ensures |r| == |path| && forall i | 0 <= i < |r| :: r[i] == (if path[i] == '\\' then '/' else path[i])
  {
    seq(|path|, i requires 0 <= i < |path| => if path[i] == '\\' then '/' else path[i])
  }

  lemma {:induction false} NormalizeSlashes(path: string)
    ensures Normalize(path) == Slashed(path)
  {
    if path != [] {
      NormalizeSlashes(path[1..]);
      assert path == [path[0]] + path[1..];
    }
  }

  /** The entry is to be listed: of a wanted kind, deep enough and no deeper, meant by the pattern, and ignored by nothing. */
  ghost predicate Wanted(n: Node, o: Options) {
    && (n.entry.Directory? ==> o.includeDirectories) && (n.entry.Other? ==> o.includeOther)
    && n.depth <= o.maxDepth.GetOr(if o.recursive then 0x1F_FFFF_FFFF_FFFF else 1) && (n.depth > 1 ==> o.recursive)
    && (o.pattern.Some? ==> GlobMatcher.Means(o.pattern.value, Slashed(n.path)))
    && (forall p <- o.ignore :: !IgnoredBy(p, n.path, n.entry.Directory?))
    && (forall p <- o.ignore, d <- n.above :: !IgnoredBy(p, d, true))
  }

  lemma IgnoredAsTold(path: string, directory: bool, ignore: seq<string>)
    ensures IsIgnored(path, directory, ignore) <==> exists p <- ignore :: IgnoredBy(p, path, directory)
  {
    NormalizeSlashes(path);
    forall i | 0 <= i < |ignore|
      ensures IgnoredBy(ignore[i], path, directory) <==>
        GlobMatcher.Means(ignore[i], Normalize(path)) || (directory && GlobMatcher.Means(ignore[i], Normalize(path) + "/"))
    {}
    if IsIgnored(path, directory, ignore) {
      var i :| 0 <= i < |ignore| && (GlobMatcher.Means(ignore[i], Normalize(path))
                                     || (directory && GlobMatcher.Means(ignore[i], Normalize(path) + "/")));
      assert ignore[i] in ignore && IgnoredBy(ignore[i], path, directory);
    }
  }

  lemma QualifiesAsTold(n: Node, o: Options)
    requires DepthBound(o).Some?
    ensures Qualifies(n, o, DepthBound(o).value) <==> Wanted(n, o)
  {
    NormalizeSlashes(n.path);
    IgnoredAsTold(n.path, n.entry.Directory?, o.ignore);
    forall d <- n.above { IgnoredAsTold(d, true, o.ignore); }
  }

  lemma {:induction false} QualifyingMembers(nodes: seq<Node>, o: Options, path: string)
    requires DepthBound(o).Some?
    ensures path in QualifyingPaths(nodes, o, DepthBound(o).value) <==> exists n <- nodes :: n.path == path && Wanted(n, o)
  {
    if nodes != [] {
      QualifyingMembers(nodes[1..], o, path);
      QualifiesAsTold(nodes[0], o);
      assert forall n :: n in nodes <==> n == nodes[0] || n in nodes[1..];
    }
  }

  lemma SortKeepsMembers(paths: seq<string>, path: string)
    ensures path in Sort(StringOrder.Leq, paths) <==> path in paths
  {
    StringOrder.LeqIsTotalOrder();
    SortSorts(StringOrder.Leq, paths);
    assert path in Sort(StringOrder.Leq, paths) <==> path in multiset(Sort(StringOrder.Leq, paths));
    assert path in paths <==> path in multiset(paths);
  }

  /**
    A bound that is no safe natural number is an error. Without a limit a path is listed exactly
    when some entry of the tree with this path is wanted.
   */
  lemma ListedIffWanted(root: seq<Entry>, o: Options, path: string)
    requires o.limit.None?
    ensures ListingOf(root, o).InvalidBound? <==> o.maxDepth.Some? && !(0 <= o.maxDepth.value <= 0x1F_FFFF_FFFF_FFFF)
    ensures ListingOf(root, o).Listed? ==>
      (path in ListingOf(root, o).paths <==> exists n <- AllNodes([], 0, [], root) :: n.path == path && Wanted(n, o))
  {
    if DepthBound(o).Some? {
      var found := QualifyingPaths(AllNodes([], 0, [], root), o, DepthBound(o).value);
      QualifyingMembers(AllNodes([], 0, [], root), o, path);
      SortKeepsMembers(found, path);
    }
  }

  /** A limit keeps the first paths of the listing without one, and must be a safe natural number. */
  lemma LimitKeepsFirst(root: seq<Entry>, o: Options, limit: int)
    requires ListingOf(root, o.(limit := None)).Listed?
    ensures var all, r := ListingOf(root, o.(limit := None)).paths, ListingOf(root, o.(limit := Some(limit)));
            if !(0 <= limit <= 0x1F_FFFF_FFFF_FFFF) then r.InvalidBound?
            else r == Listed(if limit < |all| && limit < 0x1F_FFFF_FFFF_FFFF then all[..limit] else all)
  {
    LimitQualifiesNothing(AllNodes([], 0, [], root), o, Some(limit), DepthBound(o).value);
    LimitQualifiesNothing(AllNodes([], 0, [], root), o, None, DepthBound(o).value);
  }

  lemma {:induction false} LimitQualifiesNothing(nodes: seq<Node>, o: Options, limit: Option<int>, maximumDepth: nat)
    ensures QualifyingPaths(nodes, o.(limit := limit), maximumDepth) == QualifyingPaths(nodes, o, maximumDepth)
  {
    if nodes != [] { LimitQualifiesNothing(nodes[1..], o, limit, maximumDepth); }
  }

  /** Names joined by slashes. */
  function PathOf(names: seq<string>): string {
    if names == [] then [] else if |names| == 1 then names[0] else PathOf(names[..|names| - 1]) + "/" + names[|names| - 1]
  }

  /** Where a node stands: its path is made of the names that lead to it, and so are those of the directories above. */
  ghost predicate Leads(names: seq<string>, n: Node) {
    && |names| == n.depth > 0 && n.path == PathOf(names) && names[|names| - 1] == n.entry.name
    && |n.above| == n.depth - 1 && forall i | 0 <= i < |n.above| :: n.above[i] == PathOf(names[..i + 1])
  }

  /** The names that lead to a node begin like this. */
  ghost predicate LedFrom(names: seq<string>, n: Node) {
    exists all :: Leads(all, n) && names <= all
  }

  predicate Named(entries: seq<Entry>)
    decreases entries
  {
    forall e <- entries :: e.name != [] && (e.Directory? ==> Named(e.children))
  }

  lemma {:induction false} NodesLead(names: seq<string>, entries: seq<Entry>, above: seq<string>)
    requires Named(entries) && (forall x <- names :: x != [])
    requires AboveOf(names, above)
    ensures forall n <- AllNodes(PathOf(names), |names|, above, entries) :: LedFrom(names, n)
    decreases entries, 1
  {
    if entries != [] {
      NodesFromLead(names, entries[0], above);
      NodesLead(names, entries[1..], above);
    }
  }

  lemma JoinedIsNonempty(names: seq<string>)
    requires names != [] && forall x <- names :: x != []
    ensures PathOf(names) != []
  {
    assert names[0] in names;
  }

  ghost predicate AboveOf(names: seq<string>, above: seq<string>) {
    |above| == |names| && forall i | 0 <= i < |above| :: above[i] == PathOf(names[..i + 1])
  }

  /** One name more: the path grows by it, and stands above what is below. */
  lemma NameAppended(names: seq<string>, name: string, above: seq<string>)
    requires AboveOf(names, above) && forall x <- names :: x != []
    ensures Join(PathOf(names), name) == PathOf(names + [name])
    ensures AboveOf(names + [name], above + [PathOf(names + [name])])
    ensures forall i | 0 <= i < |above| :: above[i] == PathOf((names + [name])[..i + 1])
  {
    var longer := names + [name];
    assert longer[..|longer| - 1] == names && longer[..|longer|] == longer;
    if names != [] { JoinedIsNonempty(names); }
    forall i | 0 <= i < |above| ensures above[i] == PathOf(longer[..i + 1]) {
      assert longer[..i + 1] == names[..i + 1];
    }
  }

  lemma {:induction false} NodesFromLead(names: seq<string>, entry: Entry, above: seq<string>)
    requires entry.name != [] && (entry.Directory? ==> Named(entry.children)) && (forall x <- names :: x != [])
    requires AboveOf(names, above)
    ensures forall n <- NodesOf(PathOf(names), |names|, above, entry) :: LedFrom(names, n)
    decreases entry, 0
  {
    var longer := names + [entry.name];
    var path := PathOf(longer);
    NameAppended(names, entry.name, above);
    assert Leads(longer, Node(path, entry, |names| + 1, above)) && names <= longer;
    if entry.Directory? {
      NodesLead(longer, entry.children, above + [path]);
      forall n <- AllNodes(path, |names| + 1, above + [path], entry.children) ensures LedFrom(names, n) {
        var all :| Leads(all, n) && longer <= all;
        assert names <= all;
      }
    }
  }

  /** Every entry of a tree is listed under the names that lead to it, joined by slashes, and its depth is their number. */
  lemma PathsAreNames(root: seq<Entry>, n: Node)
    requires Named(root) && n in AllNodes([], 0, [], root)
    ensures exists names :: Leads(names, n)
  {
    NodesLead([], root, []);
    assert LedFrom([], n);
  }
}
