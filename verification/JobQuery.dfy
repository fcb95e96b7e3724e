/**
  packages/ext-background-bash/src/job-store.ts: job listings are read page by page,
  newest identifier first, each page continuing below the last identifier it scanned.
 */
module JobQuery {
  import opened JobStatus
  import opened Order
  import opened Sequences
  import opened StringOrder
  import opened Wrappers

  const QUERY_LIMIT: nat := 100
  const SCAN_LIMIT: nat := 100
  const DEFAULT_LIMIT: nat := 10
  const SEARCH_LENGTH: nat := 256

  /** `searchText` is the lower-cased identifier and command. */
  datatype Job = Job(id: string, status: Status, searchText: string)

  /** No status stands for 'all'; `search` is trimmed and lower-cased. */
  datatype Filter = Filter(status: Option<Status>, search: string)

  datatype Query = Query(limit: Option<int>, cursor: Option<string>, filter: Filter, searchLength: nat)

  datatype Page = Page(jobs: seq<Job>, hasMore: bool, nextCursor: Option<string>, scanned: nat)

  datatype QueryError = InvalidLimit | InvalidCursor | SearchTooLong

  datatype QueryResult = Found(page: Page) | Rejected(error: QueryError)

  /** The directory as listed and the jobs as read: each identifier is read at most once a page. */
  datatype View = View(entries: seq<string>, jobs: map<string, Job>)

  predicate IsDigit(c: char) {
    '0' <= c <= '9'
  }

  /** An identifier names the second a job was made in, in fourteen digits, and six random hexadecimal digits. */
  predicate IsJobId(id: string) {
    && |id| == 26 && id[..5] == "bash-" && id[19] == '-'
    && (forall i | 5 <= i < 19 :: IsDigit(id[i]))
    && (forall i | 20 <= i < 26 :: IsDigit(id[i]) || 'a' <= id[i] <= 'f')
  }

  predicate Below(a: string, b: string) {
    a != b && Leq(a, b)
  }

  predicate UnderCursor(id: string, cursor: Option<string>) {
    cursor.None? || Below(id, cursor.value)
  }

  // ----- identifiers, newest first -----

  predicate Descending(ids: seq<string>) {
    forall i, j | 0 <= i < j < |ids| :: Below(ids[j], ids[i])
  }

  method ListIds(entries: seq<string>) returns (ids: seq<string>)
    ensures Descending(ids)
    ensures forall id :: id in ids <==> id in entries && IsJobId(id)
  {
    var unique: seq<string> := [];
    for i := 0 to |entries|
      invariant Distinct(unique)
      invariant forall id :: id in unique <==> id in entries[..i] && IsJobId(id)
    {
      if IsJobId(entries[i]) && entries[i] !in unique { unique := unique + [entries[i]]; }
    }
    var sorted := Sort(Leq, unique);
    LeqIsTotalOrder();
    SortSorts(Leq, unique);
    SameElements(sorted, unique);
    SortedAscends(sorted);
    ids := Reverse(sorted);
    forall id ensures id in ids <==> id in sorted { InReverse(sorted, id); }
  }

  lemma SameElements(s: seq<string>, t: seq<string>)
    requires multiset(s) == multiset(t) && Distinct(t)
    ensures Distinct(s) && forall id :: id in s <==> id in t
  {
    forall id ensures id in s <==> id in t {
      assert id in s <==> id in multiset(s);
      assert id in t <==> id in multiset(t);
    }
    forall i, j | 0 <= i < j < |s| ensures s[i] != s[j] {
      if s[i] == s[j] {
        Twice(s, i, j);
        OnceEach(t, s[i]);
      }
    }
  }

  lemma Twice(s: seq<string>, i: nat, j: nat)
    requires i < j < |s| && s[i] == s[j]
    ensures multiset(s)[s[i]] >= 2
  {
    assert s == s[..j] + [s[j]] + s[j + 1..];
    assert s[i] in s[..j];
  }

  lemma {:induction false} OnceEach(t: seq<string>, x: string)
    requires Distinct(t)
    ensures multiset(t)[x] <= 1
  {
    if t != [] {
      assert t == [t[0]] + t[1..];
      OnceEach(t[1..], x);
      if t[0] == x { assert x !in t[1..]; }
    }
  }

  lemma SortedAscends(s: seq<string>)
    requires IsSorted(Leq, s) && Distinct(s)
    ensures Descending(Reverse(s))
  {
    var r := Reverse(s);
    forall i, j | 0 <= i < j < |r| ensures Below(r[j], r[i]) {
      assert r[j] == s[|s| - 1 - j] && r[i] == s[|s| - 1 - i];
    }
  }

  lemma InReverse(s: seq<string>, id: string)
    ensures id in Reverse(s) <==> id in s
  {
    var r := Reverse(s);
    if id in s {
      var i :| 0 <= i < |s| && s[i] == id;
      assert r[|s| - 1 - i] == id;
    }
  }

  /** The identifiers of a view, newest first: there is exactly one such list. */
  ghost predicate IsListing(ids: seq<string>, entries: seq<string>) {
    Descending(ids) && forall id :: id in ids <==> id in entries && IsJobId(id)
  }

  function Under(ids: seq<string>, cursor: Option<string>): seq<string> {
    if ids == [] then []
    else (if UnderCursor(ids[0], cursor) then [ids[0]] else []) + Under(ids[1..], cursor)
  }

  // ----- one page -----

  predicate Contains(text: string, part: string) {
    part <= text || (text != [] && Contains(text[1..], part))
  }

  predicate Matches(f: Filter, j: Job) {
    (f.status.None? || f.status.value == j.status) && (f.search == "" || Contains(j.searchText, f.search))
  }

  /** The job of an identifier, if it is there and matches. */
  function Hit(v: View, f: Filter, id: string): seq<Job> {
    if id in v.jobs && Matches(f, v.jobs[id]) then [v.jobs[id]] else []
  }

  function Hits(v: View, f: Filter, ids: seq<string>): seq<Job> {
    if ids == [] then [] else Hit(v, f, ids[0]) + Hits(v, f, ids[1..])
  }

  lemma {:induction false} HitsConcat(v: View, f: Filter, a: seq<string>, b: seq<string>)
    ensures Hits(v, f, a + b) == Hits(v, f, a) + Hits(v, f, b)
  {
    if a == [] {
      assert a + b == b;
    } else {
      assert (a + b)[1..] == a[1..] + b;
      HitsConcat(v, f, a[1..], b);
    }
  }

  lemma {:induction false} HitsLength(v: View, f: Filter, ids: seq<string>)
    ensures |Hits(v, f, ids)| <= |ids|
  {
    if ids != [] { HitsLength(v, f, ids[1..]); }
  }

  /** A page stops at the first of: enough hits, enough scanned, nothing left. */
  ghost predicate IsPage(p: Page, v: View, f: Filter, limit: nat, candidates: seq<string>) {
    && p.scanned <= |candidates| && p.scanned <= SCAN_LIMIT
    && p.jobs == Hits(v, f, candidates[..p.scanned]) && |p.jobs| <= limit
    && (p.scanned == |candidates| || p.scanned == SCAN_LIMIT || |p.jobs| == limit)
    && (forall k | 0 <= k < p.scanned :: |Hits(v, f, candidates[..k])| < limit)
    && p.hasMore == (p.scanned < |candidates|)
    && (p.hasMore ==> p.scanned > 0)
    && p.nextCursor == (if p.hasMore then Some(candidates[p.scanned - 1]) else None)
  }

  method ScanPage(v: View, f: Filter, limit: nat, candidates: seq<string>) returns (p: Page)
    requires limit > 0
    ensures IsPage(p, v, f, limit, candidates)
  {
    var jobs: seq<Job> := [];
    var scanned := 0;
    while scanned < |candidates|
      invariant scanned <= |candidates| && scanned <= SCAN_LIMIT
      invariant jobs == Hits(v, f, candidates[..scanned]) && |jobs| <= limit
      invariant forall k | 0 <= k < scanned :: |Hits(v, f, candidates[..k])| < limit
      invariant scanned > 0 ==> |jobs| < limit && scanned < SCAN_LIMIT
    {
      var id := candidates[scanned];
      assert candidates[..scanned + 1] == candidates[..scanned] + [id];
      HitsConcat(v, f, candidates[..scanned], [id]);
      assert Hits(v, f, [id]) == Hit(v, f, id);
      if id in v.jobs && Matches(f, v.jobs[id]) { jobs := jobs + [v.jobs[id]]; }
      scanned := scanned + 1;
      if |jobs| == limit || scanned == SCAN_LIMIT { break; }
    }
    var hasMore := scanned < |candidates|;
    p := Page(jobs, hasMore, if hasMore then Some(candidates[scanned - 1]) else None, scanned);
  }

  method BelowCursor(ids: seq<string>, cursor: Option<string>) returns (candidates: seq<string>)
    ensures candidates == Under(ids, cursor)
  {
    candidates := [];
    var i := |ids|;
    while i > 0
      invariant 0 <= i <= |ids| && candidates == Under(ids[i..], cursor)
    {
      i := i - 1;
      assert ids[i..][0] == ids[i] && ids[i..][1..] == ids[i + 1..];
      if UnderCursor(ids[i], cursor) { candidates := [ids[i]] + candidates; }
    }
    assert ids[0..] == ids;
  }

  function Validate(q: Query): Option<QueryError> {
    if !(1 <= q.limit.GetOr(DEFAULT_LIMIT) <= QUERY_LIMIT) then Some(InvalidLimit)
    else if q.cursor.Some? && !IsJobId(q.cursor.value) then Some(InvalidCursor)
    else if q.searchLength > SEARCH_LENGTH then Some(SearchTooLong)
    else None
  }

  method RunQuery(v: View, q: Query) returns (r: QueryResult)
    ensures r.Rejected? <==> Validate(q).Some?
    ensures r.Rejected? ==> Some(r.error) == Validate(q)
    ensures r.Found? ==> exists ids ::
              IsListing(ids, v.entries) && IsPage(r.page, v, q.filter, q.limit.GetOr(10), Under(ids, q.cursor))
  {
    if Validate(q).Some? { return Rejected(Validate(q).value); }
    var ids := ListIds(v.entries);
    var candidates := BelowCursor(ids, q.cursor);
    var page := ScanPage(v, q.filter, q.limit.GetOr(DEFAULT_LIMIT), candidates);
    r := Found(page);
  }

  // ----- following the cursors -----

  /** A handed-out cursor is an identifier below the last one, so the query that carries it is not rejected. */
  lemma NextQueryIsAccepted(v: View, q: Query, ids: seq<string>, p: Page)
    requires Validate(q).None? && IsListing(ids, v.entries)
    requires IsPage(p, v, q.filter, q.limit.GetOr(DEFAULT_LIMIT), Under(ids, q.cursor)) && p.hasMore
    ensures p.nextCursor.Some? && IsJobId(p.nextCursor.value) && UnderCursor(p.nextCursor.value, q.cursor)
    ensures Validate(q.(cursor := p.nextCursor)).None?
  {
    UnderElements(ids, q.cursor);
    assert p.nextCursor.value in Under(ids, q.cursor);
  }

  /** One page of a walk, with the view it was read from and the listing of that view. */
  datatype Visit = Visit(view: View, ids: seq<string>, page: Page)

  function Scanned(visit: Visit, cursor: Option<string>): seq<string> {
    var candidates := Under(visit.ids, cursor);
    candidates[..Min(visit.page.scanned, |candidates|)]
  }

  ghost predicate IsVisit(visit: Visit, f: Filter, limit: nat, cursor: Option<string>) {
    && IsListing(visit.ids, visit.view.entries)
    && IsPage(visit.page, visit.view, f, limit, Under(visit.ids, cursor))
  }

  /** Pages read one after another, each from whatever the store then holds, until one says it is the last. */
  ghost predicate IsWalk(visits: seq<Visit>, f: Filter, limit: nat, cursor: Option<string>) {
    && visits != [] && IsVisit(visits[0], f, limit, cursor)
    && (if |visits| == 1 then !visits[0].page.hasMore
        else visits[0].page.hasMore && IsWalk(visits[1..], f, limit, visits[0].page.nextCursor))
  }

  function AllScanned(visits: seq<Visit>, cursor: Option<string>): seq<string> {
    if visits == [] then [] else Scanned(visits[0], cursor) + AllScanned(visits[1..], visits[0].page.nextCursor)
  }

  function AllJobs(visits: seq<Visit>): seq<Job> {
    if visits == [] then [] else visits[0].page.jobs + AllJobs(visits[1..])
  }

  lemma {:induction false} UnderElements(ids: seq<string>, cursor: Option<string>)
    requires Descending(ids)
    ensures Descending(Under(ids, cursor))
    ensures forall id :: id in Under(ids, cursor) <==> id in ids && UnderCursor(id, cursor)
  {
    if ids != [] {
      UnderElements(ids[1..], cursor);
      var rest := Under(ids[1..], cursor);
      forall j | 0 <= j < |rest| ensures Below(rest[j], ids[0]) {
        assert rest[j] in ids[1..];
      }
    }
  }

  lemma ScannedElement(candidates: seq<string>, n: nat, id: string)
    requires Descending(candidates) && 0 < n <= |candidates| && id in candidates
    ensures id in candidates[..n] <==> !Below(id, candidates[n - 1])
  {
    var i :| 0 <= i < |candidates| && candidates[i] == id;
    LeqIsTotalOrder();
    if i < n {
      assert candidates[..n][i] == id;
      assert i < n - 1 ==> Below(candidates[n - 1], id);
    } else {
      assert Below(id, candidates[n - 1]);
      forall k | 0 <= k < n ensures candidates[..n][k] != id { assert Below(id, candidates[k]); }
    }
  }

  /** A page scans exactly the candidates at or above its next cursor. */
  lemma ScannedElements(visit: Visit, f: Filter, limit: nat, cursor: Option<string>)
    requires IsVisit(visit, f, limit, cursor)
    ensures var scanned := Scanned(visit, cursor); var next := visit.page.nextCursor;
            && Descending(scanned)
            && (forall id :: id in scanned <==>
                  id in visit.ids && UnderCursor(id, cursor) && (visit.page.hasMore ==> !UnderCursor(id, next)))
  {
    var candidates := Under(visit.ids, cursor);
    UnderElements(visit.ids, cursor);
    if visit.page.hasMore {
      forall id | id in candidates
        ensures id in candidates[..visit.page.scanned] <==> !UnderCursor(id, visit.page.nextCursor)
      {
        ScannedElement(candidates, visit.page.scanned, id);
      }
    } else {
      TakeAll(candidates);
    }
  }

  lemma BelowTransitive(a: string, b: string, cursor: Option<string>)
    requires Leq(a, b) && UnderCursor(b, cursor)
    ensures UnderCursor(a, cursor)
  {
    LeqIsTotalOrder();
  }

  /** Cursors strictly decrease, and so do all identifiers scanned along a walk: none is scanned twice. */
  lemma {:induction false} WalkDescends(visits: seq<Visit>, f: Filter, limit: nat, cursor: Option<string>)
    requires IsWalk(visits, f, limit, cursor)
    ensures Descending(AllScanned(visits, cursor))
    ensures forall id | id in AllScanned(visits, cursor) :: UnderCursor(id, cursor)
    ensures visits[0].page.hasMore ==> UnderCursor(visits[0].page.nextCursor.value, cursor)
  {
    ScannedElements(visits[0], f, limit, cursor);
    var first := Scanned(visits[0], cursor);
    if |visits| > 1 {
      var next := visits[0].page.nextCursor;
      WalkDescends(visits[1..], f, limit, next);
      var rest := AllScanned(visits[1..], next);
      assert next.value in first;
      forall i, j | 0 <= i < |first| && 0 <= j < |rest| ensures Below(rest[j], first[i]) {
        assert first[i] in first && rest[j] in rest;
        LeqIsTotalOrder();
      }
      forall id | id in rest ensures UnderCursor(id, cursor) {
        BelowTransitive(id, next.value, cursor);
      }
    } else {
      assert first + [] == first;
    }
  }

  /** An identifier that is there whenever a page is read is scanned. */
  lemma {:induction false} WalkCovers(visits: seq<Visit>, f: Filter, limit: nat, cursor: Option<string>, id: string)
    requires IsWalk(visits, f, limit, cursor) && UnderCursor(id, cursor) && IsJobId(id)
    requires forall k | 0 <= k < |visits| :: id in visits[k].view.entries
    ensures id in AllScanned(visits, cursor)
  {
    ScannedElements(visits[0], f, limit, cursor);
    if id !in Scanned(visits[0], cursor) {
      WalkCovers(visits[1..], f, limit, visits[0].page.nextCursor, id);
    }
  }

  /** While identifiers come and go, each one that stays is scanned exactly once, and no other more often. */
  lemma EachScannedOnce(visits: seq<Visit>, f: Filter, limit: nat, id: string)
    requires IsWalk(visits, f, limit, None)
    ensures multiset(AllScanned(visits, None))[id] <= 1
    ensures IsJobId(id) && (forall k | 0 <= k < |visits| :: id in visits[k].view.entries)
            ==> multiset(AllScanned(visits, None))[id] == 1
  {
    var all := AllScanned(visits, None);
    WalkDescends(visits, f, limit, None);
    OnceEach(all, id);
    if IsJobId(id) && (forall k | 0 <= k < |visits| :: id in visits[k].view.entries) {
      WalkCovers(visits, f, limit, None, id);
      assert id in multiset(all);
    }
  }

  /** On a store that does not change, the pages together are all matches, newest first. */
  lemma {:induction false} WalkIsComplete(visits: seq<Visit>, f: Filter, limit: nat, cursor: Option<string>,
                                          v: View, ids: seq<string>)
    requires IsWalk(visits, f, limit, cursor) && IsListing(ids, v.entries)
    requires forall k | 0 <= k < |visits| :: visits[k].view == v && visits[k].ids == ids
    ensures AllJobs(visits) == Hits(v, f, Under(ids, cursor))
  {
    assert visits[0].view == v && visits[0].ids == ids;
    if |visits| > 1 {
      assert forall k | 0 <= k < |visits[1..]| :: visits[1..][k] == visits[k + 1];
      PageThenRest(visits[0].page, v, f, limit, ids, cursor);
      WalkIsComplete(visits[1..], f, limit, visits[0].page.nextCursor, v, ids);
    } else {
      var candidates := Under(ids, cursor);
      TakeAll(candidates);
      assert AllJobs(visits) == visits[0].page.jobs + [];
    }
  }

  lemma PageThenRest(p: Page, v: View, f: Filter, limit: nat, ids: seq<string>, cursor: Option<string>)
    requires Descending(ids) && IsPage(p, v, f, limit, Under(ids, cursor)) && p.hasMore
    ensures p.jobs + Hits(v, f, Under(ids, p.nextCursor)) == Hits(v, f, Under(ids, cursor))
  {
    var candidates := Under(ids, cursor);
    UnderNext(ids, cursor, p.scanned);
    assert candidates == candidates[..p.scanned] + candidates[p.scanned..];
    HitsConcat(v, f, candidates[..p.scanned], candidates[p.scanned..]);
  }

  /** Following the cursors of an unchanging store comes to an end. */
  lemma {:induction false} WalkEnds(visits: seq<Visit>, f: Filter, limit: nat, cursor: Option<string>,
                                    v: View, ids: seq<string>)
    requires IsListing(ids, v.entries) && AllHaveMore(visits, f, limit, cursor)
    requires forall k | 0 <= k < |visits| :: visits[k].view == v && visits[k].ids == ids
    ensures |visits| <= |Under(ids, cursor)|
  {
    if visits != [] {
      assert visits[0].view == v && visits[0].ids == ids;
      assert forall k | 0 <= k < |visits[1..]| :: visits[1..][k] == visits[k + 1];
      UnderNext(ids, cursor, visits[0].page.scanned);
      WalkEnds(visits[1..], f, limit, visits[0].page.nextCursor, v, ids);
    }
  }

  ghost predicate AllHaveMore(visits: seq<Visit>, f: Filter, limit: nat, cursor: Option<string>) {
    visits != [] ==>
      && IsVisit(visits[0], f, limit, cursor) && visits[0].page.hasMore
      && AllHaveMore(visits[1..], f, limit, visits[0].page.nextCursor)
  }

  /** What lies under the next cursor is what has not been scanned. */
  lemma UnderNext(ids: seq<string>, cursor: Option<string>, n: nat)
    requires Descending(ids) && 0 < n <= |Under(ids, cursor)|
    ensures Under(ids, Some(Under(ids, cursor)[n - 1])) == Under(ids, cursor)[n..]
  {
    var candidates := Under(ids, cursor);
    var next := Some(candidates[n - 1]);
    UnderElements(ids, cursor);
    UnderElements(ids, next);
    var rest := candidates[n..];
    forall id ensures id in Under(ids, next) <==> id in rest {
      LeqIsTotalOrder();
      if id in Under(ids, next) {
        BelowTransitive(id, candidates[n - 1], cursor);
        var i :| 0 <= i < |candidates| && candidates[i] == id;
        assert i >= n ==> candidates[i] == rest[i - n];
      }
      if id in rest {
        var i :| 0 <= i < |rest| && rest[i] == id;
        assert rest[i] == candidates[n + i];
      }
    }
    DescendingUnique(Under(ids, next), rest);
  }

  lemma {:induction false} DescendingUnique(s: seq<string>, t: seq<string>)
    requires Descending(s) && Descending(t) && forall id :: id in s <==> id in t
    ensures s == t
  {
    assert t != [] ==> t[0] in t;
    if s != [] {
      assert s[0] in t;
      assert t[0] in s;
      LeqIsTotalOrder();
      forall id ensures id in s[1..] <==> id in t[1..] {
        assert id in s <==> id == s[0] || id in s[1..];
        assert id in t <==> id == t[0] || id in t[1..];
      }
      DescendingUnique(s[1..], t[1..]);
    }
  }

  // ----- queries, told in full -----

  /** Some part of the text is the one searched for. */
  ghost predicate Occurs(text: string, part: string) {
    exists k :: OccursAt(text, part, k)
  }

  predicate OccursAt(text: string, part: string, k: nat) {
    k + |part| <= |text| && text[k..k + |part|] == part
  }

  lemma ShiftedOccurrence(text: string, part: string, k: nat)
    requires text != [] && k > 0
    ensures OccursAt(text, part, k) <==> OccursAt(text[1..], part, k - 1)
  {
    if k + |part| <= |text| { assert text[k..k + |part|] == text[1..][k - 1..k - 1 + |part|]; }
  }

  lemma {:induction false} ContainsIsOccurs(text: string, part: string)
    ensures Contains(text, part) <==> Occurs(text, part)
  {
    assert part <= text <==> OccursAt(text, part, 0);
    if text != [] {
      ContainsIsOccurs(text[1..], part);
      if k: nat :| OccursAt(text[1..], part, k) { ShiftedOccurrence(text, part, k + 1); }
      if k: nat :| OccursAt(text, part, k) && k > 0 { ShiftedOccurrence(text, part, k); }
    }
  }

  /** The job is asked for: it has the status, if one is given, and the search text occurs in it. */
  ghost predicate AskedFor(j: Job, f: Filter) {
    (f.status.Some? ==> j.status == f.status.value) && Occurs(j.searchText, f.search)
  }

  lemma MatchesAsTold(f: Filter, j: Job)
    ensures Matches(f, j) <==> AskedFor(j, f)
  {
    ContainsIsOccurs(j.searchText, f.search);
    if f.search == "" { assert OccursAt(j.searchText, f.search, 0); }
  }

  lemma {:induction false} HitsAsTold(v: View, f: Filter, ids: seq<string>, j: Job)
    ensures j in Hits(v, f, ids) <==> exists id <- ids :: id in v.jobs && v.jobs[id] == j && AskedFor(j, f)
  {
    if ids != [] {
      HitsAsTold(v, f, ids[1..], j);
      MatchesAsTold(f, j);
      assert forall id :: id in ids <==> id == ids[0] || id in ids[1..];
    }
  }

  /** The fourteen digits and the six hexadecimal ones an identifier is made of. */
  predicate MadeOf(id: string, stamp: string, digest: string) {
    && |stamp| == 14 && (forall c <- stamp :: c in "0123456789")
    && |digest| == 6 && (forall c <- digest :: c in "0123456789abcdef")
    && id == "bash-" + stamp + "-" + digest
  }

  lemma HexDigit(c: char)
    ensures c in "0123456789" <==> IsDigit(c)
    ensures c in "0123456789abcdef" <==> IsDigit(c) || 'a' <= c <= 'f'
  {
    if IsDigit(c) { assert c == "0123456789"[c as int - '0' as int] == "0123456789abcdef"[c as int - '0' as int]; }
    if 'a' <= c <= 'f' { assert c == "0123456789abcdef"[10 + c as int - 'a' as int]; }
  }

  lemma JobIdVerdict(id: string)
    ensures IsJobId(id) <==> exists stamp, digest :: MadeOf(id, stamp, digest)
  {
    forall c ensures (c in "0123456789" <==> IsDigit(c)) && (c in "0123456789abcdef" <==> IsDigit(c) || 'a' <= c <= 'f') {
      HexDigit(c);
    }
    if IsJobId(id) {
      assert id == "bash-" + id[5..19] + "-" + id[20..];
      assert MadeOf(id, id[5..19], id[20..]);
    }
  }

  /** Which requests are rejected, and with which error: the limit counts first, then the cursor, then the search. */
  lemma RequestVerdict(q: Query)
    ensures Validate(q) == (if q.limit.Some? && !(1 <= q.limit.value <= 100) then Some(InvalidLimit)
                            else if q.cursor.Some? && !IsJobId(q.cursor.value) then Some(InvalidCursor)
                            else if q.searchLength > 256 then Some(SearchTooLong) else None)
  {
  }

  /** The jobs of a page are those asked for among the newest identifiers below the cursor that it has scanned. */
  lemma PageVerdict(v: View, q: Query, ids: seq<string>, p: Page, j: Job)
    requires q.limit.GetOr(10) >= 0
    requires IsListing(ids, v.entries) && IsPage(p, v, q.filter, q.limit.GetOr(10), Under(ids, q.cursor))
    ensures p.scanned <= 100 && |p.jobs| <= q.limit.GetOr(10) && p.scanned <= |Under(ids, q.cursor)|
    ensures j in p.jobs <==>
      exists id <- Under(ids, q.cursor)[..p.scanned] :: id in v.jobs && v.jobs[id] == j && AskedFor(j, q.filter)
    ensures forall id :: id in Under(ids, q.cursor) <==>
      id in v.entries && IsJobId(id) && (q.cursor.Some? ==> id != q.cursor.value && Leq(id, q.cursor.value))
  {
    HitsAsTold(v, q.filter, Under(ids, q.cursor)[..p.scanned], j);
    UnderElements(ids, q.cursor);
  }
}
