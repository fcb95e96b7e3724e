/**
  apps/daemon/src/session-history.ts: reading a session file line by line into a
  forest of entries, the checkpoint walk from its last entry to a root, and the order
  of the inventory a revision is taken of.
 */
module Transcript {
  import opened Order
  import opened Sequences
  import opened StringOrder
  import opened Wrappers

  const HEADER_BYTES: nat := 64 * 1024

  datatype Failure = Invalid | Oversize | Unsupported

  datatype Entry = Entry(id: string, parentId: Option<string>)

  /** What validateEntry says of a record. */
  datatype Verdict = Accepted(entry: Entry) | Malformed | UnknownType

  /** The fields of a record that matter when it is the first one. */
  datatype Header = Header(bytes: nat, isSession: bool, id: string, hasCwd: bool, version: Option<int>)

  /** A line of the file: blank, not a JSON object, or an object read as header or as entry. */
  datatype Line = Blank | NotRecord | Record(header: Header, verdict: Verdict)

  datatype Parsed = Entries(entries: seq<Entry>) | Failed(failure: Failure)

  function HeaderFault(h: Header, sessionId: string): Option<Failure> {
    if h.bytes > HEADER_BYTES then Some(Oversize)
    else if !h.isSession || h.id != sessionId || !h.hasCwd then Some(Invalid)
    else if h.version != Some(2) && h.version != Some(3) then Some(Unsupported)
    else None
  }

  function EntryFault(v: Verdict, sessionId: string, ids: set<string>): Option<Failure> {
    if v.UnknownType? then Some(Unsupported)
    else if v.Malformed? then Some(Invalid)
    else if v.entry.id == sessionId || v.entry.id in ids
         || (v.entry.parentId.Some? && v.entry.parentId.value !in ids) then Some(Invalid)
    else None
  }

  // ----- what is accepted -----

  /** The lines that are not blank. */
  function Records(lines: seq<Line>): seq<Line> {
    if lines == [] then []
    else (if lines[0].Blank? then [] else [lines[0]]) + Records(lines[1..])
  }

  function Ids(entries: seq<Entry>): (ids: set<string>)
    ensures forall e | e in entries :: e.id in ids
    ensures forall id | id in ids :: exists i | 0 <= i < |entries| :: entries[i].id == id
  {
    if entries == [] then {}
    else
      var rest := Ids(entries[..|entries| - 1]);
      assert forall i | 0 <= i < |entries| - 1 :: entries[..|entries| - 1][i] == entries[i];
      assert forall e | e in entries :: e in entries[..|entries| - 1] || e == entries[|entries| - 1];
      rest + {entries[|entries| - 1].id}
  }

  ghost predicate HasEarlier(entries: seq<Entry>, j: nat, id: string)
    requires j <= |entries|
  {
    exists i | 0 <= i < j :: entries[i].id == id
  }

  /** Its identifier is new and not the session's, and its parent, if any, comes before it. */
  ghost predicate EntryOk(entries: seq<Entry>, j: nat, sessionId: string)
    requires j < |entries|
  {
    && entries[j].id != sessionId && !HasEarlier(entries, j, entries[j].id)
    && (entries[j].parentId.Some? ==> HasEarlier(entries, j, entries[j].parentId.value))
  }

  ghost predicate IsForest(entries: seq<Entry>, sessionId: string) {
    forall j | 0 <= j < |entries| :: EntryOk(entries, j, sessionId)
  }

  /** The records as header and entries, all of them well-formed. */
  ghost predicate WellFormed(records: seq<Line>, sessionId: string) {
    && records != []
    && (forall i | 0 <= i < |records| :: records[i].Record?)
    && HeaderFault(records[0].header, sessionId).None?
    && (forall i | 1 <= i < |records| :: records[i].verdict.Accepted?)
  }

  function EntriesOf(records: seq<Line>): (entries: seq<Entry>)
    requires forall i | 0 <= i < |records| :: records[i].Record? && records[i].verdict.Accepted?
    ensures |entries| == |records| && forall i | 0 <= i < |entries| :: entries[i] == records[i].verdict.entry
  {
    if records == [] then [] else [records[0].verdict.entry] + EntriesOf(records[1..])
  }

  lemma EarlierInPrefix(entries: seq<Entry>, n: nat, j: nat, id: string)
    requires j <= n <= |entries|
    ensures HasEarlier(entries[..n], j, id) <==> HasEarlier(entries, j, id)
  {
    if HasEarlier(entries, j, id) {
      var i :| 0 <= i < j && entries[i].id == id;
      assert entries[..n][i].id == id;
    }
  }

  lemma EntryOkInPrefix(entries: seq<Entry>, n: nat, j: nat, sessionId: string)
    requires j < n <= |entries|
    ensures EntryOk(entries[..n], j, sessionId) <==> EntryOk(entries, j, sessionId)
  {
    EarlierInPrefix(entries, n, j, entries[j].id);
    if entries[j].parentId.Some? { EarlierInPrefix(entries, n, j, entries[j].parentId.value); }
  }

  lemma EarlierIsKnown(entries: seq<Entry>, id: string)
    ensures HasEarlier(entries, |entries|, id) <==> id in Ids(entries)
  {
    if HasEarlier(entries, |entries|, id) {
      var i :| 0 <= i < |entries| && entries[i].id == id;
      assert entries[i] in entries;
    }
  }

  /** An entry without fault extends the forest, and one with a fault would not. */
  lemma ForestGrows(entries: seq<Entry>, e: Entry, sessionId: string)
    requires IsForest(entries, sessionId)
    ensures EntryFault(Accepted(e), sessionId, Ids(entries)).None? <==> IsForest(entries + [e], sessionId)
  {
    var all := entries + [e];
    var n := |entries|;
    assert all[..n] == entries && all[n] == e;
    forall j | 0 <= j < n ensures EntryOk(all, j, sessionId) {
      EntryOkInPrefix(all, n, j, sessionId);
    }
    assert IsForest(all, sessionId) <==> EntryOk(all, n, sessionId);
    EarlierInPrefix(all, n, n, e.id);
    EarlierIsKnown(entries, e.id);
    if e.parentId.Some? {
      EarlierInPrefix(all, n, n, e.parentId.value);
      EarlierIsKnown(entries, e.parentId.value);
    }
  }

  lemma ForestPrefix(entries: seq<Entry>, n: nat, sessionId: string)
    requires n <= |entries| && IsForest(entries, sessionId)
    ensures IsForest(entries[..n], sessionId)
  {
    forall j | 0 <= j < n ensures EntryOk(entries[..n], j, sessionId) {
      EntryOkInPrefix(entries, n, j, sessionId);
    }
  }

  // ----- parsing -----

  /** What stops the record after those already taken, if anything does. */
  function RecordFault(l: Line, first: bool, sessionId: string, ids: set<string>): Option<Failure> {
    if !l.Record? then Some(Invalid)
    else if first then HeaderFault(l.header, sessionId)
    else EntryFault(l.verdict, sessionId, ids)
  }

  /** What the loop holds after some records: a header and a forest of entries. */
  ghost predicate Taken(records: seq<Line>, entries: seq<Entry>, sessionId: string) {
    && (records != [] ==> WellFormed(records, sessionId) && |entries| == |records| - 1)
    && (records == [] ==> entries == [])
    && (forall i | 1 <= i < |records| :: records[i].verdict == Accepted(entries[i - 1]))
    && IsForest(entries, sessionId)
  }

  /** The transcript that a file holds. */
  ghost predicate IsTranscript(lines: seq<Line>, sessionId: string, entries: seq<Entry>) {
    Records(lines) != [] && Taken(Records(lines), entries, sessionId)
  }

  lemma {:induction false} RecordsAppend(lines: seq<Line>, l: Line)
    ensures Records(lines + [l]) == Records(lines) + (if l.Blank? then [] else [l])
  {
    if lines == [] {
      assert lines + [l] == [l];
    } else {
      ConcatHead(lines, [l]);
      RecordsAppend(lines[1..], l);
      AppendAssoc(if lines[0].Blank? then [] else [lines[0]], Records(lines[1..]), if l.Blank? then [] else [l]);
    }
  }

  lemma TakeRecord(records: seq<Line>, entries: seq<Entry>, l: Line, sessionId: string)
    requires Taken(records, entries, sessionId)
    requires RecordFault(l, records == [], sessionId, Ids(entries)).None?
    ensures Taken(records + [l], if records == [] then [] else entries + [l.verdict.entry], sessionId)
  {
    if records != [] {
      ForestGrows(entries, l.verdict.entry, sessionId);
    }
  }

  /** A record with a fault is in no transcript that begins like this. */
  lemma FaultyRecord(records: seq<Line>, entries: seq<Entry>, l: Line, rest: seq<Line>, sessionId: string)
    requires Taken(records, entries, sessionId)
    requires RecordFault(l, records == [], sessionId, Ids(entries)).Some?
    ensures forall all :: !Taken(records + [l] + rest, all, sessionId)
  {
    var n := |records|;
    var whole := records + [l] + rest;
    assert whole[n] == l;
    forall all ensures !Taken(whole, all, sessionId) {
      if Taken(whole, all, sessionId) {
        assert n > 0 ==> whole[n].verdict == Accepted(all[n - 1]);
        if n > 0 {
          assert forall i | 0 <= i < n - 1 :: all[i] == entries[i] by {
            forall i | 0 <= i < n - 1 ensures all[i] == entries[i] {
              assert whole[i + 1] == records[i + 1];
            }
          }
          assert all[..n] == entries + [l.verdict.entry];
          ForestPrefix(all, n, sessionId);
          ForestGrows(entries, l.verdict.entry, sessionId);
        }
      }
    }
  }

  lemma {:induction false} RecordsConcat(a: seq<Line>, b: seq<Line>)
    ensures Records(a + b) == Records(a) + Records(b)
  {
    if a == [] {
      assert a + b == b;
    } else {
      ConcatHead(a, b);
      RecordsConcat(a[1..], b);
      AppendAssoc(if a[0].Blank? then [] else [a[0]], Records(a[1..]), Records(b));
    }
  }

  /** The records before the first that cannot be taken, and what is wrong with that one. */
  ghost predicate IsFirstFault(lines: seq<Line>, sessionId: string, k: nat, entries: seq<Entry>, failure: Failure) {
    var records := Records(lines);
    && k <= |records| && Taken(records[..k], entries, sessionId)
    && (if k < |records| then RecordFault(records[k], k == 0, sessionId, Ids(entries)) == Some(failure)
        else k == 0 && failure == Invalid)
  }

  /** A file is accepted exactly when it is a transcript; otherwise its first fault is reported. */
  method ParseTranscript(lines: seq<Line>, sessionId: string) returns (r: Parsed)
    ensures r.Entries? ==> IsTranscript(lines, sessionId, r.entries)
    ensures r.Failed? ==> forall all :: !IsTranscript(lines, sessionId, all)
    ensures r.Failed? ==> exists k: nat, entries :: IsFirstFault(lines, sessionId, k, entries, r.failure)
  {
    var entries: seq<Entry> := [];
    var ids: set<string> := {};
    var header := false;
    ghost var records: seq<Line> := [];
    for i := 0 to |lines|
      invariant records == Records(lines[..i]) && header == (records != [])
      invariant Taken(records, entries, sessionId) && ids == Ids(entries)
    {
      TakeNext(lines, i);
      RecordsAppend(lines[..i], lines[i]);
      if !lines[i].Blank? {
        var fault := RecordFault(lines[i], !header, sessionId, ids);
        if fault.Some? {
          FaultStops(lines, i, records, entries, sessionId);
          return Failed(fault.value);
        }
        TakeRecord(records, entries, lines[i], sessionId);
        if header {
          var e := lines[i].verdict.entry;
          assert (entries + [e])[..|entries|] == entries;
          entries, ids := entries + [e], ids + {e.id};
        }
        header := true;
        records := records + [lines[i]];
      }
    }
    TakeAll(lines);
    if !header {
      assert records[..0] == [];
      assert IsFirstFault(lines, sessionId, 0, [], Invalid);
      return Failed(Invalid);
    }
    r := Entries(entries);
  }

  lemma FaultStops(lines: seq<Line>, i: nat, records: seq<Line>, entries: seq<Entry>, sessionId: string)
    requires i < |lines| && records == Records(lines[..i]) && !lines[i].Blank?
    requires Taken(records, entries, sessionId)
    requires RecordFault(lines[i], records == [], sessionId, Ids(entries)).Some?
    ensures forall all :: !IsTranscript(lines, sessionId, all)
    ensures var fault := RecordFault(lines[i], records == [], sessionId, Ids(entries));
            IsFirstFault(lines, sessionId, |records|, entries, fault.value)
  {
    var rest := Records(lines[i + 1..]);
    assert lines == lines[..i] + [lines[i]] + lines[i + 1..];
    RecordsConcat(lines[..i] + [lines[i]], lines[i + 1..]);
    RecordsAppend(lines[..i], lines[i]);
    assert Records(lines) == records + [lines[i]] + rest;
    assert Records(lines)[..|records|] == records && Records(lines)[|records|] == lines[i];
    FaultyRecord(records, entries, lines[i], rest, sessionId);
  }

  // ----- the checkpoint walk -----

  /** A path from a root down to the last entry. */
  ghost predicate IsBranch(branch: seq<Entry>, entries: seq<Entry>) {
    if entries == [] then branch == []
    else
      && branch != [] && branch[|branch| - 1] == entries[|entries| - 1]
      && branch[0].parentId.None?
      && (forall i | 1 <= i < |branch| :: branch[i].parentId == Some(branch[i - 1].id))
      && (forall i | 0 <= i < |branch| :: branch[i] in entries)
  }

  method IndexById(entries: seq<Entry>, ghost sessionId: string) returns (byId: map<string, Entry>)
    requires IsForest(entries, sessionId)
    ensures forall i | 0 <= i < |entries| :: entries[i].id in byId && byId[entries[i].id] == entries[i]
  {
    byId := map[];
    for k := 0 to |entries|
      invariant forall i | 0 <= i < k :: entries[i].id in byId && byId[entries[i].id] == entries[i]
    {
      assert EntryOk(entries, k, sessionId);
      byId := byId[entries[k].id := entries[k]];
    }
  }

  /** The steps taken so far: from the last entry upwards, each the parent of the one before. */
  ghost predicate IsClimb(up: seq<Entry>, entries: seq<Entry>, leaf: Option<string>) {
    && (up == [] ==> leaf == (if entries == [] then None else Some(entries[|entries| - 1].id)))
    && (up != [] ==> entries != [] && up[0] == entries[|entries| - 1] && up[|up| - 1].parentId == leaf)
    && (forall i | 1 <= i < |up| :: up[i - 1].parentId == Some(up[i].id))
    && (forall i | 0 <= i < |up| :: up[i] in entries)
  }

  /** For an accepted file the walk ends, finds every parent, and gives the path to a root. */
  method Checkpoint(entries: seq<Entry>, ghost sessionId: string) returns (branch: Option<seq<Entry>>)
    requires IsForest(entries, sessionId)
    ensures branch.Some? && IsBranch(branch.value, entries)
  {
    var byId := IndexById(entries, sessionId);
    var up: seq<Entry> := [];
    var leaf := if entries == [] then None else Some(entries[|entries| - 1].id);
    ghost var bound: nat := |entries|;
    while leaf.Some?
      invariant bound <= |entries| && IsClimb(up, entries, leaf)
      invariant leaf.Some? ==> HasEarlier(entries, bound, leaf.value)
      invariant up == [] ==> bound == |entries|
      decreases bound, leaf.Some?
    {
      ghost var k: nat :| k < bound && entries[k].id == leaf.value;
      assert EntryOk(entries, k, sessionId);
      if leaf.value !in byId { return None; }
      var entry := byId[leaf.value];
      if up == [] { LastById(entries, k, sessionId); }
      assert entry == entries[k];
      up := up + [entry];
      leaf := entry.parentId;
      bound := k;
    }
    branch := Some(Reverse(up));
  }

  lemma LastById(entries: seq<Entry>, k: nat, sessionId: string)
    requires IsForest(entries, sessionId) && k < |entries| && entries[k].id == entries[|entries| - 1].id
    ensures k == |entries| - 1
  {
    assert EntryOk(entries, |entries| - 1, sessionId);
  }

  // ----- the order of the inventory -----

  /** `identity` is the digest of the whole source. */
  datatype Row = Row(updatedAt: int, id: string, identity: string)

  /** The comparison of rows does not put `a` after `b`: the latest first, then by identifier. */
  predicate Precedes(a: Row, b: Row) {
    a.updatedAt > b.updatedAt || (a.updatedAt == b.updatedAt && Leq(a.id, b.id))
  }

  /** The same, made total by comparing digests last. */
  predicate RowLeq(a: Row, b: Row) {
    a.updatedAt > b.updatedAt
    || (a.updatedAt == b.updatedAt && a.id != b.id && Leq(a.id, b.id))
    || (a.updatedAt == b.updatedAt && a.id == b.id && Leq(a.identity, b.identity))
  }

  lemma RowLeqIsTotalOrder()
    ensures TotalOrder(RowLeq)
  {
    LeqIsTotalOrder();
    forall a, b, c | RowLeq(a, b) && RowLeq(b, c) ensures RowLeq(a, c) {
      assert Leq(a.id, b.id) && Leq(b.id, c.id) ==> Leq(a.id, c.id);
    }
  }

  ghost predicate DistinctIds(rows: seq<Row>) {
    forall i, j | 0 <= i < j < |rows| :: rows[i].id != rows[j].id
  }

  lemma {:induction false} InsertAlike(x: Row, s: seq<Row>)
    requires forall i | 0 <= i < |s| :: s[i].id != x.id
    ensures Insert(Precedes, x, s) == Insert(RowLeq, x, s)
  {
    if s != [] {
      assert s[0].id != x.id;
      InsertAlike(x, s[1..]);
    }
  }

  lemma {:induction false} SortAlike(rows: seq<Row>)
    requires DistinctIds(rows)
    ensures Sort(Precedes, rows) == Sort(RowLeq, rows)
  {
    if rows != [] {
      SortAlike(rows[1..]);
      RowLeqIsTotalOrder();
      SortSorts(RowLeq, rows[1..]);
      var s := Sort(RowLeq, rows[1..]);
      forall i | 0 <= i < |s| ensures s[i].id != rows[0].id {
        assert s[i] in multiset(s);
        var j :| 0 <= j < |rows[1..]| && rows[1..][j] == s[i];
        assert rows[j + 1] == s[i];
      }
      InsertAlike(rows[0], s);
    }
  }

  function Identities(rows: seq<Row>): seq<string> {
    if rows == [] then [] else [rows[0].identity] + Identities(rows[1..])
  }

  /** What the revision of an inventory is the digest of. */
  function RevisionOf(rows: seq<Row>): seq<string> {
    Identities(Sort(Precedes, rows))
  }

  /** The revision does not depend on the order in which the inventory is enumerated. */
  lemma RevisionIgnoresOrder(a: seq<Row>, b: seq<Row>)
    requires multiset(a) == multiset(b) && DistinctIds(a) && DistinctIds(b)
    ensures Sort(Precedes, a) == Sort(Precedes, b) && RevisionOf(a) == RevisionOf(b)
  {
    SortAlike(a);
    SortAlike(b);
    RowLeqIsTotalOrder();
    SortSorts(RowLeq, a);
    SortSorts(RowLeq, b);
    SortedUnique(RowLeq, Sort(RowLeq, a), Sort(RowLeq, b));
  }

  // ----- verdicts, told in full -----

  /**
    What is reported of a record, in the order in which it is checked: as the first one it must be
    a header of this session in a known version, as a later one an entry that extends the forest.
   */
  lemma RecordVerdict(l: Line, sessionId: string, ids: set<string>)
    ensures !l.Record? ==> RecordFault(l, true, sessionId, ids) == RecordFault(l, false, sessionId, ids) == Some(Invalid)
    ensures l.Record? ==>
      var h := l.header;
      RecordFault(l, true, sessionId, ids)
      == if h.bytes > 65536 then Some(Oversize)
         else if !(h.isSession && h.id == sessionId && h.hasCwd) then Some(Invalid)
         else if h.version == Some(2) || h.version == Some(3) then None else Some(Unsupported)
    ensures l.Record? ==>
      var fault := RecordFault(l, false, sessionId, ids);
      && (l.verdict.UnknownType? ==> fault == Some(Unsupported))
      && (l.verdict.Malformed? ==> fault == Some(Invalid))
      && (l.verdict.Accepted? ==>
            var e := l.verdict.entry;
            fault == if e.id != sessionId && e.id !in ids && (e.parentId.Some? ==> e.parentId.value in ids)
                     then None else Some(Invalid))
  {
  }

  /** The rows of an inventory are exactly its own, the latest first, and equally late ones by identifier. */
  lemma RowsInOrder(rows: seq<Row>)
    ensures var sorted := Sort(Precedes, rows);
            && multiset(sorted) == multiset(rows) && |sorted| == |RevisionOf(rows)| == |rows|
            && (forall i, j | 0 <= i < j < |sorted| ::
                  sorted[i].updatedAt > sorted[j].updatedAt
                  || (sorted[i].updatedAt == sorted[j].updatedAt && Leq(sorted[i].id, sorted[j].id)))
            && (forall i | 0 <= i < |rows| :: RevisionOf(rows)[i] == sorted[i].identity)
  {
    LeqIsTotalOrder();
    assert TotalPreorder(Precedes) by {
      forall a, b, c | Precedes(a, b) && Precedes(b, c) ensures Precedes(a, c) {
        assert Leq(a.id, b.id) && Leq(b.id, c.id) ==> Leq(a.id, c.id);
      }
    }
    SortSorts(Precedes, rows);
    IdentitiesAt(Sort(Precedes, rows));
  }

  lemma {:induction false} IdentitiesAt(rows: seq<Row>)
    ensures |Identities(rows)| == |rows| && forall i | 0 <= i < |rows| :: Identities(rows)[i] == rows[i].identity
  {
    if rows != [] { IdentitiesAt(rows[1..]); }
  }
}
