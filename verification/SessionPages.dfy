/**
  apps/daemon/src/session-history.ts: a list is handed out in pages whose JSON text
  stays within a byte budget, each naming where the next begins. The cursor is sealed,
  so that only cursors that were handed out are accepted, and bound to one revision.
 */
module SessionPages {
  import opened Json
  import opened Sequences
  import opened Utf16
  import opened Utf8
  import opened Wrappers

  const PAGE_BYTES: nat := 12 * 1024 * 1024
  const PAGE_ENTRIES: nat := 256

  datatype Failure = Invalid | Stale | Oversize

  datatype CursorKind = ListPages | HistoryPages

  /** What a cursor is bound to. */
  datatype Scope = Scope(kind: CursorKind, target: string, revision: string, branch: Option<string>)

  datatype Cursor = Cursor(scope: Scope, offset: int)

  /** A cursor string either carries a seal that checks, and then this content, or it does not. */
  datatype Presented = NoCursor | Sealed(cursor: Cursor) | Forged

  datatype Offset = At(offset: nat) | NoOffset(failure: Failure)

  function PageOffset(p: Presented, expected: Scope): Offset {
    if p.NoCursor? then At(0)
    else if p.Forged? || p.cursor.offset < 1 then NoOffset(Invalid)
    else if p.cursor.scope != expected then NoOffset(Stale)
    else At(p.cursor.offset)
  }

  // ----- the size of a page -----

  /** The fields that come before the items, and the name of the list. */
  datatype Frame = Frame(metadata: seq<Member>, key: seq<Unit>)

  const NEXT_CURSOR: seq<Unit> := [110, 101, 120, 116, 67, 117, 114, 115, 111, 114]

  /** The object that is returned. */
  function PageJson(f: Frame, items: seq<Json>, next: Option<seq<Unit>>): Json {
    Object(f.metadata + [Member(f.key, Array(items))]
           + (if next.Some? then [Member(NEXT_CURSOR, Text(next.value))] else []))
  }

  /** The bytes of a value printed as JSON and encoded. */
  function JsonBytes(j: Json): nat {
    Size(Print(j))
  }

  function Total(items: seq<Json>): nat {
    if items == [] then 0 else JsonBytes(items[0]) + Total(items[1..])
  }

  function MemberTotal(members: seq<Member>): nat {
    if members == [] then 0 else Size(PrintMember(members[0])) + MemberTotal(members[1..])
  }

  function Commas(n: nat): nat {
    if n == 0 then 0 else n - 1
  }

  lemma OneByte(c: Scalar)
    requires c < 0x80
    ensures Size([c]) == 1
  {
  }

  lemma {:induction false} ItemsSize(items: seq<Json>)
    ensures Size(PrintItems(items)) == Total(items) + Commas(|items|)
  {
    if |items| > 1 {
      ItemsSize(items[1..]);
      SizeConcat([COMMA], PrintItems(items[1..]));
      OneByte(COMMA);
      SizeConcat(Print(items[0]), [COMMA] + PrintItems(items[1..]));
    } else if |items| == 1 {
      assert Print(items[0]) + [] == Print(items[0]);
    }
  }

  lemma {:induction false} MembersSize(members: seq<Member>)
    ensures Size(PrintMembers(members)) == MemberTotal(members) + Commas(|members|)
  {
    if |members| > 1 {
      MembersSize(members[1..]);
      SizeConcat([COMMA], PrintMembers(members[1..]));
      OneByte(COMMA);
      SizeConcat(PrintMember(members[0]), [COMMA] + PrintMembers(members[1..]));
    } else if |members| == 1 {
      assert PrintMember(members[0]) + [] == PrintMember(members[0]);
    }
  }

  lemma {:induction false} MemberTotalConcat(a: seq<Member>, b: seq<Member>)
    ensures MemberTotal(a + b) == MemberTotal(a) + MemberTotal(b)
  {
    if a == [] {
      assert a + b == b;
    } else {
      assert (a + b)[1..] == a[1..] + b;
      MemberTotalConcat(a[1..], b);
    }
  }

  lemma {:induction false} TotalConcat(a: seq<Json>, b: seq<Json>)
    ensures Total(a + b) == Total(a) + Total(b)
  {
    if a == [] {
      assert a + b == b;
    } else {
      assert (a + b)[1..] == a[1..] + b;
      TotalConcat(a[1..], b);
    }
  }

  lemma BracketSize(open: Scalar, body: seq<Scalar>, close: Scalar)
    requires open < 0x80 && close < 0x80
    ensures Size([open] + (body + [close])) == Size(body) + 2
  {
    OneByte(open);
    OneByte(close);
    SizeConcat(body, [close]);
    SizeConcat([open], body + [close]);
  }

  lemma ArrayBytes(items: seq<Json>)
    ensures JsonBytes(Array(items)) == Total(items) + Commas(|items|) + 2
  {
    ItemsSize(items);
    BracketSize(OPEN_ARRAY, PrintItems(items), CLOSE_ARRAY);
  }

  lemma ObjectBytes(members: seq<Member>)
    ensures JsonBytes(Object(members)) == MemberTotal(members) + Commas(|members|) + 2
  {
    MembersSize(members);
    BracketSize(OPEN_OBJECT, PrintMembers(members), CLOSE_OBJECT);
  }

  lemma MemberBytes(m: Member)
    ensures Size(PrintMember(m)) == Size(PrintText(m.key)) + 1 + JsonBytes(m.value)
  {
    OneByte(COLON);
    SizeConcat([COLON], Print(m.value));
    SizeConcat(PrintText(m.key), [COLON] + Print(m.value));
  }

  /** A page is as large as an empty one, its items, and the commas between them. */
  lemma PageSizeIsSum(f: Frame, items: seq<Json>, next: Option<seq<Unit>>)
    ensures JsonBytes(PageJson(f, items, next))
            == JsonBytes(PageJson(f, [], next)) + Total(items) + Commas(|items|)
  {
    var full, empty := Member(f.key, Array(items)), Member(f.key, Array([]));
    var after := if next.Some? then [Member(NEXT_CURSOR, Text(next.value))] else [];
    ObjectBytes(f.metadata + [full] + after);
    ObjectBytes(f.metadata + [empty] + after);
    MemberTotalConcat(f.metadata + [full], after);
    MemberTotalConcat(f.metadata + [empty], after);
    MemberTotalConcat(f.metadata, [full]);
    MemberTotalConcat(f.metadata, [empty]);
    assert MemberTotal([full]) == Size(PrintMember(full)) && MemberTotal([empty]) == Size(PrintMember(empty));
    MemberBytes(full);
    MemberBytes(empty);
    ArrayBytes(items);
    ArrayBytes([]);
  }

  // ----- packing one page -----

  datatype Packed = Page(items: seq<Json>, next: Option<nat>) | Refused(failure: Failure)

  /** Where the page after the values before `at` begins. */
  function NextOffset(values: seq<Json>, at: nat): Option<nat> {
    if at < |values| then Some(at) else None
  }

  function SealNext(values: seq<Json>, at: nat, seal: nat -> seq<Unit>): Option<seq<Unit>> {
    if at < |values| then Some(seal(at)) else None
  }

  /** The first `k` values from `offset` on make a page within the budget. */
  predicate Fits(f: Frame, values: seq<Json>, seal: nat -> seq<Unit>, offset: nat, k: nat)
    requires offset + k <= |values|
  {
    JsonBytes(PageJson(f, values[offset..offset + k], SealNext(values, offset + k, seal))) <= PAGE_BYTES
  }

  /** As many values as fit one after another, up to the limit. */
  ghost predicate IsPage(f: Frame, values: seq<Json>, seal: nat -> seq<Unit>, limit: nat, offset: nat, count: nat) {
    && offset + count <= |values| && count <= limit
    && (forall k | 1 <= k <= count :: Fits(f, values, seal, offset, k))
    && (count == limit || offset + count == |values| || (count > 0 && !Fits(f, values, seal, offset, count + 1)))
  }

  /** The sum the loop computes for one value more is the size of the page with it. */
  lemma SumDecidesFit(f: Frame, values: seq<Json>, seal: nat -> seq<Unit>, offset: nat, index: nat)
    requires offset <= index < |values|
    ensures Total(values[offset..index + 1]) == Total(values[offset..index]) + JsonBytes(values[index])
    ensures var sum := Overhead(f, values, seal, index + 1) + Total(values[offset..index]) + JsonBytes(values[index]);
            sum + (index - offset) <= PAGE_BYTES <==> Fits(f, values, seal, offset, index + 1 - offset)
  {
    var items := values[offset..index];
    assert values[offset..index + 1] == items + [values[index]];
    TotalConcat(items, [values[index]]);
    assert Total([values[index]]) == JsonBytes(values[index]);
    PageSizeIsSum(f, values[offset..index + 1], SealNext(values, index + 1, seal));
  }

  /** The size of a page without items. */
  function Overhead(f: Frame, values: seq<Json>, seal: nat -> seq<Unit>, at: nat): nat {
    JsonBytes(PageJson(f, [], SealNext(values, at, seal)))
  }

  /** Whether one value more keeps the computed sum within the budget. */
  method Weigh(values: seq<Json>, f: Frame, offset: nat, seal: nat -> seq<Unit>, index: nat, bytes: nat)
    returns (fits: bool, itemBytes: nat)
    requires offset <= index < |values| && bytes == Total(values[offset..index])
    ensures fits <==> Fits(f, values, seal, offset, index + 1 - offset)
    ensures bytes + itemBytes == Total(values[offset..index + 1])
    ensures values[offset..index + 1] == values[offset..index] + [values[index]]
  {
    itemBytes := JsonBytes(values[index]);
    var overhead := Overhead(f, values, seal, index + 1);
    SumDecidesFit(f, values, seal, offset, index);
    fits := overhead + bytes + itemBytes + (index - offset) <= PAGE_BYTES;
  }

  /** The loop: takes values as long as the computed sum stays within the budget. */
  method TakeFitting(values: seq<Json>, f: Frame, limit: nat, offset: nat,
                     seal: nat -> seq<Unit>) returns (items: seq<Json>)
    requires offset <= |values|
    ensures |items| <= limit && offset + |items| <= |values| && items == values[offset..offset + |items|]
    ensures forall k | 1 <= k <= |items| :: Fits(f, values, seal, offset, k)
    ensures |items| == limit || offset + |items| == |values| || !Fits(f, values, seal, offset, |items| + 1)
  {
    items := [];
    var bytes := 0;
    var index: nat := offset;
    while index < |values| && |items| < limit
      invariant offset <= index <= |values| && |items| == index - offset <= limit
      invariant items == values[offset..index] && bytes == Total(values[offset..index])
      invariant forall k | 1 <= k <= |items| :: Fits(f, values, seal, offset, k)
    {
      var fits, itemBytes := Weigh(values, f, offset, seal, index, bytes);
      if !fits { return; }
      items, bytes, index := items + [values[index]], bytes + itemBytes, index + 1;
    }
  }

  method PackPage(values: seq<Json>, f: Frame, limit: nat, offset: nat, seal: nat -> seq<Unit>) returns (r: Packed)
    requires limit > 0
    ensures r == Refused(Stale) <==> offset > |values|
    ensures r == Refused(Oversize) <==> offset < |values| && !Fits(f, values, seal, offset, 1)
    ensures r.Refused? ==> r.failure == Stale || r.failure == Oversize
    ensures r.Page? ==>
      && IsPage(f, values, seal, limit, offset, |r.items|)
      && r.items == values[offset..offset + |r.items|]
      && r.next == NextOffset(values, offset + |r.items|)
  {
    if offset > |values| { return Refused(Stale); }
    var items := TakeFitting(values, f, limit, offset, seal);
    if items == [] && offset < |values| { return Refused(Oversize); }
    r := Page(items, NextOffset(values, offset + |items|));
  }

  // ----- requests -----

  datatype Request = Request(limit: Option<int>, cursor: Presented)

  datatype Answer = Answered(items: seq<Json>, next: Option<Cursor>) | Failed(failure: Failure)

  /** The strings of the cursors into one list. */
  function SealsOf(scope: Scope, seal: Cursor -> seq<Unit>): nat -> seq<Unit> {
    n => seal(Cursor(scope, n))
  }

  /** The value at `offset` makes a page of its own that stays within the budget. */
  predicate FitsAlone(f: Frame, values: seq<Json>, scope: Scope, seal: Cursor -> seq<Unit>, offset: nat)
    requires offset < |values|
  {
    Fits(f, values, SealsOf(scope, seal), offset, 1)
  }

  function LimitOf(q: Request): int {
    q.limit.GetOr(PAGE_ENTRIES)
  }

  predicate ValidLimit(limit: Option<int>) {
    1 <= limit.GetOr(PAGE_ENTRIES) <= PAGE_ENTRIES
  }

  /** The cursor does not carry the server's seal, or names no offset a page can begin at. */
  predicate Unreadable(p: Presented) {
    p.Forged? || (p.Sealed? && p.cursor.offset < 1)
  }

  /** The cursor was made for another list: of another kind or target, at another revision or branch. */
  predicate Elsewhere(made: Scope, expected: Scope) {
    made.kind != expected.kind || made.target != expected.target
    || made.revision != expected.revision || made.branch != expected.branch
  }

  /** The values from `start` up to `end`, with the cursor to the next page if there is one, print as at most twelve mebibytes. */
  predicate InBudget(f: Frame, values: seq<Json>, scope: Scope, seal: Cursor -> seq<Unit>, start: nat, end: nat)
    requires start <= end <= |values|
  {
    JsonBytes(PageJson(f, values[start..end], if end < |values| then Some(seal(Cursor(scope, end))) else None))
    <= 12 * 1024 * 1024
  }

  lemma PageInBudget(f: Frame, values: seq<Json>, scope: Scope, seal: Cursor -> seq<Unit>, limit: nat, start: nat, count: nat)
    requires IsPage(f, values, SealsOf(scope, seal), limit, start, count)
    ensures count > 0 ==> InBudget(f, values, scope, seal, start, start + count)
    ensures count < limit && start + count < |values| ==> !InBudget(f, values, scope, seal, start, start + count + 1)
  {
    if count > 0 { assert Fits(f, values, SealsOf(scope, seal), start, count); }
  }

  /** When a request fails, and with what; every other one is answered. */
  ghost predicate Serves(r: Answer, values: seq<Json>, f: Frame, scope: Scope, q: Request, seal: Cursor -> seq<Unit>) {
    var start := PageOffset(q.cursor, scope);
    && (r == Failed(Invalid) <==> !ValidLimit(q.limit) || start == NoOffset(Invalid))
    && (r == Failed(Stale) <==>
          ValidLimit(q.limit) && (start == NoOffset(Stale) || (start.At? && start.offset > |values|)))
    && (r == Failed(Oversize) <==>
          ValidLimit(q.limit) && start.At? && start.offset < |values| && !FitsAlone(f, values, scope, seal, start.offset))
    && (r.Answered? ==> IsAnswer(r, values, f, scope, q, seal))
  }

  /** A request for the values of a scope; the string of a cursor is given by `seal`. */
  method ServePage(values: seq<Json>, f: Frame, scope: Scope, q: Request, seal: Cursor -> seq<Unit>) returns (r: Answer)
    ensures Serves(r, values, f, scope, q, seal)
    ensures r == Failed(Invalid) <==> !(1 <= q.limit.GetOr(256) <= 256) || Unreadable(q.cursor)
    ensures 1 <= q.limit.GetOr(256) <= 256 && q.cursor.Sealed? && q.cursor.cursor.offset >= 1 ==>
      (Elsewhere(q.cursor.cursor.scope, scope) ==> r == Failed(Stale))
    ensures r.Answered? ==>
      var start := if q.cursor.Sealed? then q.cursor.cursor.offset else 0;
      && (q.cursor.Sealed? ==> q.cursor.cursor.scope == scope)
      && 0 <= start <= start + |r.items| <= |values| && |r.items| <= q.limit.GetOr(256)
      && r.items == values[start..start + |r.items|]
      && (r.next.Some? <==> start + |r.items| < |values|)
      && (r.next.Some? ==> r.next.value == Cursor(scope, start + |r.items|))
  {
    var limit := LimitOf(q);
    if !(1 <= limit <= PAGE_ENTRIES) { return Failed(Invalid); }
    var start := PageOffset(q.cursor, scope);
    if start.NoOffset? { return Failed(start.failure); }
    var packed := PackPage(values, f, limit, start.offset, SealsOf(scope, seal));
    if packed.Refused? { return Failed(packed.failure); }
    r := Answered(packed.items, if packed.next.Some? then Some(Cursor(scope, packed.next.value)) else None);
  }

  /** What a request that does not fail is answered with. */
  ghost predicate IsAnswer(r: Answer, values: seq<Json>, f: Frame, scope: Scope, q: Request,
                           seal: Cursor -> seq<Unit>) {
    var start := PageOffset(q.cursor, scope);
    && r.Answered? && start.At? && ValidLimit(q.limit)
    && IsPage(f, values, SealsOf(scope, seal), LimitOf(q), start.offset, |r.items|)
    && r.items == values[start.offset..start.offset + |r.items|]
    && r.next == (if start.offset + |r.items| < |values| then Some(Cursor(scope, start.offset + |r.items|)) else None)
  }

  /**
    What a request with a valid limit and a readable cursor is answered with: an error exactly when
    its cursor is of another list or beyond the end, or its first value alone is too large, and else
    as many values as stay within the limit and the budget.
   */
  lemma ServedVerdict(r: Answer, values: seq<Json>, f: Frame, scope: Scope, q: Request, seal: Cursor -> seq<Unit>)
    requires Serves(r, values, f, scope, q, seal) && 1 <= q.limit.GetOr(256) <= 256 && !Unreadable(q.cursor)
    ensures var start := if q.cursor.Sealed? then q.cursor.cursor.offset else 0;
            var stale := q.cursor.Sealed? && (Elsewhere(q.cursor.cursor.scope, scope) || start > |values|);
            && (r == Failed(Stale) <==> stale)
            && (r == Failed(Oversize) <==> !stale && start < |values| && !InBudget(f, values, scope, seal, start, start + 1))
            && (r.Failed? ==> r.failure == Stale || r.failure == Oversize)
            && (r.Answered? ==>
                  var end := start + |r.items|;
                  && end <= |values| && r.items == values[start..end] && |r.items| <= q.limit.GetOr(256)
                  && (r.items != [] ==> InBudget(f, values, scope, seal, start, end))
                  && (end < |values| && |r.items| < q.limit.GetOr(256) ==> !InBudget(f, values, scope, seal, start, end + 1)))
  {
    var start := PageOffset(q.cursor, scope);
    if start.At? {
      if r.Answered? { PageInBudget(f, values, scope, seal, LimitOf(q), start.offset, |r.items|); }
      if start.offset < |values| { assert FitsAlone(f, values, scope, seal, start.offset) <==> InBudget(f, values, scope, seal, start.offset, start.offset + 1); }
    }
  }

  // ----- following the cursors -----

  /** Requests, each but the first with the cursor of the answer before, until an answer has none. */
  ghost predicate IsWalk(answers: seq<Answer>, values: seq<Json>, f: Frame, scope: Scope, limit: Option<int>,
                         cursor: Presented, seal: Cursor -> seq<Unit>)
  {
    && answers != [] && IsAnswer(answers[0], values, f, scope, Request(limit, cursor), seal)
    && (if |answers| == 1 then answers[0].next.None?
        else answers[0].next.Some?
             && IsWalk(answers[1..], values, f, scope, limit, Sealed(answers[0].next.value), seal))
  }

  function Collected(answers: seq<Answer>): seq<Json> {
    if answers == [] then []
    else (if answers[0].Answered? then answers[0].items else []) + Collected(answers[1..])
  }

  /** A cursor that was handed out is accepted for its own scope and leads behind its page. */
  lemma CursorContinues(r: Answer, values: seq<Json>, f: Frame, scope: Scope, q: Request, seal: Cursor -> seq<Unit>)
    requires IsAnswer(r, values, f, scope, q, seal) && r.next.Some?
    ensures r.items != []
    ensures PageOffset(Sealed(r.next.value), scope) == At(PageOffset(q.cursor, scope).offset + |r.items|)
    ensures PageOffset(q.cursor, scope).offset + |r.items| < |values|
  {
  }

  /** While the revision stands, the pages of a walk together are exactly the values. */
  lemma {:induction false} WalkCollectsAll(answers: seq<Answer>, values: seq<Json>, f: Frame, scope: Scope,
                                           limit: Option<int>, cursor: Presented, seal: Cursor -> seq<Unit>)
    requires IsWalk(answers, values, f, scope, limit, cursor, seal)
    ensures PageOffset(cursor, scope).At? && PageOffset(cursor, scope).offset <= |values|
    ensures Collected(answers) == values[PageOffset(cursor, scope).offset..]
  {
    var start := PageOffset(cursor, scope).offset;
    var n := |answers[0].items|;
    if |answers| > 1 {
      CursorContinues(answers[0], values, f, scope, Request(limit, cursor), seal);
      WalkCollectsAll(answers[1..], values, f, scope, limit, Sealed(answers[0].next.value), seal);
      SplitSlice(values, start, start + n, |values|);
    } else {
      AppendNothing(answers[0].items);
    }
  }

  ghost predicate AllContinue(answers: seq<Answer>, values: seq<Json>, f: Frame, scope: Scope, limit: Option<int>,
                              cursor: Presented, seal: Cursor -> seq<Unit>)
  {
    answers != [] ==>
      && IsAnswer(answers[0], values, f, scope, Request(limit, cursor), seal) && answers[0].next.Some?
      && AllContinue(answers[1..], values, f, scope, limit, Sealed(answers[0].next.value), seal)
  }

  /** Following cursors comes to an end: there are no more pages with a successor than values. */
  lemma {:induction false} WalkEnds(answers: seq<Answer>, values: seq<Json>, f: Frame, scope: Scope,
                                    limit: Option<int>, cursor: Presented, seal: Cursor -> seq<Unit>)
    requires AllContinue(answers, values, f, scope, limit, cursor, seal)
    requires PageOffset(cursor, scope).At? && PageOffset(cursor, scope).offset <= |values|
    ensures PageOffset(cursor, scope).offset + |answers| <= |values|
  {
    if answers != [] {
      CursorContinues(answers[0], values, f, scope, Request(limit, cursor), seal);
      WalkEnds(answers[1..], values, f, scope, limit, Sealed(answers[0].next.value), seal);
    }
  }

  // ----- which walks succeed -----

  /** A last value that fits with others before it fits alone. */
  lemma LastFitsAlone(f: Frame, values: seq<Json>, seal: nat -> seq<Unit>, offset: nat, k: nat)
    requires 1 <= k && offset + k <= |values| && Fits(f, values, seal, offset, k)
    ensures Fits(f, values, seal, offset + k - 1, 1)
  {
    var last := offset + k - 1;
    assert values[offset..last + 1] == values[offset..last] + [values[last]];
    assert values[last..last + 1] == [values[last]];
    LastAloneIsSmaller(f, values[offset..last], values[last], SealNext(values, last + 1, seal));
  }

  lemma LastAloneIsSmaller(f: Frame, items: seq<Json>, last: Json, next: Option<seq<Unit>>)
    ensures JsonBytes(PageJson(f, [last], next)) <= JsonBytes(PageJson(f, items + [last], next))
  {
    TotalConcat(items, [last]);
    PageSizeIsSum(f, items + [last], next);
    PageSizeIsSum(f, [last], next);
  }

  /** The values from `from` up to `to` fit one by one. */
  ghost predicate AllFit(f: Frame, values: seq<Json>, scope: Scope, seal: Cursor -> seq<Unit>, from: nat, to: nat)
    requires to <= |values|
  {
    forall o | from <= o < to :: FitsAlone(f, values, scope, seal, o)
  }

  /** The values of an answer all fit alone. */
  lemma AnsweredFit(r: Answer, values: seq<Json>, f: Frame, scope: Scope, q: Request, seal: Cursor -> seq<Unit>)
    requires IsAnswer(r, values, f, scope, q, seal)
    ensures var o := PageOffset(q.cursor, scope).offset; AllFit(f, values, scope, seal, o, o + |r.items|)
  {
    var o := PageOffset(q.cursor, scope).offset;
    forall i | o <= i < o + |r.items| ensures FitsAlone(f, values, scope, seal, i) {
      LastFitsAlone(f, values, SealsOf(scope, seal), o, i + 1 - o);
    }
  }

  /** Within the list a request only fails when its first value does not fit alone. */
  lemma FailsIffOversize(r: Answer, values: seq<Json>, f: Frame, scope: Scope, q: Request, seal: Cursor -> seq<Unit>)
    requires Serves(r, values, f, scope, q, seal) && ValidLimit(q.limit)
    requires PageOffset(q.cursor, scope).At? && PageOffset(q.cursor, scope).offset <= |values|
    ensures var o := PageOffset(q.cursor, scope).offset;
            && (r.Failed? <==> o < |values| && !FitsAlone(f, values, scope, seal, o))
            && (r.Failed? ==> r == Failed(Oversize))
  {
    if r.Failed? {
      assert r.failure == Invalid || r.failure == Stale || r.failure == Oversize;
    }
  }

  /** What a client gets that follows cursors until an answer has none or fails. */
  ghost predicate Followed(answers: seq<Answer>, values: seq<Json>, f: Frame, scope: Scope, limit: Option<int>,
                           cursor: Presented, seal: Cursor -> seq<Unit>)
  {
    && answers != [] && Serves(answers[0], values, f, scope, Request(limit, cursor), seal)
    && (if |answers| == 1 then answers[0].Failed? || answers[0].next.None?
        else answers[0].Answered? && answers[0].next.Some?
             && Followed(answers[1..], values, f, scope, limit, Sealed(answers[0].next.value), seal))
  }

  /** Following cursors always comes to an end, with no more answers than values left and one. */
  method FollowCursors(values: seq<Json>, f: Frame, scope: Scope, limit: Option<int>, cursor: Presented,
                       seal: Cursor -> seq<Unit>) returns (answers: seq<Answer>)
    requires ValidLimit(limit)
    requires PageOffset(cursor, scope).At? && PageOffset(cursor, scope).offset <= |values|
    ensures Followed(answers, values, f, scope, limit, cursor, seal)
    ensures |answers| <= |values| - PageOffset(cursor, scope).offset + 1
    decreases |values| - PageOffset(cursor, scope).offset
  {
    var q := Request(limit, cursor);
    var first := ServePage(values, f, scope, q, seal);
    if first.Failed? || first.next.None? { return [first]; }
    CursorContinues(first, values, f, scope, q, seal);
    var rest := FollowCursors(values, f, scope, limit, Sealed(first.next.value), seal);
    answers := [first] + rest;
    assert answers[1..] == rest;
  }

  /**
    While the revision stands, a walk succeeds exactly when every value it still has to deliver
    fits a page of its own, and its pages are then together exactly the values.
   */
  lemma {:induction false} WalkSucceedsIffAllFit(
      answers: seq<Answer>, values: seq<Json>, f: Frame, scope: Scope, limit: Option<int>,
      cursor: Presented, seal: Cursor -> seq<Unit>)
    requires ValidLimit(limit) && Followed(answers, values, f, scope, limit, cursor, seal)
    requires PageOffset(cursor, scope).At? && PageOffset(cursor, scope).offset <= |values|
    ensures var o := PageOffset(cursor, scope).offset;
            && (AllFit(f, values, scope, seal, o, |values|) <==> IsWalk(answers, values, f, scope, limit, cursor, seal))
            && (AllFit(f, values, scope, seal, o, |values|) ==> Collected(answers) == values[o..])
  {
    var o := PageOffset(cursor, scope).offset;
    var q := Request(limit, cursor);
    FailsIffOversize(answers[0], values, f, scope, q, seal);
    if answers[0].Answered? {
      AnsweredFit(answers[0], values, f, scope, q, seal);
      if |answers| > 1 {
        CursorContinues(answers[0], values, f, scope, q, seal);
        var n := |answers[0].items|;
        WalkSucceedsIffAllFit(answers[1..], values, f, scope, limit, Sealed(answers[0].next.value), seal);
        assert AllFit(f, values, scope, seal, o, |values|) <==> AllFit(f, values, scope, seal, o + n, |values|);
      }
    }
    if IsWalk(answers, values, f, scope, limit, cursor, seal) {
      WalkCollectsAll(answers, values, f, scope, limit, cursor, seal);
    }
  }

  /** A page never reaches a value that does not fit alone, so its cursor leads up to it. */
  lemma PageStopsBefore(r: Answer, values: seq<Json>, f: Frame, scope: Scope, q: Request, seal: Cursor -> seq<Unit>,
                        bad: nat)
    requires IsAnswer(r, values, f, scope, q, seal)
    requires PageOffset(q.cursor, scope).offset <= bad < |values| && !FitsAlone(f, values, scope, seal, bad)
    ensures PageOffset(q.cursor, scope).offset + |r.items| <= bad && r.next.Some?
    ensures var o := PageOffset(q.cursor, scope).offset;
            values[o..bad] == r.items + values[o + |r.items|..bad]
  {
    AnsweredFit(r, values, f, scope, q, seal);
  }

  /** A walk that fails has delivered exactly the values before the first that does not fit, and says why. */
  lemma {:induction false} WalkStopsAtOversize(
      answers: seq<Answer>, values: seq<Json>, f: Frame, scope: Scope, limit: Option<int>,
      cursor: Presented, seal: Cursor -> seq<Unit>, bad: nat)
    requires ValidLimit(limit) && Followed(answers, values, f, scope, limit, cursor, seal)
    requires PageOffset(cursor, scope).At? && PageOffset(cursor, scope).offset <= bad < |values|
    requires AllFit(f, values, scope, seal, PageOffset(cursor, scope).offset, bad)
    requires !FitsAlone(f, values, scope, seal, bad)
    ensures answers[|answers| - 1] == Failed(Oversize)
    ensures Collected(answers) == values[PageOffset(cursor, scope).offset..bad]
  {
    var o := PageOffset(cursor, scope).offset;
    var q := Request(limit, cursor);
    FailsIffOversize(answers[0], values, f, scope, q, seal);
    if answers[0].Answered? {
      PageStopsBefore(answers[0], values, f, scope, q, seal, bad);
      CursorContinues(answers[0], values, f, scope, q, seal);
      WalkStopsAtOversize(answers[1..], values, f, scope, limit, Sealed(answers[0].next.value), seal, bad);
    } else {
      assert answers[1..] == [] && Collected(answers) == [];
    }
  }
}
