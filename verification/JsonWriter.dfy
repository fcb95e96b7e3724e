/**
  apps/felan/src/headless.ts: lines are handed to an asynchronous `write` one at a
  time; flush waits until the queue has drained. The history fields record what the
  surroundings have seen.
 */
module JsonWriter {
  import opened Sequences
  import opened Wrappers

  type Error = string

  datatype Verdict = Resolved | Rejected(error: Error)

  datatype Settlement = Settlement(waiter: nat, verdict: Verdict)

  /** What a call of `write` does before it returns: perhaps it calls back, perhaps it throws. */
  datatype Behaviour = Behaviour(done: Option<Option<Error>>, throws: Option<Error>)

  datatype Writer = Writer(
    queue: seq<string>,
    waiters: seq<nat>,
    writing: bool,
    closed: bool,
    failure: Option<Error>,
    pumps: nat,
    flushes: nat,
    history: History)

  /**
    Lines accepted, lines handed to `write`, how many of these were acknowledged, what each
    flush found, the promises settled, and the errors reported.
   */
  datatype History = History(
    accepted: seq<string>,
    handed: seq<string>,
    acknowledged: nat,
    found: seq<Found>,
    settled: seq<Settlement>,
    errors: nat)

  /** How many lines had been accepted, and whether the writer was open. */
  datatype Found = Found(before: nat, open: bool)

  const NEW_WRITER := Writer([], [], false, false, None, 0, 0, History([], [], 0, [], [], 0))

  // ----- one step -----

  function SettleAll(waiters: seq<nat>, v: Verdict): (r: seq<Settlement>)
    ensures |r| == |waiters| && forall i | 0 <= i < |r| :: r[i] == Settlement(waiters[i], v)
  {
    if waiters == [] then [] else [Settlement(waiters[0], v)] + SettleAll(waiters[1..], v)
  }

  function Settle(w: Writer, v: Verdict): Writer {
    w.(waiters := [], history := w.history.(settled := w.history.settled + SettleAll(w.waiters, v)))
  }

  function Fail(w: Writer, e: Error): Writer {
    if w.closed then w
    else
      var s := Settle(w, Rejected(e));
      s.(failure := Some(e), closed := true, queue := [], history := s.history.(errors := s.history.errors + 1))
  }

  function Close(w: Writer): Writer {
    Settle(w, Rejected("Headless JSON output closed")).(closed := true, queue := [])
  }

  /** The callback given to `write`. */
  function Done(w: Writer, e: Option<Error>): Writer {
    if w.closed then w
    else if e.Some? then Fail(w.(writing := false), e.value)
    else w.(writing := false, queue := if w.queue == [] then [] else w.queue[1..], pumps := w.pumps + 1,
            history := w.history.(acknowledged := w.history.acknowledged + 1))
  }

  function Hand(w: Writer, b: Behaviour): Writer
    requires w.queue != []
  {
    var handed := w.(writing := true, history := w.history.(handed := w.history.handed + [w.queue[0]]));
    var called := if b.done.Some? then Done(handed, b.done.value) else handed;
    if b.throws.Some? then Fail(called, b.throws.value) else called
  }

  function Pump(w: Writer, b: Behaviour): Writer {
    if w.writing || w.closed then w
    else if w.queue == [] then Settle(w, Resolved)
    else Hand(w, b)
  }

  function Enqueue(w: Writer, line: string, b: Behaviour): Writer {
    if w.closed then w
    else Pump(w.(queue := w.queue + [line], history := w.history.(accepted := w.history.accepted + [line])), b)
  }

  function Flush(w: Writer): Writer {
    var id := w.flushes;
    var called := w.(flushes := id + 1,
                     history := w.history.(found := w.history.found + [Found(|w.history.accepted|, !w.closed)]));
    if w.failure.Some? then Resolve(called, id, Rejected(w.failure.value))
    else if w.queue == [] then Resolve(called, id, Resolved)
    else called.(waiters := w.waiters + [id])
  }

  function Resolve(w: Writer, id: nat, v: Verdict): Writer {
    w.(history := w.history.(settled := w.history.settled + [Settlement(id, v)]))
  }

  // ----- the writer -----

  class HeadlessJsonWriter {
    var queue: seq<string>
    var waiters: seq<nat>
    var writing: bool
    var closed: bool
    var failure: Option<Error>
    /** Microtasks that will call pump. */
    var pumps: nat
    /** How many promises flush has handed out; each is known by its number. */
    var flushes: nat
    ghost var history: History

    ghost function View(): Writer
      reads this
    {
      Writer(queue, waiters, writing, closed, failure, pumps, flushes, history)
    }

    constructor ()
      ensures View() == NEW_WRITER
    {
      queue, waiters, writing, closed, failure, pumps, flushes := [], [], false, false, None, 0, 0;
      history := History([], [], 0, [], [], 0);
    }

    method SettleWaiters(v: Verdict)
      modifies `waiters, `history
      ensures View() == Settle(old(View()), v)
    {
      ghost var before := history;
      for i := 0 to |waiters|
        invariant waiters == old(waiters)
        invariant history == before.(settled := before.settled + SettleAll(waiters, v)[..i])
      {
        history := history.(settled := history.settled + [Settlement(waiters[i], v)]);
        assert SettleAll(waiters, v)[..i + 1] == SettleAll(waiters, v)[..i] + [Settlement(waiters[i], v)];
      }
      assert SettleAll(waiters, v)[..|waiters|] == SettleAll(waiters, v);
      waiters := [];
    }

    method FailWith(e: Error)
      modifies this
      ensures View() == Fail(old(View()), e)
    {
      if closed { return; }
      failure, closed := Some(e), true;
      queue := [];
      SettleWaiters(Rejected(e));
      history := history.(errors := history.errors + 1);
    }

    /** Returns the number of the promise; whether it is settled at once shows in the history. */
    method FlushLines() returns (id: nat)
      modifies this
      ensures id == old(flushes) && View() == Flush(old(View()))
    {
      id := flushes;
      flushes := flushes + 1;
      history := history.(found := history.found + [Found(|history.accepted|, !closed)]);
      if failure.Some? {
        history := history.(settled := history.settled + [Settlement(id, Rejected(failure.value))]);
      } else if |queue| == 0 {
        history := history.(settled := history.settled + [Settlement(id, Resolved)]);
      } else {
        waiters := waiters + [id];
      }
    }

    method CloseWriter()
      modifies this
      ensures View() == Close(old(View()))
    {
      closed := true;
      queue := [];
      SettleWaiters(Rejected("Headless JSON output closed"));
    }

    method WriteDone(e: Option<Error>)
      modifies this
      ensures View() == Done(old(View()), e)
    {
      if closed { return; }
      writing := false;
      if e.Some? {
        FailWith(e.value);
        return;
      }
      history := history.(acknowledged := history.acknowledged + 1);
      if |queue| > 0 { queue := queue[1..]; }
      pumps := pumps + 1;
    }

    /** pump(); `b` is what `write` does if it is called. */
    method PumpQueue(b: Behaviour)
      modifies this
      ensures View() == Pump(old(View()), b)
    {
      if writing || closed { return; }
      if |queue| == 0 {
        SettleWaiters(Resolved);
        return;
      }
      writing := true;
      history := history.(handed := history.handed + [queue[0]]);
      if b.done.Some? { WriteDone(b.done.value); }
      if b.throws.Some? { FailWith(b.throws.value); }
    }

    method EnqueueLine(line: string, b: Behaviour)
      modifies this
      ensures View() == Enqueue(old(View()), line, b)
    {
      if closed { return; }
      queue := queue + [line];
      history := history.(accepted := history.accepted + [line]);
      PumpQueue(b);
    }
  }

  // ----- runs -----

  /** What the surroundings can do; a write in flight calls back at most once. */
  datatype Label =
    | LEnqueue(line: string, write: Behaviour)
    | LFlush
    | LFail(error: Error)
    | LClose
    | LDone(result: Option<Error>)
    | LTick(write: Behaviour)

  predicate Possible(w: Writer, l: Label) {
    && (l.LDone? ==> w.writing)
    && (l.LTick? ==> w.pumps > 0)
  }

  function Next(w: Writer, l: Label): Writer
    requires Possible(w, l)
  {
    match l
    case LEnqueue(line, b) => Enqueue(w, line, b)
    case LFlush => Flush(w)
    case LFail(e) => Fail(w, e)
    case LClose => Close(w)
    case LDone(e) => Done(w, e)
    case LTick(b) => Pump(w.(pumps := w.pumps - 1), b)
  }

  ghost predicate IsRun(w: Writer, labels: seq<Label>, last: Writer)
    decreases labels
  {
    if labels == [] then w == last
    else Possible(w, labels[0]) && IsRun(Next(w, labels[0]), labels[1..], last)
  }

  method React(writer: HeadlessJsonWriter, l: Label)
    requires Possible(writer.View(), l)
    modifies writer
    ensures writer.View() == Next(old(writer.View()), l)
  {
    match l {
      case LEnqueue(line, b) => writer.EnqueueLine(line, b);
      case LFlush => var _ := writer.FlushLines();
      case LFail(e) => writer.FailWith(e);
      case LClose => writer.CloseWriter();
      case LDone(e) => writer.WriteDone(e);
      case LTick(b) =>
        writer.pumps := writer.pumps - 1;
        writer.PumpQueue(b);
    }
  }

  /** A writer to which the events of a run happen ends in the state of the run. */
  method Live(labels: seq<Label>, ghost last: Writer) returns (writer: HeadlessJsonWriter)
    requires IsRun(NEW_WRITER, labels, last)
    ensures fresh(writer) && writer.View() == last
    ensures writer.history.handed <= writer.history.accepted
    ensures SettledOnce(writer.history.settled)
  {
    writer := new HeadlessJsonWriter();
    for i := 0 to |labels|
      invariant fresh(writer) && IsRun(writer.View(), labels[i..], last)
    {
      assert labels[i..][0] == labels[i] && labels[i..][1..] == labels[i + 1..];
      React(writer, labels[i]);
    }
    LinesReachWriteInOrder(labels, last);
    EachFlushSettlesOnce(labels, last, 0);
  }

  // ----- what every step keeps -----

  /** Lines are handed over in order, each once the one before has been acknowledged. */
  ghost predicate LinesOk(w: Writer) {
    var h := w.history;
    && h.acknowledged <= |h.handed| <= h.acknowledged + 1 && |h.handed| <= |h.accepted|
    && h.handed == h.accepted[..|h.handed|]
    && (w.closed ==> w.queue == [])
    && (!w.closed ==>
          && w.queue == h.accepted[h.acknowledged..]
          && |h.handed| == h.acknowledged + (if w.writing then 1 else 0))
  }

  /** Whatever is left to do will be done: a write is in flight or a pump is due. */
  ghost predicate ProgressOk(w: Writer) {
    !w.closed && (w.queue != [] || w.waiters != []) ==> w.writing || w.pumps > 0
  }

  ghost predicate IsSettled(s: seq<Settlement>, id: nat) {
    exists i | 0 <= i < |s| :: s[i].waiter == id
  }

  ghost predicate SettledOnce(s: seq<Settlement>) {
    forall i, j | 0 <= i < j < |s| :: s[i].waiter != s[j].waiter
  }

  /** Every flush is waiting or has been settled, not both, and not twice. */
  ghost predicate Tally(waiting: seq<nat>, s: seq<Settlement>, n: nat) {
    && Distinct(waiting) && SettledOnce(s)
    && (forall i | 0 <= i < |waiting| :: waiting[i] < n && !IsSettled(s, waiting[i]))
    && (forall i | 0 <= i < |s| :: s[i].waiter < n)
    && (forall id | 0 <= id < n :: id in waiting || IsSettled(s, id))
  }

  ghost predicate WaitersOk(w: Writer) {
    && Tally(w.waiters, w.history.settled, w.flushes)
    && |w.history.found| == w.flushes
    && (w.closed ==> w.waiters == [])
    && (forall i | 0 <= i < w.flushes :: w.history.found[i].before <= |w.history.accepted|)
  }

  /** A flush that found the writer open resolves only when the lines before it are acknowledged. */
  ghost predicate Honest(h: History, s: Settlement) {
    s.waiter < |h.found| && (s.verdict.Resolved? && h.found[s.waiter].open ==> h.found[s.waiter].before <= h.acknowledged)
  }

  ghost predicate ResolvedOk(w: Writer) {
    forall i | 0 <= i < |w.history.settled| :: Honest(w.history, w.history.settled[i])
  }

  ghost predicate ErrorsOk(w: Writer) {
    w.history.errors == (if w.failure.Some? then 1 else 0) && (w.failure.Some? ==> w.closed)
  }

  ghost predicate Ok(w: Writer) {
    LinesOk(w) && ProgressOk(w) && WaitersOk(w) && ResolvedOk(w) && ErrorsOk(w)
  }

  lemma SettledInConcat(a: seq<Settlement>, b: seq<Settlement>, id: nat)
    ensures IsSettled(a + b, id) <==> IsSettled(a, id) || IsSettled(b, id)
  {
    if IsSettled(a, id) {
      var i :| 0 <= i < |a| && a[i].waiter == id;
      assert (a + b)[i].waiter == id;
    }
    if IsSettled(b, id) {
      var i :| 0 <= i < |b| && b[i].waiter == id;
      assert (a + b)[|a| + i].waiter == id;
    }
  }

  lemma SettledInAll(waiters: seq<nat>, v: Verdict, id: nat)
    ensures IsSettled(SettleAll(waiters, v), id) <==> id in waiters
  {
    if id in waiters {
      var i :| 0 <= i < |waiters| && waiters[i] == id;
      assert SettleAll(waiters, v)[i].waiter == id;
    }
  }

  /** Settling all waiters moves each of them from the waiters to the settled. */
  lemma TallySettled(waiting: seq<nat>, s: seq<Settlement>, n: nat, v: Verdict)
    requires Tally(waiting, s, n)
    ensures Tally([], s + SettleAll(waiting, v), n)
  {
    var more := SettleAll(waiting, v);
    var all := s + more;
    forall id | 0 <= id < n ensures IsSettled(all, id) {
      SettledInConcat(s, more, id);
      SettledInAll(waiting, v, id);
    }
    forall i, j | 0 <= i < j < |all| ensures all[i].waiter != all[j].waiter {
      if j >= |s| {
        assert all[j].waiter == waiting[j - |s|];
        assert i >= |s| ==> all[i].waiter == waiting[i - |s|];
        assert !IsSettled(s, waiting[j - |s|]);
      }
    }
  }

  lemma SettleKeepsWaiters(w: Writer, v: Verdict)
    requires WaitersOk(w)
    ensures WaitersOk(Settle(w, v))
  {
    TallySettled(w.waiters, w.history.settled, w.flushes, v);
  }

  lemma SettleKeepsHonest(w: Writer, v: Verdict)
    requires WaitersOk(w) && ResolvedOk(w)
    requires v.Resolved? ==> w.history.acknowledged == |w.history.accepted|
    ensures ResolvedOk(Settle(w, v))
  {
    var h, settled := w.history, w.history.settled;
    var more := SettleAll(w.waiters, v);
    var later := Settle(w, v).history;
    forall i | 0 <= i < |settled + more| ensures Honest(later, (settled + more)[i]) {
      if i < |settled| {
        assert Honest(h, settled[i]);
      } else {
        assert (settled + more)[i] == more[i - |settled|] == Settlement(w.waiters[i - |settled|], v);
      }
    }
  }

  lemma SettleKeeps(w: Writer, v: Verdict)
    requires WaitersOk(w) && ResolvedOk(w)
    requires v.Resolved? ==> w.history.acknowledged == |w.history.accepted|
    ensures WaitersOk(Settle(w, v)) && ResolvedOk(Settle(w, v))
  {
    SettleKeepsWaiters(w, v);
    SettleKeepsHonest(w, v);
  }

  lemma FailKeeps(w: Writer, e: Error)
    requires LinesOk(w) && WaitersOk(w) && ResolvedOk(w) && ErrorsOk(w)
    ensures LinesOk(Fail(w, e)) && WaitersOk(Fail(w, e)) && ResolvedOk(Fail(w, e)) && ErrorsOk(Fail(w, e))
    ensures ProgressOk(Fail(w, e)) && Fail(w, e).closed
  {
    if !w.closed { SettleKeeps(w, Rejected(e)); }
  }

  lemma CloseKeeps(w: Writer)
    requires Ok(w)
    ensures Ok(Close(w))
  {
    SettleKeeps(w, Rejected("Headless JSON output closed"));
  }

  /** The callback of a write in flight. */
  lemma DoneKeeps(w: Writer, e: Option<Error>)
    requires LinesOk(w) && WaitersOk(w) && ResolvedOk(w) && ErrorsOk(w) && w.writing
    ensures Ok(Done(w, e))
  {
    if !w.closed {
      if e.Some? {
        DoneFails(w, e.value);
      } else {
        var h := w.history;
        assert w.queue == h.accepted[h.acknowledged..] && w.queue != [];
        assert w.queue[1..] == h.accepted[h.acknowledged + 1..];
        forall i | 0 <= i < |h.settled| ensures Honest(Done(w, e).history, h.settled[i]) {
          assert Honest(h, h.settled[i]);
        }
      }
    }
  }

  /** A failed write is no longer in flight, but its line stays handed over. */
  lemma DoneFails(w: Writer, e: Error)
    requires LinesOk(w) && WaitersOk(w) && ResolvedOk(w) && ErrorsOk(w) && w.writing && !w.closed
    ensures Ok(Fail(w.(writing := false), e))
  {
    SettleKeeps(w.(writing := false), Rejected(e));
  }

  /** Handing over the first line of the queue, whatever `write` does with it. */
  lemma HandKeeps(w: Writer, b: Behaviour)
    requires LinesOk(w) && WaitersOk(w) && ResolvedOk(w) && ErrorsOk(w) && !w.closed && !w.writing && w.queue != []
    ensures Ok(Hand(w, b))
  {
    var h := w.history;
    var handed := w.(writing := true, history := h.(handed := h.handed + [w.queue[0]]));
    assert w.queue[0] == h.accepted[h.acknowledged];
    assert h.accepted[..h.acknowledged + 1] == h.handed + [w.queue[0]];
    forall i | 0 <= i < |h.settled| ensures Honest(handed.history, h.settled[i]) { assert Honest(h, h.settled[i]); }
    var called := if b.done.Some? then Done(handed, b.done.value) else handed;
    if b.done.Some? { DoneKeeps(handed, b.done.value); }
    if b.throws.Some? { FailKeeps(called, b.throws.value); }
  }

  lemma PumpKeeps(w: Writer, b: Behaviour)
    requires LinesOk(w) && WaitersOk(w) && ResolvedOk(w) && ErrorsOk(w)
    ensures Ok(Pump(w, b))
  {
    if !w.writing && !w.closed {
      if w.queue == [] {
        assert w.history.accepted[w.history.acknowledged..] == [];
        SettleKeeps(w, Resolved);
      } else {
        HandKeeps(w, b);
      }
    }
  }

  lemma EnqueueKeeps(w: Writer, line: string, b: Behaviour)
    requires Ok(w)
    ensures Ok(Enqueue(w, line, b))
  {
    if !w.closed {
      var h := w.history;
      var more := w.(queue := w.queue + [line], history := h.(accepted := h.accepted + [line]));
      assert more.queue == more.history.accepted[h.acknowledged..];
      assert more.history.accepted[..|h.handed|] == h.accepted[..|h.handed|];
      forall i | 0 <= i < |h.settled| ensures Honest(more.history, h.settled[i]) { assert Honest(h, h.settled[i]); }
      PumpKeeps(more, b);
    }
  }

  /** One more flush is one more waiter or one more settlement. */
  lemma TallyWaits(waiting: seq<nat>, s: seq<Settlement>, n: nat)
    requires Tally(waiting, s, n)
    ensures Tally(waiting + [n], s, n + 1)
  {
    forall id | 0 <= id < n + 1 ensures id in waiting + [n] || IsSettled(s, id) {
      assert id < n ==> id in waiting || IsSettled(s, id);
    }
  }

  lemma TallyResolves(waiting: seq<nat>, s: seq<Settlement>, n: nat, v: Verdict)
    requires Tally(waiting, s, n)
    ensures Tally(waiting, s + [Settlement(n, v)], n + 1)
  {
    var last := [Settlement(n, v)];
    assert last[0].waiter == n;
    forall id | 0 <= id < n + 1 ensures id in waiting || IsSettled(s + last, id) {
      SettledInConcat(s, last, id);
      assert id < n ==> id in waiting || IsSettled(s, id);
    }
    forall i | 0 <= i < |waiting| ensures !IsSettled(s + last, waiting[i]) {
      SettledInConcat(s, last, waiting[i]);
    }
  }

  lemma FlushKeepsWaiters(w: Writer)
    requires WaitersOk(w) && LinesOk(w)
    ensures WaitersOk(Flush(w))
  {
    TallyWaits(w.waiters, w.history.settled, w.flushes);
    TallyResolves(w.waiters, w.history.settled, w.flushes, if w.failure.Some? then Rejected(w.failure.value) else Resolved);
  }

  lemma FlushKeepsHonest(w: Writer)
    requires Ok(w)
    ensures ResolvedOk(Flush(w))
  {
    var f := Flush(w);
    var settled := w.history.settled;
    assert f.history.found[w.flushes] == Found(|w.history.accepted|, !w.closed);
    assert forall j | 0 <= j < w.flushes :: f.history.found[j] == w.history.found[j];
    forall i | 0 <= i < |f.history.settled| ensures Honest(f.history, f.history.settled[i]) {
      if i < |settled| {
        assert f.history.settled[i] == settled[i];
        assert Honest(w.history, settled[i]);
      } else {
        assert f.history.settled[i].waiter == w.flushes;
      }
    }
  }

  lemma FlushKeeps(w: Writer)
    requires Ok(w)
    ensures Ok(Flush(w))
  {
    FlushKeepsWaiters(w);
    FlushKeepsHonest(w);
  }

  lemma TickKeeps(w: Writer, b: Behaviour)
    requires Ok(w) && w.pumps > 0
    ensures Ok(Pump(w.(pumps := w.pumps - 1), b))
  {
    var due := w.(pumps := w.pumps - 1);
    assert LinesOk(due) && WaitersOk(due) && ErrorsOk(due);
    assert ResolvedOk(due) by {
      forall i | 0 <= i < |due.history.settled| ensures Honest(due.history, due.history.settled[i]) {
        assert Honest(w.history, w.history.settled[i]);
      }
    }
    PumpKeeps(due, b);
  }

  lemma StepKeeps(w: Writer, l: Label, next: Writer)
    requires Ok(w) && Possible(w, l) && next == Next(w, l)
    ensures Ok(next)
  {
    match l
    case LEnqueue(line, b) => EnqueueKeeps(w, line, b);
    case LFlush => FlushKeeps(w);
    case LFail(e) => FailKeeps(w, e);
    case LClose => CloseKeeps(w);
    case LDone(e) => DoneKeeps(w, e);
    case LTick(b) => TickKeeps(w, b);
  }

  lemma {:induction false} RunKeeps(w: Writer, labels: seq<Label>, last: Writer)
    requires Ok(w) && IsRun(w, labels, last)
    ensures Ok(last)
    decreases labels
  {
    if labels != [] {
      StepKeeps(w, labels[0], Next(w, labels[0]));
      RunKeeps(Next(w, labels[0]), labels[1..], last);
    }
  }

  // ----- main results -----

  lemma RunLines(labels: seq<Label>, w: Writer)
    requires IsRun(NEW_WRITER, labels, w)
    ensures LinesOk(w)
  {
    RunKeeps(NEW_WRITER, labels, w);
  }

  /** In every run lines reach `write` in the order they were accepted, one at a time, none lost or repeated. */
  lemma LinesReachWriteInOrder(labels: seq<Label>, w: Writer)
    requires IsRun(NEW_WRITER, labels, w)
    ensures w.history.handed <= w.history.accepted
    ensures w.history.acknowledged <= |w.history.handed| <= w.history.acknowledged + 1
    ensures !w.closed ==> w.history.accepted == w.history.accepted[..w.history.acknowledged] + w.queue
  {
    RunLines(labels, w);
  }

  /** In every run an open writer with lines or waiters left has a write in flight or a pump due. */
  lemma NeverStuck(labels: seq<Label>, w: Writer)
    requires IsRun(NEW_WRITER, labels, w) && !w.closed && (w.queue != [] || w.waiters != [])
    ensures w.writing || w.pumps > 0
  {
    RunKeeps(NEW_WRITER, labels, w);
  }

  /** In every run each flush is either still waiting or settled, and settled once; after closing none waits. */
  lemma EachFlushSettlesOnce(labels: seq<Label>, w: Writer, id: nat)
    requires IsRun(NEW_WRITER, labels, w)
    ensures SettledOnce(w.history.settled) && Distinct(w.waiters)
    ensures id < w.flushes ==> (IsSettled(w.history.settled, id) <==> id !in w.waiters)
    ensures id < w.flushes && w.closed ==> IsSettled(w.history.settled, id)
    ensures id >= w.flushes ==> !IsSettled(w.history.settled, id) && id !in w.waiters
  {
    RunKeeps(NEW_WRITER, labels, w);
  }

  /** In every run a flush made while the writer was open resolves only after all earlier lines were acknowledged. */
  lemma ResolvedMeansAcknowledged(labels: seq<Label>, w: Writer, i: nat)
    requires IsRun(NEW_WRITER, labels, w) && i < |w.history.settled|
    requires w.history.settled[i].verdict.Resolved?
    ensures w.history.settled[i].waiter < |w.history.found|
    ensures var found := w.history.found[w.history.settled[i].waiter];
            found.open ==> found.before <= w.history.acknowledged
  {
    RunKeeps(NEW_WRITER, labels, w);
    assert Honest(w.history, w.history.settled[i]);
  }

  /** A flush resolves at once over unacknowledged lines exactly when close() has dropped them. */
  lemma FlushAfterClose(labels: seq<Label>, w: Writer)
    requires IsRun(NEW_WRITER, labels, w) && w.history.acknowledged < |w.history.accepted|
    ensures Settlement(w.flushes, Resolved) in Flush(w).history.settled <==> w.closed && w.failure.None?
  {
    RunKeeps(NEW_WRITER, labels, w);
    var settled := w.history.settled;
    assert forall s | s in settled :: s.waiter < w.flushes;
    assert Settlement(w.flushes, Resolved) in settled + [Settlement(w.flushes, Resolved)];
  }

  /** This happens: a line is enqueued, the writer closed, and the flush resolves though nothing was acknowledged. */
  lemma CloseThenFlushResolves(line: string)
    ensures var labels := [LEnqueue(line, Behaviour(None, None)), LClose, LFlush];
            exists w :: IsRun(NEW_WRITER, labels, w) && w.history.accepted == [line] && w.history.acknowledged == 0
                        && w.history.settled == [Settlement(0, Resolved)]
  {
    var labels := [LEnqueue(line, Behaviour(None, None)), LClose, LFlush];
    var w1 := Next(NEW_WRITER, labels[0]);
    var w2 := Next(w1, labels[1]);
    var w3 := Next(w2, labels[2]);
    assert labels[1..] == [LClose, LFlush] && labels[1..][1..] == [LFlush] && labels[1..][1..][1..] == [];
    assert IsRun(w2, labels[1..][1..], w3);
    assert IsRun(w1, labels[1..], w3);
    assert IsRun(NEW_WRITER, labels, w3);
  }
}
