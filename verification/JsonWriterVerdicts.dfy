/**
  What each call, callback and microtask does to a headless writer, told from the
  writer before it and from what the surroundings do.
 */
module JsonWriterVerdicts {
  import opened JsonWriter
  import opened Sequences
  import opened Wrappers

  /** The step calls `write`: it has a line to hand over, and nothing is in flight. */
  predicate Hands(w: Writer, l: Label) {
    !w.closed && !w.writing && (l.LEnqueue? || (l.LTick? && w.queue != []))
  }

  function LineHanded(w: Writer, l: Label): string
    requires Hands(w, l)
  {
    if w.queue != [] then w.queue[0] else l.line
  }

  /** How many callbacks without an error reach the open writer in this step. */
  function Acks(w: Writer, l: Label): nat {
    if w.closed then 0
    else if l == LDone(None) || (Hands(w, l) && l.write.done == Some(None)) then 1
    else 0
  }

  /** The error that reaches the open writer first in this step: a failure reported, called back or thrown. */
  function ErrorIn(w: Writer, l: Label): Option<Error> {
    if w.closed then None
    else if l.LFail? then Some(l.error)
    else if l.LDone? then l.result
    else if !Hands(w, l) then None
    else if l.write.done.Some? && l.write.done.value.Some? then l.write.done.value
    else l.write.throws
  }

  /** Every waiter has got this verdict, in order, and nobody else any. */
  ghost predicate SettlesWaiters(w: Writer, n: Writer, v: Verdict) {
    var before, later := w.history.settled, n.history.settled;
    && n.waiters == [] && |later| == |before| + |w.waiters| && later[..|before|] == before
    && forall k | 0 <= k < |w.waiters| :: later[|before| + k] == Settlement(w.waiters[k], v)
  }

  lemma SettleTells(w: Writer, v: Verdict)
    ensures SettlesWaiters(w, Settle(w, v), v)
  {
  }

  /** An error that reaches the open writer closes it, drops the queue, rejects every waiter and is reported once. */
  ghost predicate FailsWith(w: Writer, n: Writer, e: Error) {
    && n.closed && n.failure == Some(e) && n.queue == []
    && n.history.errors == w.history.errors + 1 && SettlesWaiters(w, n, Rejected(e))
  }

  lemma FailTells(w: Writer, e: Error)
    requires !w.closed
    ensures FailsWith(w, Fail(w, e), e) && Fail(w, e).history.acknowledged == w.history.acknowledged
  {
    SettleTells(w, Rejected(e));
  }

  /** The writer stays as open as it was, with the lines that are still to be acknowledged. */
  ghost predicate GoesOn(w: Writer, n: Writer, l: Label) {
    && n.failure == w.failure && n.history.errors == w.history.errors && n.closed == w.closed
    && (!w.closed ==>
          var lines := w.queue + (if l.LEnqueue? then [l.line] else []);
          n.queue == if Acks(w, l) == 1 && lines != [] then lines[1..] else lines)
  }

  lemma DoneVerdict(w: Writer, result: Option<Error>)
    requires w.writing
    ensures var l := LDone(result); var n := Next(w, l);
            && n.history.acknowledged == w.history.acknowledged + Acks(w, l)
            && (ErrorIn(w, l).Some? ==> FailsWith(w, n, ErrorIn(w, l).value))
            && (ErrorIn(w, l).None? ==> GoesOn(w, n, l) && n.waiters == w.waiters && n.history.settled == w.history.settled)
            && (Acks(w, l) == 1 ==> !n.writing && n.pumps == w.pumps + 1)
            && n.history.handed == w.history.handed && n.history.accepted == w.history.accepted
  {
    if result.Some? && !w.closed { FailTells(w.(writing := false), result.value); }
    assert w.queue + [] == w.queue;
  }

  /** Handing over a line: it is in flight unless `write` calls back at once, and what it reports counts. */
  lemma HandVerdict(w: Writer, b: Behaviour)
    requires !w.closed && !w.writing && w.queue != []
    ensures var n := Hand(w, b);
            var acked := b.done == Some(None);
            var error := if b.done.Some? && b.done.value.Some? then b.done.value else b.throws;
            && n.history.handed == w.history.handed + [w.queue[0]] && n.history.accepted == w.history.accepted
            && n.history.acknowledged == w.history.acknowledged + (if acked then 1 else 0)
            && (error.Some? ==> FailsWith(w, n, error.value))
            && (error.None? ==>
                  && n.failure == w.failure && n.history.errors == w.history.errors && !n.closed
                  && n.queue == (if acked then w.queue[1..] else w.queue) && n.writing == b.done.None?
                  && n.pumps == w.pumps + (if acked then 1 else 0)
                  && n.waiters == w.waiters && n.history.settled == w.history.settled)
  {
    var handed := w.(writing := true, history := w.history.(handed := w.history.handed + [w.queue[0]]));
    if b.done.Some? && b.done.value.Some? { FailTells(handed.(writing := false), b.done.value.value); }
    if b.throws.Some? {
      var called := if b.done.Some? then Done(handed, b.done.value) else handed;
      if !called.closed { FailTells(called, b.throws.value); }
    }
  }

  lemma EnqueueVerdict(w: Writer, line: string, b: Behaviour)
    ensures var l := LEnqueue(line, b); var n := Next(w, l);
            && n.history.accepted == w.history.accepted + (if w.closed then [] else [line])
            && n.history.handed == w.history.handed + (if Hands(w, l) then [LineHanded(w, l)] else [])
            && n.history.acknowledged == w.history.acknowledged + Acks(w, l)
            && (ErrorIn(w, l).Some? ==> FailsWith(w, n, ErrorIn(w, l).value))
            && (ErrorIn(w, l).None? ==> GoesOn(w, n, l) && n.waiters == w.waiters && n.history.settled == w.history.settled)
  {
    AppendNothing(w.history.handed);
    AppendNothing(w.history.accepted);
    if Hands(w, LEnqueue(line, b)) {
      var queued := w.(queue := w.queue + [line], history := w.history.(accepted := w.history.accepted + [line]));
      assert queued.queue[0] == LineHanded(w, LEnqueue(line, b));
      HandVerdict(queued, b);
    }
  }

  /** A microtask hands over the next line, or resolves the waiters when none is left. */
  lemma TickVerdict(w: Writer, b: Behaviour)
    requires w.pumps > 0
    ensures var l := LTick(b); var n := Next(w, l);
            && n.history.accepted == w.history.accepted
            && n.history.handed == w.history.handed + (if Hands(w, l) then [LineHanded(w, l)] else [])
            && n.history.acknowledged == w.history.acknowledged + Acks(w, l)
            && (ErrorIn(w, l).Some? ==> FailsWith(w, n, ErrorIn(w, l).value))
            && (ErrorIn(w, l).None? ==> GoesOn(w, n, l))
            && (!w.closed && !w.writing && w.queue == [] ==> SettlesWaiters(w, n, Resolved))
            && ((w.closed || w.writing || w.queue != []) && ErrorIn(w, l).None? ==>
                  n.waiters == w.waiters && n.history.settled == w.history.settled)
  {
    AppendNothing(w.history.handed);
    AppendNothing(w.queue);
    var begun := w.(pumps := w.pumps - 1);
    if Hands(w, LTick(b)) { HandVerdict(begun, b); }
    if !w.closed && !w.writing && w.queue == [] { SettleTells(begun, Resolved); }
  }

  /** A failure fails an open writer, and a closed one no more; closing drops what is queued and rejects who waits. */
  lemma StopVerdict(w: Writer, e: Error)
    ensures var n := Next(w, LFail(e)); if w.closed then n == w else FailsWith(w, n, e) && n.history.acknowledged == w.history.acknowledged
    ensures var n := Next(w, LClose);
            && n.closed && n.queue == [] && SettlesWaiters(w, n, Rejected("Headless JSON output closed"))
            && n.failure == w.failure && n.history.errors == w.history.errors
            && n.history.acknowledged == w.history.acknowledged && n.history.handed == w.history.handed
  {
    if !w.closed { FailTells(w, e); }
    SettleTells(w, Rejected("Headless JSON output closed"));
  }

  /** A flush is rejected after a failure, resolved at once when nothing is queued, and waits otherwise. */
  lemma FlushVerdict(w: Writer)
    ensures var n := Next(w, LFlush);
            var settled := n.history.settled;
            && n.flushes == w.flushes + 1 && n.queue == w.queue && n.closed == w.closed
            && (if w.failure.Some? then
                  n.waiters == w.waiters && settled == w.history.settled + [Settlement(w.flushes, Rejected(w.failure.value))]
                else if w.queue == [] then
                  n.waiters == w.waiters && settled == w.history.settled + [Settlement(w.flushes, Resolved)]
                else n.waiters == w.waiters + [w.flushes] && settled == w.history.settled)
            && n.history.acknowledged == w.history.acknowledged
  {
  }

  lemma StepAcks(w: Writer, l: Label)
    requires Possible(w, l)
    ensures Next(w, l).history.acknowledged == w.history.acknowledged + Acks(w, l)
  {
    match l
    case LEnqueue(line, b) => EnqueueVerdict(w, line, b);
    case LFlush => FlushVerdict(w);
    case LFail(e) => StopVerdict(w, e);
    case LClose => StopVerdict(w, "");
    case LDone(result) => DoneVerdict(w, result);
    case LTick(b) => TickVerdict(w, b);
  }

  /** How many callbacks without an error have reached the open writer in a run. */
  ghost function AllAcks(w: Writer, labels: seq<Label>): nat
    decreases labels
  {
    if labels == [] || !Possible(w, labels[0]) then 0
    else Acks(w, labels[0]) + AllAcks(Next(w, labels[0]), labels[1..])
  }

  /** In every run, the lines counted as acknowledged are the callbacks without an error. */
  lemma {:induction false} AcknowledgedMeansCalledBack(w: Writer, labels: seq<Label>, last: Writer)
    requires IsRun(w, labels, last)
    ensures last.history.acknowledged == w.history.acknowledged + AllAcks(w, labels)
    decreases labels
  {
    if labels != [] {
      StepAcks(w, labels[0]);
      AcknowledgedMeansCalledBack(Next(w, labels[0]), labels[1..], last);
    }
  }

  /**
    In every run, an error that reaches the open writer, from whichever side, fails it; and nothing
    but an error makes a failure.
   */
  lemma ErrorVerdict(labels: seq<Label>, w: Writer, l: Label)
    requires IsRun(NEW_WRITER, labels, w) && Possible(w, l)
    ensures ErrorIn(w, l).Some? ==> FailsWith(w, Next(w, l), ErrorIn(w, l).value)
    ensures ErrorIn(w, l).None? ==>
      var n := Next(w, l);
      n.failure == w.failure && n.history.errors == w.history.errors && n.closed == (w.closed || l.LClose?)
  {
    match l
    case LEnqueue(line, b) => EnqueueVerdict(w, line, b);
    case LFlush => FlushVerdict(w);
    case LFail(e) => StopVerdict(w, e);
    case LClose => StopVerdict(w, "");
    case LDone(result) => DoneVerdict(w, result);
    case LTick(b) => TickVerdict(w, b);
  }
}
