/**
  What a read answers, what it stores, and which status a process that has ended is
  given, told from the replies of the process.
 */
module CoordinatorVerdicts {
  import opened Coordinator
  import opened CoordinatorSafety
  import opened TextDecoding
  import opened Utf8
  import opened Wrappers

  // ----- the stored status -----

  /** What the last reply of a process means for its job: the signal counts first, then the exit code. */
  predicate Tells(r: Reply, f: Patch) {
    && (f.Killed? <==> r.signal.Some?)
    && (f.Killed? ==> r.signal == Some(f.signal))
    && (f == Unknown <==> r.signal.None? && r.exitCode.None?)
    && (f == Completed <==> r.signal.None? && r.exitCode == Some(0))
    && (f.Failed? <==> r.signal.None? && r.exitCode.Some? && r.exitCode.value != 0)
    && (f.Failed? ==> f.exitCode == r.exitCode)
  }

  /** A snapshot that says what a reply said. */
  predicate Repeats(s: Snap, r: Reply) {
    s.running == r.running && s.nextOffset == r.nextOffset && s.exitCode == r.exitCode && s.signal == r.signal
  }

  ghost predicate StatusTells(m: Store, past: Past) {
    PersistedStatus(m) ==> exists r :: r in past.ended && Tells(r, m.finished.value.patch)
  }

  ghost predicate PendingTells(e: Entry, past: Past) {
    e.pendingSnapshot.Some? && !e.pendingSnapshot.value.running ==>
      exists r :: r in past.ended && Repeats(e.pendingSnapshot.value, r)
  }

  lemma PersistTells(m: Store, kind: Kind, s: Snap, fault: Fault, past: Past)
    requires StatusTells(m, past) && (!s.running ==> exists r :: r in past.ended && Repeats(s, r))
    ensures StatusTells(Persist(m, kind, s, fault).store, past)
  {
    if !s.running {
      var r :| r in past.ended && Repeats(s, r);
      assert PersistedStatus(Persist(m, kind, s, fault).store) && !PersistedStatus(m) ==>
        Tells(r, Persist(m, kind, s, fault).store.finished.value.patch);
    }
  }

  lemma DeliverTells(w: World, s: Snap, fault: Fault)
    requires StatusTells(w.store, w.past) && PendingTells(w.entry, w.past)
    requires !s.running ==> exists r :: r in w.past.ended && Repeats(s, r)
    ensures StatusTells(Deliver(w, s, fault).store, w.past) && PendingTells(Deliver(w, s, fault).entry, w.past)
    ensures Deliver(w, s, fault).past == w.past
  {
    PersistTells(w.store, w.entry.kind, s, fault, w.past);
  }

  lemma TakenTells(w: World, r: Reply)
    requires StatusTells(w.store, w.past) && PendingTells(w.entry, w.past)
    ensures var t := Taken(w, r);
            && StatusTells(t.store, t.past) && PendingTells(t.entry, t.past)
            && (!r.running ==> r in t.past.ended && Repeats(SnapOf(w.entry, r, w.nextKey), r))
  {
    var t := Taken(w, r);
    assert forall x | x in w.past.ended :: x in t.past.ended;
  }

  lemma ReadTells(w: World, t: Turn)
    requires StatusTells(w.store, w.past) && PendingTells(w.entry, w.past)
    ensures StatusTells(ReadUnlocked(w, t).store, ReadUnlocked(w, t).past)
    ensures PendingTells(ReadUnlocked(w, t).entry, ReadUnlocked(w, t).past)
  {
    if Finished(w.entry) {
    } else if w.entry.pendingSnapshot.Some? {
      DeliverTells(w, w.entry.pendingSnapshot.value, t.fault);
    } else if t.reply.Some? {
      TakenTells(w, t.reply.value);
      DeliverTells(Taken(w, t.reply.value), SnapOf(w.entry, t.reply.value, w.nextKey), t.fault);
    }
  }

  lemma {:induction false} RunTells(w: World, events: seq<Event>)
    requires StatusTells(w.store, w.past) && PendingTells(w.entry, w.past)
    ensures StatusTells(Run(w, events).store, Run(w, events).past)
    decreases events
  {
    if events != [] {
      if events[0].Reads? { ReadTells(w, events[0].turn); }
      RunTells(Evolve(w, events[0]), events[1..]);
    }
  }

  /** The end of an attached process is read once. */
  ghost predicate EndsOnce(w: World) {
    |w.past.ended| <= 1 && (w.past.ended != [] ==> Ended(w.entry))
  }

  lemma ReadEndsOnce(stream: seq<Byte>, w: World, t: Turn)
    requires AttachedOk(w) && Genuine(stream, w, t) && EndsOnce(w)
    ensures EndsOnce(ReadUnlocked(w, t))
  {
    if !Finished(w.entry) && w.entry.pendingSnapshot.None? && t.reply.Some? {
      var r := t.reply.value;
      if !Changed(w.entry.snapshot, SnapOf(w.entry, r, w.nextKey)) { TakenUnchanged(w, r); }
    }
  }

  lemma {:induction false} RunEndsOnce(stream: seq<Byte>, w: World, events: seq<Event>)
    requires AttachedOk(w) && InOrder(stream, w) && AllGenuine(stream, w, events) && EndsOnce(w)
    ensures EndsOnce(Run(w, events))
    decreases events
  {
    if events != [] {
      if events[0].Reads? { ReadEndsOnce(stream, w, events[0].turn); }
      EventKeeps(stream, w, events[0]);
      RunEndsOnce(stream, Evolve(w, events[0]), events[1..]);
    }
  }

  /**
    In every run the status that persistence has stored for an attached process is the one its
    only ending reply means.
   */
  lemma AttachedStatusTells(stream: seq<Byte>, events: seq<Event>)
    requires AllGenuine(stream, Initial(Attached), events)
    ensures var w := Run(Initial(Attached), events);
            PersistedStatus(w.store) ==> |w.past.ended| == 1 && Tells(w.past.ended[0], w.store.finished.value.patch)
  {
    InitialOk();
    RunTells(Initial(Attached), events);
    RunEndsOnce(stream, Initial(Attached), events);
  }

  /** For a terminal it is the one that a reply which said it had ended means. */
  lemma TerminalStatusTells(events: seq<Event>)
    ensures var w := Run(Initial(Pty), events);
            PersistedStatus(w.store) ==> exists r :: r in w.past.ended && Tells(r, w.store.finished.value.patch)
  {
    RunTells(Initial(Pty), events);
  }

  lemma FinishStays(w: World, e: Event)
    requires w.store.finished.Some?
    ensures Evolve(w, e).store.finished == w.store.finished
  {
  }

  /** The first status stored stands, whoever stores others later. */
  lemma {:induction false} FirstStatusStands(w: World, patch: Patch, events: seq<Event>)
    ensures var first := w.store.finished.GetOr(Finish(patch, false));
            Run(Evolve(w, MarkedElsewhere(patch)), events).store.finished == Some(first)
    decreases events
  {
    FinishedRun(Evolve(w, MarkedElsewhere(patch)), events);
  }

  lemma {:induction false} FinishedRun(w: World, events: seq<Event>)
    requires w.store.finished.Some?
    ensures Run(w, events).store.finished == w.store.finished
    decreases events
  {
    if events != [] {
      FinishStays(w, events[0]);
      FinishedRun(Evolve(w, events[0]), events[1..]);
    }
  }

  // ----- one read -----

  /** The reply says nothing that the last delivered snapshot has not said. */
  predicate NoNews(e: Entry, r: Reply) {
    e.snapshot.Some? && Repeats(e.snapshot.value, r)
  }

  /** The next read asks the process. */
  predicate Asks(e: Entry) {
    e.pendingSnapshot.None? && (e.kind == Attached ==> !Ended(e))
  }

  /** A read that the process does not answer fails and leaves everything as it is. */
  lemma UnansweredReadVerdict(w: World, fault: Fault, disposes: bool)
    requires Asks(w.entry)
    ensures ReadUnlocked(w, Turn(None, fault, disposes)) == w && Answer(w, Turn(None, fault, disposes)).None?
  {
  }

  /**
    A read that takes a reply answers what the reply says, and, of an attached process, the text it
    adds, of a terminal the text that is kept.
   */
  lemma FreshAnswerVerdict(w: World, r: Reply, fault: Fault, disposes: bool)
    requires Asks(w.entry)
    ensures var t := Turn(Some(r), fault, disposes); var next, s := ReadUnlocked(w, t), Answer(w, t);
            && next.entry.offset == r.nextOffset && next.past.bytes == w.past.bytes + r.output
            && (s.Some? ==>
                  && Repeats(s.value, r) && next.entry.pendingSnapshot.None?
                  && (w.entry.kind == Attached ==> next.past.decoded == w.past.decoded + s.value.output)
                  && (w.entry.kind == Pty ==> s.value.output == next.entry.output))
  {
    var taken, s := Taken(w, r), SnapOf(w.entry, r, w.nextKey);
    assert w.past.decoded + DecodeReply(w.entry.decoder, r).text == taken.past.decoded;
    ConcludeKeeps(taken, s, fault);
  }

  /** Delivering a snapshot changes nothing that was read. */
  lemma ConcludeKeeps(w: World, s: Snap, fault: Fault)
    ensures var next := Conclude(w, s, fault);
            next.past == w.past && next.entry.offset == w.entry.offset && next.entry.output == w.entry.output
  {
  }

  /** Without news storage is not touched. */
  lemma NoNewsVerdict(w: World, r: Reply, fault: Fault, disposes: bool)
    requires Asks(w.entry) && NoNews(w.entry, r)
    ensures var next := ReadUnlocked(w, Turn(Some(r), fault, disposes));
            next.store == w.store && next.entry.snapshot == w.entry.snapshot && next.entry.pendingSnapshot.None?
  {
    assert !Changed(w.entry.snapshot, SnapOf(w.entry, r, w.nextKey));
  }

  /** News are delivered: the log gets the text, and the snapshot says what the reply said. */
  lemma NewsVerdict(w: World, r: Reply, fault: Fault, disposes: bool)
    requires Asks(w.entry) && !NoNews(w.entry, r)
    requires w.nextKey !in w.store.appended
    ensures var t := Turn(Some(r), fault, disposes); var next, s := ReadUnlocked(w, t), Answer(w, t);
            s.Some? ==>
              && next.entry.snapshot.Some? && Repeats(next.entry.snapshot.value, r)
              && next.store.log == (if w.entry.kind == Pty then [] else w.store.log) + EncodeAll(s.value.output)
  {
    var s := SnapOf(w.entry, r, w.nextKey);
    assert Changed(w.entry.snapshot, s);
    assert [] + EncodeAll(s.output) == EncodeAll(s.output);
  }

  /** When a fresh read of an attached process fails, and what is then left to be retried. */
  lemma FailedReadVerdict(w: World, r: Reply, fault: Fault, disposes: bool)
    requires w.entry.kind == Attached && Asks(w.entry)
    requires w.nextKey !in w.store.appended
    ensures var t := Turn(Some(r), fault, disposes); var next, s := ReadUnlocked(w, t), Answer(w, t);
            var stored := NoNews(w.entry, r) || fault == NoFault || (fault == MarkFails && r.running);
            && (s.Some? <==> stored && (r.running || !w.entry.present || disposes))
            && (!stored ==> next.entry.pendingSnapshot.Some? && Repeats(next.entry.pendingSnapshot.value, r)
                            && next.past.decoded == w.past.decoded + next.entry.pendingSnapshot.value.output
                            && next.entry.snapshot == w.entry.snapshot)
            && (stored ==> next.entry.pendingSnapshot.None? && next.entry.present == (w.entry.present && r.running))
  {
    assert w.past.decoded + DecodeReply(w.entry.decoder, r).text == Taken(w, r).past.decoded;
  }

  /** A pending snapshot is offered again as it is, without another read; a delivered end is answered from memory. */
  lemma RepeatedReadVerdict(w: World, t: Turn)
    requires w.entry.kind == Attached && PendingOk(w.entry, w.nextKey)
    requires w.entry.pendingSnapshot.Some? || Ended(w.entry)
    ensures var next, s := ReadUnlocked(w, t), Answer(w, t);
            && next.past == w.past && next.entry.offset == w.entry.offset
            && (s.Some? ==> s == if w.entry.pendingSnapshot.Some? then w.entry.pendingSnapshot else w.entry.snapshot)
            && (w.entry.pendingSnapshot.None? ==> s == w.entry.snapshot && next == w)
            && (w.entry.pendingSnapshot.Some? && s.Some? ==>
                  next.entry.pendingSnapshot.None?
                  && next.entry.snapshot == Some(w.entry.pendingSnapshot.value.(output := [])))
  {
  }
}
