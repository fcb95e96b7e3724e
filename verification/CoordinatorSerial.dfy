/**
  packages/ext-background-bash/src/coordinator.ts: reads, polls and stops may ask for a
  snapshot at any time. Their operations form a queue, each with several awaits, while other
  parts of the manager may store a status or give the entry up; every course of events has the
  effect of reads and such events that follow one another.
 */
module CoordinatorSerial {
  import opened Coordinator
  import opened CoordinatorSafety
  import opened TextDecoding
  import opened Utf8
  import opened Wrappers

  /** Where the operation in flight stands; `reply` is what it has read from the process, if it has. */
  datatype Phase =
    | Idle
    | Reading
    | Delivering(s: Snap, reply: Option<Reply>)
    | Marking(s: Snap, reply: Option<Reply>)

  /**
    `base` is the world as it would be without the operation in flight, `past` the operations
    completed and what else has happened so far.
   */
  datatype Queue = Queue(world: World, phase: Phase, waiting: nat, base: World, past: seq<Event>)

  datatype Label =
    | Asks
    | Begins
    | Replies(reply: Option<Reply>)
    | Writes(fault: Fault)
    | Marks(ok: bool)
    | Interrupts(e: Event)

  const EMPTY := Queue(Initial(Attached), Idle, 0, Initial(Attached), [])

  predicate Enabled(q: Queue, l: Label) {
    match l
    case Asks => true
    case Begins => q.phase.Idle? && q.waiting > 0
    case Replies(_) => q.phase.Reading?
    case Writes(fault) => q.phase.Delivering? && fault != MarkFails
    case Marks(_) => q.phase.Marking?
    case Interrupts(e) => !e.Reads?
  }

  /** The operation is over, whether it succeeded or failed. */
  function Over(q: Queue, w: World, t: Turn): Queue {
    Queue(w, Idle, q.waiting, w, q.past + [Reads(t)])
  }

  /** A snapshot that brings news is kept as pending and handed to the callback. */
  function Offer(q: Queue, w: World, s: Snap, reply: Option<Reply>): Queue {
    if Changed(w.entry.snapshot, s)
    then q.(world := w.(entry := w.entry.(pendingSnapshot := Some(s))), phase := Delivering(s, reply))
    else Over(q, Settle(w, s), Turn(reply, NoFault, true))
  }

  /** The callback has returned: the snapshot is delivered. */
  function Delivered(w: World, s: Snap): World {
    Settle(w.(entry := w.entry.(snapshot := Some(s.(output := [])), pendingSnapshot := None)), s)
  }

  function Next(q: Queue, l: Label): Queue
    requires Enabled(q, l)
  {
    match l
    case Asks => q.(waiting := q.waiting + 1)
    case Begins =>
      var begun := q.(waiting := q.waiting - 1);
      if Finished(q.world.entry) then Over(begun, q.world, Turn(None, NoFault, true))
      else if q.world.entry.pendingSnapshot.Some? then Offer(begun, q.world, q.world.entry.pendingSnapshot.value, None)
      else begun.(phase := Reading)
    case Replies(reply) =>
      if reply.None? then Over(q, q.world, Turn(None, NoFault, true))
      else Offer(q, Taken(q.world, reply.value), SnapOf(q.world.entry, reply.value, q.world.nextKey), reply)
    case Writes(fault) =>
      var s, reply := q.phase.s, q.phase.reply;
      var written := WriteLog(q.world.store, Attached, s, fault);
      var w := q.world.(store := written.store);
      if !written.ok then Over(q, w, Turn(reply, fault, true))
      else if s.running then Over(q, Delivered(w, s), Turn(reply, fault, true))
      else q.(world := w, phase := Marking(s, reply))
    case Marks(ok) =>
      var s, reply := q.phase.s, q.phase.reply;
      if !ok then Over(q, q.world, Turn(reply, MarkFails, true))
      else
        Over(q, Delivered(q.world.(store := Mark(q.world.store, PatchOf(s), true)), s), Turn(reply, NoFault, true))
    case Interrupts(e) =>
      Queue(Evolve(q.world, e), q.phase, q.waiting, Evolve(q.base, e), q.past + [e])
  }

  predicate Possible(q: Queue, labels: seq<Label>)
    decreases labels
  {
    labels != [] ==> Enabled(q, labels[0]) && Possible(Next(q, labels[0]), labels[1..])
  }

  function RunQueue(q: Queue, labels: seq<Label>): Queue
    requires Possible(q, labels)
    decreases labels
  {
    if labels == [] then q else RunQueue(Next(q, labels[0]), labels[1..])
  }

  // ----- the effect of an operation is that of one read -----

  /** The world in which a snapshot was offered. */
  function Offered(base: World, reply: Option<Reply>): World {
    if reply.Some? then Taken(base, reply.value) else base
  }

  /** The operation in flight took `s` from the process, or found it pending. */
  predicate Offers(base: World, s: Snap, reply: Option<Reply>) {
    && base.entry.kind == Attached && !Finished(base.entry)
    && (if base.entry.pendingSnapshot.Some? then reply.None? && base.entry.pendingSnapshot.value == s
        else reply.Some? && s == SnapOf(base.entry, reply.value, base.nextKey))
    && Changed(base.entry.snapshot, s)
  }

  /** The log has been written for the snapshot offered in `w`, giving `world`. */
  predicate HasWritten(w: World, world: World, s: Snap, fault: Fault) {
    && fault != MarkFails && WriteLog(w.store, Attached, s, fault).ok
    && world == w.(entry := w.entry.(pendingSnapshot := Some(s)), store := WriteLog(w.store, Attached, s, fault).store)
  }

  ghost predicate PhaseOk(q: Queue) {
    match q.phase
    case Idle => q.world == q.base
    case Reading => q.world == q.base && !Finished(q.base.entry) && q.base.entry.pendingSnapshot.None?
    case Delivering(s, reply) =>
      var w := Offered(q.base, reply);
      Offers(q.base, s, reply) && q.world == w.(entry := w.entry.(pendingSnapshot := Some(s)))
    case Marking(s, reply) =>
      var w := Offered(q.base, reply);
      && Offers(q.base, s, reply) && !s.running
      && exists fault :: HasWritten(w, q.world, s, fault)
  }

  ghost predicate Serial(q: Queue) {
    && q.base.entry.kind == Attached && q.base == Run(Initial(Attached), q.past) && PhaseOk(q)
  }

  lemma {:induction false} RunAppend(w: World, events: seq<Event>, e: Event)
    ensures Run(w, events + [e]) == Evolve(Run(w, events), e)
    decreases events
  {
    if events == [] {
      assert events + [e] == [e];
    } else {
      assert (events + [e])[1..] == events[1..] + [e];
      RunAppend(Evolve(w, events[0]), events[1..], e);
    }
  }

  /** An operation that ends as a read from its base would leaves a serial queue. */
  lemma OverIsSerial(q: Queue, w: World, t: Turn)
    requires Serial(q) && ReadUnlocked(q.base, t) == w
    ensures Serial(Over(q, w, t))
  {
    RunAppend(Initial(Attached), q.past, Reads(t));
  }

  lemma OfferIsSerial(q: Queue, s: Snap, reply: Option<Reply>)
    requires Serial(q) && !Finished(q.base.entry)
    requires if q.base.entry.pendingSnapshot.Some? then reply.None? && q.base.entry.pendingSnapshot.value == s
             else reply.Some? && s == SnapOf(q.base.entry, reply.value, q.base.nextKey)
    ensures Serial(Offer(q, Offered(q.base, reply), s, reply))
  {
    var w := Offered(q.base, reply);
    if !Changed(w.entry.snapshot, s) {
      OverIsSerial(q, Settle(w, s), Turn(reply, NoFault, true));
    }
  }

  /** Writing the log and, at the end, the status is persisting the snapshot. */
  lemma DeliveredIsRead(base: World, s: Snap, reply: Option<Reply>, fault: Fault)
    requires Offers(base, s, reply)
    ensures ReadUnlocked(base, Turn(reply, fault, true)) == Deliver(Offered(base, reply), s, fault)
  {
  }

  lemma WritesIsSerial(q: Queue, fault: Fault)
    requires Serial(q) && q.phase.Delivering? && fault != MarkFails
    ensures Serial(Next(q, Writes(fault)))
  {
    var s, reply := q.phase.s, q.phase.reply;
    var w := Offered(q.base, reply);
    var written := WriteLog(w.store, Attached, s, fault);
    DeliveredIsRead(q.base, s, reply, fault);
    if !written.ok || s.running {
      assert Persist(w.store, Attached, s, fault) == written;
      OverIsSerial(q, Next(q, Writes(fault)).world, Turn(reply, fault, true));
    } else {
      assert HasWritten(w, Next(q, Writes(fault)).world, s, fault);
    }
  }

  lemma WriteFaults(m: Store, s: Snap, fault: Fault)
    requires fault != MarkFails && WriteLog(m, Attached, s, fault).ok
    ensures WriteLog(m, Attached, s, fault) == WriteLog(m, Attached, s, NoFault) == WriteLog(m, Attached, s, MarkFails)
  {
  }

  lemma MarksIsSerial(q: Queue, ok: bool)
    requires Serial(q) && q.phase.Marking?
    ensures Serial(Next(q, Marks(ok)))
  {
    var s, reply := q.phase.s, q.phase.reply;
    var w := Offered(q.base, reply);
    var fault :| HasWritten(w, q.world, s, fault);
    WriteFaults(w.store, s, fault);
    var last := if ok then NoFault else MarkFails;
    DeliveredIsRead(q.base, s, reply, last);
    OverIsSerial(q, Next(q, Marks(ok)).world, Turn(reply, last, true));
  }

  /** What happens elsewhere commutes with the operation in flight. */
  lemma InterruptIsSerial(q: Queue, e: Event)
    requires Serial(q) && !e.Reads?
    ensures Serial(Next(q, Interrupts(e)))
  {
    RunAppend(Initial(Attached), q.past, e);
    if q.phase.Marking? {
      var w := Offered(q.base, q.phase.reply);
      var fault :| HasWritten(w, q.world, q.phase.s, fault);
      WrittenCommutes(w, q.world, q.phase.s, fault, e);
      assert Offered(Evolve(q.base, e), q.phase.reply) == Evolve(w, e);
    }
  }

  lemma WrittenCommutes(w: World, world: World, s: Snap, fault: Fault, e: Event)
    requires HasWritten(w, world, s, fault) && !e.Reads?
    ensures HasWritten(Evolve(w, e), Evolve(world, e), s, fault)
  {
  }

  lemma StepIsSerial(q: Queue, l: Label)
    requires Serial(q) && Enabled(q, l)
    ensures Serial(Next(q, l))
  {
    match l
    case Asks =>
    case Begins =>
      var begun := q.(waiting := q.waiting - 1);
      if Finished(q.world.entry) {
        OverIsSerial(begun, q.world, Turn(None, NoFault, true));
      } else if q.world.entry.pendingSnapshot.Some? {
        OfferIsSerial(begun, q.world.entry.pendingSnapshot.value, None);
      }
    case Replies(reply) =>
      if reply.None? {
        OverIsSerial(q, q.world, Turn(None, NoFault, true));
      } else {
        OfferIsSerial(q, SnapOf(q.world.entry, reply.value, q.world.nextKey), reply);
      }
    case Writes(fault) => WritesIsSerial(q, fault);
    case Marks(ok) => MarksIsSerial(q, ok);
    case Interrupts(e) => InterruptIsSerial(q, e);
  }

  lemma {:induction false} RunIsSerial(q: Queue, labels: seq<Label>)
    requires Serial(q) && Possible(q, labels)
    ensures Serial(RunQueue(q, labels))
    decreases labels
  {
    if labels != [] {
      StepIsSerial(q, labels[0]);
      RunIsSerial(Next(q, labels[0]), labels[1..]);
    }
  }

  /**
    However requests, the awaits of their operations and what happens elsewhere interleave,
    the effect is that of the completed reads and the other events one after another. Between operations
    the log is the decoded stream but for a pending snapshot, and a status that persistence has
    stored means that it is complete.
   */
  lemma InterleavedReadsKeepLog(stream: seq<Byte>, labels: seq<Label>)
    requires Possible(EMPTY, labels)
    requires AllGenuine(stream, Initial(Attached), RunQueue(EMPTY, labels).past)
    ensures var q := RunQueue(EMPTY, labels);
            && q.base == Run(Initial(Attached), q.past) && (q.phase.Idle? ==> q.world == q.base)
            && (q.phase.Idle? && q.world.entry.pendingSnapshot.None? ==>
                  q.world.store.log == EncodeAll(q.world.past.decoded))
            && (q.phase.Idle? && PersistedStatus(q.world.store) ==>
                  q.world.store.log == EncodeAll(Decode(q.world.past.bytes)))
  {
    RunIsSerial(EMPTY, labels);
    var q := RunQueue(EMPTY, labels);
    LogIsDecodedStream(stream, q.past);
    StatusMeansComplete(stream, q.past);
  }
}
