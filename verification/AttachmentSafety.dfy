/**
  Every run of the attachment lifecycle: attempts on any number of roots,
  their callbacks, leases that arrive late or end early, and cleanups in
  flight, interleaved in any order.
 */
module AttachmentSafety {
  import opened Wrappers
  import opened Attachment

  datatype Label =
    | Request(root: string)
    | AbortSignal(i: nat)
    | HostSettles(i: nat, outcome: HostOutcome)
    | Attaches(i: nat, offered: Option<Lease>, usable: bool, validConnection: bool)
    | Resolves(i: nat, ok: bool)
    | NativeSettles(i: nat)
    | Opens(i: nat, ok: bool)
    | Observes(i: nat, ok: bool)
    | LeaseEnds(lease: Lease)
    | Revokes(root: string)
    | Closes
    | ResumesRetry(i: nat, run: nat)
    | Invalidates(i: nat)
    | Quarantines(i: nat)
    | CleansLease(i: nat, threw: bool)
    | CleansRejected(i: nat, lease: Lease, threw: bool)
    | CleansRejectedDone(i: nat)
    | CleansNative(i: nat, timedOut: bool)
    | CleansSession(i: nat, ok: bool)
    | Polls(i: nat, poll: Poll)
    | Finishes(i: nat)

  /** The label moves one attempt. */
  predicate Single(l: Label) {
    !(l.Request? || l.LeaseEnds? || l.Revokes? || l.Closes?)
  }

  ghost predicate Enabled(b: Book, l: Label) {
    Single(l) ==> l.i < |b.history| && AttemptEnabled(b.history[l.i], l)
  }

  ghost predicate AttemptEnabled(a: Attempt, l: Label)
    requires Single(l)
  {
    match l
    case AbortSignal(_) => a.authorizing
    case HostSettles(_, _) => a.authorizing
    case Attaches(_, _, _, _) => true
    case Resolves(_, _) => a.stage == Resolving
    case NativeSettles(_) => a.native == Running
    case Opens(_, _) => a.stage == Opening && a.native == Done
    case Observes(_, _) => a.stage == Observing
    case ResumesRetry(_, run) => run in a.retrying && !(a.cleanup.InFlight? && a.cleanup.run == run)
    case Invalidates(_) => true
    // The cleanup that the rejection waited for is over; a later one may be in flight.
    case Quarantines(_) => a.quarantining > 0 && (a.cleanup.Settled? || (a.cleanup.InFlight? && a.cleanup.run > 0))
    case CleansLease(_, _) => CleaningIn(a, ClosingLease)
    case CleansRejected(_, lease, _) =>
      a.cleanup.InFlight? && a.cleanup.phase.ClosingRejected? && lease in a.rejected - a.cleanup.phase.tried
    case CleansRejectedDone(_) =>
      a.cleanup.InFlight? && a.cleanup.phase.ClosingRejected? && a.rejected <= a.cleanup.phase.tried
    case CleansNative(_, timedOut) => CleaningIn(a, AwaitingNative) && (timedOut || a.native != Running)
    case CleansSession(_, _) => CleaningIn(a, ClosingSession)
    case Polls(_, _) => CleaningIn(a, PollingSession)
    case Finishes(_) => CleaningIn(a, Finishing)
  }

  /** The steps that change only their own attempt, whatever the others are. */
  function CleanStep(a: Attempt, l: Label, ended: set<Lease>): Attempt
    requires Single(l) && AttemptEnabled(a, l)
  {
    match l
    case AbortSignal(_) => a.(aborted := true)
    case Invalidates(_) => Invalidated(a)
    case NativeSettles(_) => a.(native := Done)
    case ResumesRetry(_, run) => RetryResumed(a, run)
    case CleansLease(_, threw) => CleanedLease(a, threw, ended)
    case CleansRejected(_, lease, threw) => CleanedRejected(a, lease, threw, ended)
    case CleansRejectedDone(_) => Advance(a, AwaitingNative, true)
    case CleansNative(_, timedOut) => CleanedNative(a, timedOut)
    case CleansSession(_, ok) => CleanedSession(a, ok)
    case Polls(_, poll) => Polled(a, poll)
    case Finishes(_) => Finished(a)
    case _ => a
  }

  function Next(b: Book, l: Label): Book
    requires Enabled(b, l)
  {
    match l
    case Request(root) => Requested(b, root)
    case LeaseEnds(lease) => EndLease(b, lease)
    case Revokes(root) => RevokeRoot(b, root)
    case Closes => CloseAll(b)
    case HostSettles(i, outcome) => HostSettled(b, i, outcome)
    case Attaches(i, lease, usable, valid) => Attached(b, i, lease, usable, valid)
    case Resolves(i, ok) => Resolved(b, i, ok)
    case Opens(i, ok) => Opened(b, i, ok)
    case Observes(i, ok) => Observed(b, i, ok)
    case Quarantines(i) => Quarantined(b, i)
    case _ => Put(b, l.i, CleanStep(b.history[l.i], l, b.ended))
  }

  const EMPTY := Book(map[], [], false, {})

  ghost predicate Possible(b: Book, ls: seq<Label>)
    decreases |ls|
  {
    ls == [] || (Enabled(b, ls[0]) && Possible(Next(b, ls[0]), ls[1..]))
  }

  ghost function Run(b: Book, ls: seq<Label>): Book
    requires Possible(b, ls)
    decreases |ls|
  {
    if ls == [] then b else Run(Next(b, ls[0]), ls[1..])
  }

  // ----- the invariant of one attempt -----

  /** Everything an attempt opened is closed again. */
  ghost predicate Clean(a: Attempt, ended: set<Lease>) {
    && a.aborted
    && (a.lease.Some? ==> a.lease.value in ended)
    && a.everRejected <= ended
    && a.native != Running
    && (a.started ==> a.seenInactive)
  }

  ghost predicate PastLease(phase: Phase) { phase != ClosingLease }

  ghost predicate PastNative(phase: Phase) {
    phase == ClosingSession || phase == PollingSession || phase == Finishing
  }

  /** What a cleanup run that is still clean has established so far. */
  ghost predicate RunOk(a: Attempt, ended: set<Lease>)
    requires a.cleanup.InFlight?
  {
    var phase := a.cleanup.phase;
    a.cleanup.clean ==>
      && (PastLease(phase) && a.lease.Some? ==> a.lease.value in ended)
      && (PastNative(phase) ==> a.native != Running)
      && (phase == Finishing && a.started ==> a.seenInactive)
  }

  ghost predicate AttemptOk(a: Attempt, ended: set<Lease>) {
    && (a.cleanup != Absent || a.everRejected != {} || a.state == Blocked || a.state == Revoked ==> a.aborted)
    && (a.retrying != {} ==> a.aborted)
    && (a.cleanup != Absent || a.retrying != {} ==> a.state == Blocked || a.state == Revoked)
    && (a.lease.Some? && !a.aborted ==> a.listening)
    && a.everRejected - a.rejected <= ended
    && (a.cleanup != Absent ==> a.cleanup.run < a.runs)
    && (a.cleanup.InFlight? ==> !a.cleanupVerified && RunOk(a, ended))
    && (a.cleanupVerified ==> a.cleanup.Settled? && a.rejected == {} && Clean(a, ended))
    && (a.native != NotStarted <==> a.started)
    && (a.started ==> a.invoked && a.lease.Some?)
    && (a.listening ==> a.lease.Some?)
    && (a.lease.Some? ==> a.attempted)
    && (a.stage == Idle ==> a.lease.None?)
    && (a.stage == Resolving ==> a.lease.Some? && !a.started)
    && (a.stage == Opening || a.stage == Observing ==> a.started)
    && (a.verified || a.state == Authorized ==> a.verified && a.started)
    && a.rejected <= a.everRejected
  }

  /** Per root only the registered attempt can be live. */
  ghost predicate BookOk(b: Book) {
    && (forall r <- b.attempts :: b.attempts[r] < |b.history| && b.history[b.attempts[r]].root == r)
    && (forall i | 0 <= i < |b.history| :: AttemptOk(b.history[i], b.ended))
    && (forall i | 0 <= i < |b.history| :: !b.history[i].aborted ==> !b.closed && Registered(b, i))
  }

  /** What one step may do to an attempt: an abort, and a lost authorization, are final. */
  ghost predicate Follows(a: Attempt, c: Attempt) {
    && c.root == a.root
    && (a.aborted ==> c.aborted)
    && (a.aborted && a.state != Authorized ==> c.state != Authorized)
    && a.everRejected <= c.everRejected
    && (a.lease.Some? ==> c.lease == a.lease)
  }

  ghost predicate StepOk(a: Attempt, c: Attempt, ended: set<Lease>) {
    AttemptOk(c, ended) && Follows(a, c)
  }

  lemma InvalidatedOk(a: Attempt, ended: set<Lease>)
    requires AttemptOk(a, ended)
    ensures StepOk(a, Invalidated(a), ended) && Invalidated(a).aborted
  {
  }

  lemma RetryStartedOk(a: Attempt, ended: set<Lease>)
    requires AttemptOk(a, ended) && a.aborted && (a.state == Blocked || a.state == Revoked)
    ensures StepOk(a, RetryStarted(a), ended)
  {
  }

  lemma LeaseRecordedOk(a: Attempt, lease: Lease, ended: set<Lease>)
    requires AttemptOk(a, ended)
    ensures StepOk(a, LeaseRecorded(a, lease), ended)
  {
    var c := LeaseRecorded(a, lease);
    assert c.everRejected - c.rejected <= a.everRejected - a.rejected;
  }

  lemma LeaseRejectedOk(a: Attempt, lease: Lease, ended: set<Lease>)
    requires AttemptOk(a, ended)
    ensures StepOk(a, LeaseRejected(a, lease), ended) && LeaseRejected(a, lease).aborted
    ensures var c := LeaseRejected(a, lease);
            !c.cleanupVerified && lease in c.rejected && lease in c.everRejected
  {
    LeaseRecordedOk(a, lease, ended);
    RetryStartedOk(LeaseRecorded(a, lease), ended);
  }

  lemma StoppedOk(a: Attempt, state: State, ended: set<Lease>)
    requires AttemptOk(a, ended) && (state == Revoked || state == Blocked)
    ensures StepOk(a, Stopped(a, state), ended) && Stopped(a, state).aborted
  {
    RetryStartedOk(a.(state := state, aborted := true), ended);
  }

  lemma EndedGrows(a: Attempt, ended: set<Lease>, lease: Lease)
    requires AttemptOk(a, ended)
    ensures AttemptOk(a, ended + {lease})
  {
  }

  lemma CleanedRejectedOk(a: Attempt, lease: Lease, threw: bool, ended: set<Lease>)
    requires AttemptOk(a, ended) && a.cleanup.InFlight? && a.cleanup.phase.ClosingRejected?
    ensures StepOk(a, CleanedRejected(a, lease, threw, ended), ended)
  {
    var c := CleanedRejected(a, lease, threw, ended);
    assert c.everRejected - c.rejected
        <= (a.everRejected - a.rejected) + (if CloseReported(lease, threw, ended) then {lease} else {});
  }

  lemma RetryResumedOk(a: Attempt, run: nat, ended: set<Lease>)
    requires AttemptOk(a, ended) && run in a.retrying && !(a.cleanup.InFlight? && a.cleanup.run == run)
    ensures StepOk(a, RetryResumed(a, run), ended)
  {
    var b := a.(retrying := a.retrying - {run});
    assert AttemptOk(b, ended);
    if !b.cleanupVerified && b.cleanup != Absent && b.cleanup.run == run {
      assert AttemptOk(b.(cleanup := Absent), ended);
    }
  }

  lemma AdvanceOk(a: Attempt, phase: Phase, ok: bool, ended: set<Lease>)
    requires AttemptOk(a, ended) && a.cleanup.InFlight? && RunOk(Advance(a, phase, ok), ended)
    ensures StepOk(a, Advance(a, phase, ok), ended)
  {
  }

  lemma CleanedLeaseOk(a: Attempt, threw: bool, ended: set<Lease>)
    requires AttemptOk(a, ended) && CleaningIn(a, ClosingLease)
    ensures StepOk(a, CleanedLease(a, threw, ended), ended)
  {
    AdvanceOk(a, ClosingRejected({}), a.lease.None? || CloseReported(a.lease.value, threw, ended), ended);
  }

  lemma CleanedNativeOk(a: Attempt, timedOut: bool, ended: set<Lease>)
    requires AttemptOk(a, ended) && CleaningIn(a, AwaitingNative) && (timedOut || a.native != Running)
    ensures StepOk(a, CleanedNative(a, timedOut), ended)
  {
    AdvanceOk(a, ClosingSession, a.native == NotStarted || !timedOut, ended);
  }

  lemma CleanedSessionOk(a: Attempt, ok: bool, ended: set<Lease>)
    requires AttemptOk(a, ended) && CleaningIn(a, ClosingSession)
    ensures StepOk(a, CleanedSession(a, ok), ended)
  {
    if !(a.started && a.invoked) {
      AdvanceOk(a, Finishing, true, ended);
    } else if ok {
      AdvanceOk(a, PollingSession, true, ended);
    } else {
      AdvanceOk(a, Finishing, false, ended);
    }
  }

  lemma PolledOk(a: Attempt, poll: Poll, ended: set<Lease>)
    requires AttemptOk(a, ended) && CleaningIn(a, PollingSession)
    ensures StepOk(a, Polled(a, poll), ended)
  {
    if poll == Inactive {
      var c := a.(seenInactive := true);
      assert AttemptOk(c, ended);
      AdvanceOk(c, Finishing, true, ended);
    } else if poll != StillClosing {
      AdvanceOk(a, Finishing, false, ended);
    }
  }

  lemma FinishedOk(a: Attempt, ended: set<Lease>)
    requires AttemptOk(a, ended) && CleaningIn(a, Finishing)
    ensures StepOk(a, Finished(a), ended)
  {
  }

  /** A step of the cleanup, or a settling operation, keeps the attempt's invariant. */
  lemma CleanStepOk(a: Attempt, l: Label, ended: set<Lease>)
    requires AttemptOk(a, ended) && Single(l) && AttemptEnabled(a, l)
    ensures StepOk(a, CleanStep(a, l, ended), ended)
  {
    if l.CleansRejected? { CleanedRejectedOk(a, l.lease, l.threw, ended); }
    else if l.ResumesRetry? { RetryResumedOk(a, l.run, ended); }
    else if l.Invalidates? { InvalidatedOk(a, ended); }
    else if l.Polls? { PolledOk(a, l.poll, ended); }
    else if l.Finishes? { FinishedOk(a, ended); }
    else if l.CleansLease? { CleanedLeaseOk(a, l.threw, ended); }
    else if l.CleansRejectedDone? { AdvanceOk(a, AwaitingNative, true, ended); }
    else if l.CleansNative? { CleanedNativeOk(a, l.timedOut, ended); }
    else if l.CleansSession? { CleanedSessionOk(a, l.ok, ended); }
  }

  /** The book after a flow of attempt `i` differs only in that attempt. */
  ghost predicate OnlyMoves(b: Book, i: nat, later: Book) {
    i < |b.history| && |later.history| == |b.history|
    && later == Put(b, i, later.history[i]) && StepOk(b.history[i], later.history[i], b.ended)
  }

  lemma PutOk(b: Book, i: nat, c: Attempt)
    requires i < |b.history| && StepOk(b.history[i], c, b.ended)
    ensures OnlyMoves(b, i, Put(b, i, c))
  {
  }

  /** A lease that comes to an attempt that can no longer use it, tried before or not. */
  lemma UnusableLeaseOk(a: Attempt, tried: Attempt, lease: Lease, ended: set<Lease>)
    requires AttemptOk(a, ended) && (tried == a || tried == a.(attempted := true))
    ensures StepOk(a, LeaseRejected(tried, lease), ended)
  {
    assert AttemptOk(tried, ended);
    LeaseRejectedOk(tried, lease, ended);
  }

  lemma LeaseTakenOk(a: Attempt, lease: Lease, valid: bool, ended: set<Lease>)
    requires AttemptOk(a, ended) && !a.attempted && !a.aborted
    ensures var taken := a.(attempted := true, lease := Some(lease), listening := true);
            StepOk(a, if valid then taken.(stage := Resolving) else Invalidated(taken.(stage := Over)), ended)
  {
    var taken := a.(attempted := true, lease := Some(lease), listening := true);
    if !valid { InvalidatedOk(taken.(stage := Over), ended); }
  }

  lemma NothingMoves(b: Book, i: nat)
    requires i < |b.history| && AttemptOk(b.history[i], b.ended)
    ensures OnlyMoves(b, i, b)
  {
    assert Put(b, i, b.history[i]) == b;
  }

  lemma AttachedOk(b: Book, i: nat, offered: Option<Lease>, usable: bool, valid: bool)
    requires i < |b.history| && AttemptOk(b.history[i], b.ended)
    ensures OnlyMoves(b, i, Attached(b, i, offered, usable, valid))
  {
    var a := b.history[i];
    var tried := a.(attempted := true);
    var c := Attached(b, i, offered, usable, valid).history[i];
    if Attached(b, i, offered, usable, valid) == b {
      NothingMoves(b, i);
    } else {
      if a.attempted || !IsCurrent(b, i) {
        UnusableLeaseOk(a, a, offered.value, b.ended);
      } else if offered.Some? && (!usable || offered.value in b.ended) {
        UnusableLeaseOk(a, tried, offered.value, b.ended);
      } else if offered.Some? {
        LeaseTakenOk(a, offered.value, valid, b.ended);
      }
      PutOk(b, i, c);
    }
  }

  lemma HostSettledOk(b: Book, i: nat, outcome: HostOutcome)
    requires i < |b.history| && AttemptOk(b.history[i], b.ended)
    ensures OnlyMoves(b, i, HostSettled(b, i, outcome))
  {
    InvalidatedOk(b.history[i].(authorizing := false), b.ended);
  }

  /** An attach flow that fails ends, and its attempt is invalidated. */
  lemma FlowFailedOk(a: Attempt, invoked: bool, ended: set<Lease>)
    requires AttemptOk(a, ended) && a.stage != Idle
    ensures StepOk(a, Invalidated(a.(invoked := a.invoked || invoked, stage := Over)), ended)
  {
    InvalidatedOk(a.(invoked := a.invoked || invoked, stage := Over), ended);
  }

  lemma FlowStartedOk(a: Attempt, ended: set<Lease>)
    requires AttemptOk(a, ended) && a.stage == Resolving && !a.aborted
    ensures StepOk(a, a.(invoked := true, started := true, native := Running, stage := Opening), ended)
  {
  }

  lemma ResolvedOk(b: Book, i: nat, ok: bool)
    requires i < |b.history| && AttemptOk(b.history[i], b.ended) && b.history[i].stage == Resolving
    ensures OnlyMoves(b, i, Resolved(b, i, ok))
  {
    if ok && IsCurrent(b, i) {
      FlowStartedOk(b.history[i], b.ended);
    } else {
      FlowFailedOk(b.history[i], ok, b.ended);
    }
    PutOk(b, i, Resolved(b, i, ok).history[i]);
  }

  lemma OpenedOk(b: Book, i: nat, ok: bool)
    requires i < |b.history| && AttemptOk(b.history[i], b.ended) && b.history[i].stage == Opening
    ensures OnlyMoves(b, i, Opened(b, i, ok))
  {
    if !ok {
      FlowFailedOk(b.history[i], false, b.ended);
    }
    PutOk(b, i, Opened(b, i, ok).history[i]);
  }

  lemma ObservedOk(b: Book, i: nat, ok: bool)
    requires i < |b.history| && AttemptOk(b.history[i], b.ended) && b.history[i].stage == Observing
    ensures OnlyMoves(b, i, Observed(b, i, ok))
  {
    if !(ok && IsCurrent(b, i)) {
      FlowFailedOk(b.history[i], false, b.ended);
    }
    PutOk(b, i, Observed(b, i, ok).history[i]);
  }

  // ----- the invariant of the book -----

  /** Every attempt of the earlier book is still there, and moved as it may. */
  ghost predicate Grows(b: Book, later: Book) {
    && |b.history| <= |later.history|
    && (forall i | 0 <= i < |b.history| :: Follows(b.history[i], later.history[i]))
    && b.ended <= later.ended
    && (b.closed ==> later.closed)
  }

  lemma OnlyMovesKeepsBook(b: Book, i: nat, later: Book)
    requires BookOk(b) && OnlyMoves(b, i, later)
    ensures BookOk(later) && Grows(b, later)
  {
    forall j | 0 <= j < |later.history|
      ensures AttemptOk(later.history[j], later.ended)
      ensures !later.history[j].aborted ==> !later.closed && Registered(later, j)
    {
      assert AttemptOk(b.history[j], b.ended);
    }
  }

  lemma RequestKeepsBook(b: Book, root: string)
    requires BookOk(b)
    ensures BookOk(Requested(b, root)) && Grows(b, Requested(b, root))
  {
    var c := Requested(b, root);
    if MayAuthorize(b, root) {
      forall j | 0 <= j < |c.history|
        ensures AttemptOk(c.history[j], c.ended)
        ensures !c.history[j].aborted ==> !c.closed && Registered(c, j)
      {
        if j < |b.history| {
          assert AttemptOk(b.history[j], b.ended);
          // An attempt on the same root has been cleaned, so it is aborted.
          assert b.history[j].root == root ==> b.history[j].cleanupVerified;
        }
      }
    }
  }

  lemma EndLeaseKeepsBook(b: Book, lease: Lease)
    requires BookOk(b)
    ensures BookOk(EndLease(b, lease)) && Grows(b, EndLease(b, lease))
  {
    var c := EndLease(b, lease);
    forall j | 0 <= j < |c.history|
      ensures AttemptOk(c.history[j], c.ended) && Follows(b.history[j], c.history[j])
      ensures !c.history[j].aborted ==> !c.closed && Registered(c, j)
    {
      EndedGrows(b.history[j], b.ended, lease);
      InvalidatedOk(b.history[j].(listening := false, aborted := true), b.ended + {lease});
    }
  }

  lemma RevokeKeepsBook(b: Book, root: string)
    requires BookOk(b)
    ensures BookOk(RevokeRoot(b, root)) && Grows(b, RevokeRoot(b, root))
  {
    var c := RevokeRoot(b, root);
    forall j | 0 <= j < |c.history|
      ensures AttemptOk(c.history[j], c.ended) && Follows(b.history[j], c.history[j])
      ensures !c.history[j].aborted ==> !c.closed && Registered(c, j)
    {
      StoppedOk(b.history[j], Revoked, b.ended);
    }
  }

  lemma CloseKeepsBook(b: Book)
    requires BookOk(b)
    ensures BookOk(CloseAll(b)) && Grows(b, CloseAll(b))
  {
    var c := CloseAll(b);
    forall j | 0 <= j < |c.history|
      ensures AttemptOk(c.history[j], c.ended) && Follows(b.history[j], c.history[j]) && c.history[j].aborted
    {
      StoppedOk(b.history[j], Blocked, b.ended);
    }
  }

  lemma QuarantineKeepsBook(b: Book, i: nat)
    requires BookOk(b) && i < |b.history| && b.history[i].quarantining > 0
    ensures BookOk(Quarantined(b, i)) && Grows(b, Quarantined(b, i))
  {
    var a := b.history[i];
    assert AttemptOk(a, b.ended);
    var c := Put(b, i, a.(quarantining := a.quarantining - 1));
    PutOk(b, i, a.(quarantining := a.quarantining - 1));
    OnlyMovesKeepsBook(b, i, c);
    if !a.cleanupVerified && a.root in b.attempts && b.attempts[a.root] != i {
      InvalidatingKeepsBook(c, b.attempts[a.root]);
    }
  }

  lemma InvalidatingKeepsBook(b: Book, k: nat)
    requires BookOk(b) && k < |b.history|
    ensures BookOk(Put(b, k, Invalidated(b.history[k]))) && Grows(b, Put(b, k, Invalidated(b.history[k])))
  {
    InvalidatedOk(b.history[k], b.ended);
    PutOk(b, k, Invalidated(b.history[k]));
    OnlyMovesKeepsBook(b, k, Put(b, k, Invalidated(b.history[k])));
  }

  /** The labels of the callbacks and of the cleanup move one attempt only. */
  lemma SingleMoves(b: Book, l: Label)
    requires BookOk(b) && Enabled(b, l) && Single(l) && !l.Quarantines?
    ensures OnlyMoves(b, l.i, Next(b, l))
  {
    assert AttemptOk(b.history[l.i], b.ended);
    if l.HostSettles? { HostSettledOk(b, l.i, l.outcome); }
    else if l.Attaches? { AttachedOk(b, l.i, l.offered, l.usable, l.validConnection); }
    else if l.Resolves? { ResolvedOk(b, l.i, l.ok); }
    else if l.Opens? { OpenedOk(b, l.i, l.ok); }
    else if l.Observes? { ObservedOk(b, l.i, l.ok); }
    else {
      CleanStepOk(b.history[l.i], l, b.ended);
      PutOk(b, l.i, CleanStep(b.history[l.i], l, b.ended));
    }
  }

  lemma StepKeepsBook(b: Book, l: Label)
    requires BookOk(b) && Enabled(b, l)
    ensures BookOk(Next(b, l)) && Grows(b, Next(b, l))
  {
    if l.Request? { RequestKeepsBook(b, l.root); }
    else if l.LeaseEnds? { EndLeaseKeepsBook(b, l.lease); }
    else if l.Revokes? { RevokeKeepsBook(b, l.root); }
    else if l.Closes? { CloseKeepsBook(b); }
    else if l.Quarantines? { QuarantineKeepsBook(b, l.i); }
    else {
      SingleMoves(b, l);
      OnlyMovesKeepsBook(b, l.i, Next(b, l));
    }
  }

  lemma {:induction false} RunKeepsBook(b: Book, ls: seq<Label>)
    requires BookOk(b) && Possible(b, ls)
    ensures BookOk(Run(b, ls)) && Grows(b, Run(b, ls))
    decreases |ls|
  {
    if ls != [] {
      var c := Next(b, ls[0]);
      StepKeepsBook(b, ls[0]);
      RunKeepsBook(c, ls[1..]);
      assert forall i | 0 <= i < |b.history| :: Follows(b.history[i], c.history[i]);
    }
  }

  // ----- what every run promises -----

  lemma EmptyBookOk()
    ensures BookOk(EMPTY)
  {
  }

  /**
    A verified cleanup means what it says, in every run: the controller is
    aborted, the lease and every lease ever rejected have been closed, the
    native operation has settled, and a started session was seen inactive.
   */
  lemma VerifiedMeansClean(ls: seq<Label>, i: nat)
    requires Possible(EMPTY, ls) && i < |Run(EMPTY, ls).history|
    ensures var b := Run(EMPTY, ls);
            b.history[i].cleanupVerified ==> Clean(b.history[i], b.ended) && b.history[i].rejected == {}
  {
    EmptyBookOk();
    RunKeepsBook(EMPTY, ls);
    assert AttemptOk(Run(EMPTY, ls).history[i], Run(EMPTY, ls).ended);
  }

  /** In every run at most one attempt per root is not aborted, and none once closed. */
  lemma OneLiveAttemptPerRoot(ls: seq<Label>, i: nat, j: nat)
    requires Possible(EMPTY, ls)
    requires i < |Run(EMPTY, ls).history| && j < |Run(EMPTY, ls).history|
    requires var h := Run(EMPTY, ls).history; !h[i].aborted && !h[j].aborted && h[i].root == h[j].root
    ensures i == j && !Run(EMPTY, ls).closed
  {
    EmptyBookOk();
    RunKeepsBook(EMPTY, ls);
  }

  /**
    An attempt passes assertActive only while its lease is live, its session
    was started and verified, and every other attempt on its root, early or
    late, is completely cleaned up.
   */
  lemma ActiveMeansAlone(ls: seq<Label>, i: nat)
    requires Possible(EMPTY, ls) && i < |Run(EMPTY, ls).history| && AssertsActive(Run(EMPTY, ls), i)
    ensures var b := Run(EMPTY, ls); var a := b.history[i];
            && a.verified && a.started && a.lease.Some? && a.lease.value !in b.ended
            && forall j | 0 <= j < |b.history| && j != i && b.history[j].root == a.root ::
                 Clean(b.history[j], b.ended)
  {
    EmptyBookOk();
    RunKeepsBook(EMPTY, ls);
    var b := Run(EMPTY, ls);
    assert AttemptOk(b.history[i], b.ended);
    forall j | 0 <= j < |b.history| && j != i && b.history[j].root == b.history[i].root
      ensures Clean(b.history[j], b.ended)
    {
      assert AttemptOk(b.history[j], b.ended) && b.history[j].cleanupVerified;
    }
  }

  /** An abort is final: an aborted attempt never becomes authorized, nor active, later. */
  lemma AbortIsFinal(before: seq<Label>, after: seq<Label>, i: nat)
    requires Possible(EMPTY, before) && Possible(Run(EMPTY, before), after)
    requires i < |Run(EMPTY, before).history| && Run(EMPTY, before).history[i].aborted
    ensures var b, c := Run(EMPTY, before), Run(Run(EMPTY, before), after);
            && i < |c.history| && c.history[i].aborted && !AssertsActive(c, i)
            && (b.history[i].state != Authorized ==> c.history[i].state != Authorized)
  {
    EmptyBookOk();
    RunKeepsBook(EMPTY, before);
    RunKeepsBook(Run(EMPTY, before), after);
    assert Follows(Run(EMPTY, before).history[i], Run(Run(EMPTY, before), after).history[i]);
  }

  lemma UncleanBlocks(b: Book, i: nat, k: nat)
    requires i < |b.history| && k < |b.history| && k != i
    requires b.history[k].root == b.history[i].root && !b.history[i].cleanupVerified
    ensures !AssertsActive(b, k) && !MayAuthorize(b, b.history[i].root)
  {
    assert UncleanPrevious(b, b.history[i].root, Some(k));
  }

  lemma LateLeaseRecorded(b: Book, i: nat, lease: Lease, usable: bool, valid: bool)
    requires BookOk(b) && i < |b.history| && b.history[i].aborted && Some(lease) != b.history[i].lease
    ensures var c := Next(b, Attaches(i, Some(lease), usable, valid));
            && |c.history| == |b.history| && lease in c.history[i].everRejected && !c.history[i].cleanupVerified
            && !MayAuthorize(c, c.history[i].root)
            && forall k | 0 <= k < |c.history| && c.history[k].root == c.history[i].root :: !AssertsActive(c, k)
  {
    assert AttemptOk(b.history[i], b.ended);
    LeaseRejectedOk(b.history[i], lease, b.ended);
    assert !IsCurrent(b, i);
    var c := Next(b, Attaches(i, Some(lease), usable, valid));
    assert c == Put(b, i, LeaseRejected(b.history[i], lease));
    forall k | 0 <= k < |c.history| && c.history[k].root == c.history[i].root
      ensures !AssertsActive(c, k) && !MayAuthorize(c, c.history[i].root)
    {
      if k != i { UncleanBlocks(c, i, k); }
    }
  }

  /**
    A lease delivered late to an old attempt quarantines the root at once, and in whatever
    follows nothing on the root is active again before that lease has been closed.
   */
  lemma LateLeaseQuarantines(before: seq<Label>, i: nat, lease: Lease, usable: bool, valid: bool,
                             after: seq<Label>, k: nat)
    requires Possible(EMPTY, before) && i < |Run(EMPTY, before).history|
    requires var a := Run(EMPTY, before).history[i]; a.aborted && Some(lease) != a.lease
    requires Possible(Next(Run(EMPTY, before), Attaches(i, Some(lease), usable, valid)), after)
    requires var c := Run(Next(Run(EMPTY, before), Attaches(i, Some(lease), usable, valid)), after);
             k < |c.history| && c.history[k].root == Run(EMPTY, before).history[i].root
    ensures var delivered := Next(Run(EMPTY, before), Attaches(i, Some(lease), usable, valid));
            var c := Run(delivered, after);
            && (k < |delivered.history| ==> !AssertsActive(delivered, k))
            && i < |delivered.history| && !MayAuthorize(delivered, delivered.history[i].root)
            && i < |c.history| && lease in c.history[i].everRejected
            && (AssertsActive(c, k) || MayAuthorize(c, c.history[i].root) ==> lease in c.ended)
  {
    var b := Run(EMPTY, before);
    EmptyBookOk();
    RunKeepsBook(EMPTY, before);
    LateLeaseRecorded(b, i, lease, usable, valid);
    StepKeepsBook(b, Attaches(i, Some(lease), usable, valid));
    var delivered := Next(b, Attaches(i, Some(lease), usable, valid));
    RunKeepsBook(delivered, after);
    var c := Run(delivered, after);
    assert Follows(delivered.history[i], c.history[i]) && AttemptOk(c.history[i], c.ended);
    if lease !in c.ended {
      assert !c.history[i].cleanupVerified;
      if k != i { UncleanBlocks(c, i, k); }
    }
  }

  /** A cleanup that failed is not stuck: revoking again starts a new run. */
  lemma RevokeRetries(b: Book, root: string, i: nat)
    requires BookOk(b) && i < |b.history| && b.history[i].root == root
    requires b.history[i].cleanup.Settled? && !b.history[i].cleanupVerified
    ensures var run := b.history[i].cleanup.run;
            var c := Next(b, Revokes(root));
            && Enabled(c, ResumesRetry(i, run))
            && var a := Next(c, ResumesRetry(i, run)).history[i];
            && a.state == Revoked && a.cleanup == InFlight(b.history[i].runs, ClosingLease, true)
            && a.cleanup.run > run
  {
    assert AttemptOk(b.history[i], b.ended);
    var c := Next(b, Revokes(root));
    RevokedRetrying(b, root, i);
    assert c.history[i].retrying == b.history[i].retrying + {b.history[i].cleanup.run};
  }

  lemma RevokedRetrying(b: Book, root: string, i: nat)
    requires BookOk(b) && i < |b.history| && b.history[i].root == root
    requires b.history[i].cleanup.Settled? && !b.history[i].cleanupVerified
    ensures var a, c := b.history[i], Next(b, Revokes(root)).history[i];
            && |Next(b, Revokes(root)).history| == |b.history|
            && c.retrying == a.retrying + {a.cleanup.run} && c.cleanup == a.cleanup && c.runs == a.runs && c.state == Revoked
  {
    assert AttemptOk(b.history[i], b.ended);
  }

  // ----- the object in a run -----

  /** The synchronous code that an event sets off; a cleanup's own steps are given by their functions. */
  method React(b: BrowserAttachments, l: Label)
    requires Enabled(b.View(), l)
    modifies b
    ensures b.View() == Next(old(b.View()), l)
  {
    match l {
      case Request(root) => var _ := b.Authorize(root);
      case LeaseEnds(lease) =>
        b.ended, b.history := b.ended + {lease}, EndLease(b.View(), lease).history;
      case Revokes(root) => b.Revoke(root);
      case Closes => b.Close();
      case HostSettles(i, outcome) => b.SettleHost(i, outcome);
      case Attaches(i, lease, usable, valid) => b.Attach(i, lease, usable, valid);
      case Resolves(i, ok) => b.ResolveInvocation(i, ok);
      case Opens(i, ok) => b.history := Opened(b.View(), i, ok).history;
      case Observes(i, ok) => b.FinishObservation(i, ok);
      case Quarantines(i) => b.Quarantine(i);
      case Invalidates(i) => b.Invalidate(i);
      case ResumesRetry(i, run) => b.ResumeRetry(i, run);
      case Finishes(i) => var _ := b.FinishCleanup(i);
      case _ => b.history := b.history[l.i := CleanStep(b.history[l.i], l, b.ended)];
    }
  }

  /** An object to which the events of a run happen ends in the state of the run, and keeps its promises. */
  method Live(ls: seq<Label>) returns (b: BrowserAttachments)
    requires Possible(EMPTY, ls)
    ensures fresh(b) && b.View() == Run(EMPTY, ls)
    ensures forall i | 0 <= i < |b.history| :: b.history[i].cleanupVerified ==> Clean(b.history[i], b.ended)
  {
    b := new BrowserAttachments();
    assert ls[0..] == ls;
    for k := 0 to |ls|
      invariant fresh(b) && Possible(b.View(), ls[k..]) && Run(b.View(), ls[k..]) == Run(EMPTY, ls)
    {
      assert ls[k..][0] == ls[k] && ls[k..][1..] == ls[k + 1..];
      React(b, ls[k]);
    }
    forall i | 0 <= i < |b.history| && b.history[i].cleanupVerified ensures Clean(b.history[i], b.ended) {
      VerifiedMeansClean(ls, i);
    }
  }
}
