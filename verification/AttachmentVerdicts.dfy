/**
  What each event does to the attempts of any reachable book, told from what the
  attempts look like before it; and one attachment from its request to its clean end.
 */
module AttachmentVerdicts {
  import opened Wrappers
  import opened Attachment
  import opened AttachmentSafety
  import opened Sequences

  /** Not aborted, its lease alive, and every other attempt on its root cleaned up. */
  ghost predicate Unhindered(b: Book, i: nat)
    requires i < |b.history|
  {
    && !b.history[i].aborted && (b.history[i].lease.Some? ==> b.history[i].lease.value !in b.ended)
    && forall j | 0 <= j < |b.history| && j != i && b.history[j].root == b.history[i].root :: b.history[j].cleanupVerified
  }

  lemma CurrentIsUnhindered(b: Book, i: nat)
    requires BookOk(b) && i < |b.history|
    ensures IsCurrent(b, i) <==> Unhindered(b, i)
  {
    assert AttemptOk(b.history[i], b.ended);
  }

  lemma Reached(ls: seq<Label>)
    requires Possible(EMPTY, ls)
    ensures BookOk(Run(EMPTY, ls))
  {
    EmptyBookOk();
    RunKeepsBook(EMPTY, ls);
  }

  /** Only attempt `i` has changed. */
  ghost predicate OnlyChanges(b: Book, c: Book, i: nat) {
    && i < |b.history| == |c.history| && c.attempts == b.attempts && c.closed == b.closed && c.ended == b.ended
    && forall j | 0 <= j < |b.history| && j != i :: c.history[j] == b.history[j]
  }

  /** The attempt has been blocked and aborted, and a cleanup of it is under way or was made before. */
  ghost predicate Stops(a: Attempt, c: Attempt) {
    && c.aborted && c.state == (if a.state == Revoked then Revoked else Blocked) && c.cleanup != Absent
    && (a.cleanup == Absent ==> c.cleanup == InFlight(a.runs, ClosingLease, true))
  }

  /** A cleanup begins, or follows the unverified one in flight or past; a verified one stands. */
  ghost predicate Retries(a: Attempt, c: Attempt) {
    if a.cleanup == Absent then c.cleanup == InFlight(a.runs, ClosingLease, true) && c.retrying == a.retrying
    else c.cleanup == a.cleanup && c.retrying == a.retrying + (if c.cleanupVerified then {} else {a.cleanup.run})
  }

  // ----- authorizing -----

  /** In every run a request makes a new attempt exactly when the instance is open and its root is clean. */
  lemma RequestVerdict(ls: seq<Label>, root: string)
    requires Possible(EMPTY, ls)
    ensures var b, c := Run(EMPTY, ls), Next(Run(EMPTY, ls), Request(root));
            var clean := forall j | 0 <= j < |b.history| && b.history[j].root == root :: b.history[j].cleanupVerified;
            && (!b.closed && clean ==>
                  && |c.history| == |b.history| + 1 && c.history[..|b.history|] == b.history
                  && c.attempts == b.attempts[root := |b.history|] && c.closed == b.closed && c.ended == b.ended
                  && var a := c.history[|b.history|];
                     a.root == root && a.state == Pending && a.authorizing && Unhindered(c, |b.history|)
                     && a.lease.None? && !a.attempted && !a.verified && a.cleanup == Absent)
            && (b.closed || !clean ==> c == b)
  {
    Reached(ls);
    var b := Run(EMPTY, ls);
    assert forall j | 0 <= j < |b.history| :: AttemptOk(b.history[j], b.ended);
    if root in b.attempts && !MayAuthorize(b, root) && !b.closed {
      var k := b.attempts[root];
      assert b.history[k].cleanupVerified ==> UncleanPrevious(b, root, Some(k));
    }
  }

  /**
    In every run, when the host settles, the attempt is active afterwards exactly when the host has
    authorized it, its session is verified, and nothing hinders it; otherwise it is stopped.
   */
  lemma HostVerdict(ls: seq<Label>, i: nat, outcome: HostOutcome)
    requires Possible(EMPTY, ls) && Enabled(Run(EMPTY, ls), HostSettles(i, outcome))
    ensures var b, c := Run(EMPTY, ls), Next(Run(EMPTY, ls), HostSettles(i, outcome));
            var a := b.history[i];
            var authorized := && outcome == HostAuthorized && a.verified && !a.aborted
                              && a.lease.Some? && a.lease.value !in b.ended
                              && forall j | 0 <= j < |b.history| && j != i && b.history[j].root == a.root ::
                                   b.history[j].cleanupVerified;
            && OnlyChanges(b, c, i) && !c.history[i].authorizing
            && (AssertsActive(c, i) <==> authorized)
            && (authorized ==> c.history[i] == a.(state := Authorized, authorizing := false))
            && (!authorized ==> Stops(a, c.history[i]))
  {
    Reached(ls);
    var b := Run(EMPTY, ls);
    CurrentIsUnhindered(b, i);
    assert AttemptOk(b.history[i], b.ended);
  }

  lemma InvalidatedStops(a: Attempt)
    ensures Stops(a, Invalidated(a))
  {
  }

  lemma RejectedStops(a: Attempt, tried: bool, lease: Lease)
    requires a.everRejected != {} || a.cleanup != Absent ==> a.aborted
    ensures var d := LeaseRejected(a.(attempted := tried), lease);
            && !d.cleanupVerified && d.aborted && d.state == (if a.state == Revoked then Revoked else Blocked)
            && Stops(a, d) && Retries(a, d) && d.quarantining == a.quarantining + 1
            && d.rejected == a.rejected + {lease} && d.attempted == tried && d.lease == a.lease
  {
  }

  lemma AttachedSplits(b: Book, i: nat, offered: Option<Lease>, usable: bool, valid: bool)
    requires BookOk(b) && i < |b.history|
    ensures var a, d := b.history[i], Attached(b, i, offered, usable, valid).history[i];
            var first := !a.attempted && Unhindered(b, i);
            var taken := a.(attempted := true, lease := offered, listening := true);
            if first && offered.Some? && usable && offered.value !in b.ended
            then d == if valid then taken.(stage := Resolving) else Invalidated(taken.(stage := Over))
            else if offered.Some? && (first || offered != a.lease)
            then d == LeaseRejected(a.(attempted := a.attempted || first), offered.value)
            else d == a.(attempted := a.attempted || first)
  {
    CurrentIsUnhindered(b, i);
    var a := b.history[i];
    assert a.(attempted := a.attempted) == a;
  }

  /** What becomes of a lease that is offered, and of the attempt. */
  ghost predicate AttachOutcome(b: Book, i: nat, d: Attempt, offered: Option<Lease>, usable: bool, valid: bool)
    requires i < |b.history|
  {
    var a := b.history[i];
    var first := !a.attempted && Unhindered(b, i);
    var taken := first && offered.Some? && usable && offered.value !in b.ended;
    var rejected := offered.Some? && !taken && (first || offered != a.lease);
    && d.attempted == (a.attempted || first) && d.lease == (if taken then offered else a.lease)
    && d.rejected == a.rejected + (if rejected then {offered.value} else {})
    && (taken && valid ==> d.stage == Resolving && d.listening && !d.aborted)
    && (taken && !valid ==> Stops(a, d))
    && (rejected ==> !d.cleanupVerified && Stops(a, d) && Retries(a, d) && d.quarantining == a.quarantining + 1)
    && (!taken && !rejected ==> d == a.(attempted := d.attempted))
  }

  lemma AttachedAsTold(b: Book, i: nat, offered: Option<Lease>, usable: bool, valid: bool)
    requires BookOk(b) && i < |b.history|
    ensures AttachOutcome(b, i, Attached(b, i, offered, usable, valid).history[i], offered, usable, valid)
  {
    var a := b.history[i];
    assert AttemptOk(a, b.ended);
    AttachedSplits(b, i, offered, usable, valid);
    InvalidatedStops(a.(attempted := true, lease := offered, listening := true, stage := Over));
    if offered.Some? { RejectedStops(a, a.attempted || Unhindered(b, i), offered.value); }
  }

  /**
    In every run, the first usable lease of an unhindered attempt is taken; any other is rejected,
    which stops the attempt and has its cleanup retried.
   */
  lemma AttachVerdict(ls: seq<Label>, i: nat, offered: Option<Lease>, usable: bool, valid: bool)
    requires Possible(EMPTY, ls) && Enabled(Run(EMPTY, ls), Attaches(i, offered, usable, valid))
    ensures var b, c := Run(EMPTY, ls), Next(Run(EMPTY, ls), Attaches(i, offered, usable, valid));
            OnlyChanges(b, c, i) && AttachOutcome(b, i, c.history[i], offered, usable, valid)
  {
    Reached(ls);
    AttachedAsTold(Run(EMPTY, ls), i, offered, usable, valid);
  }

  /** In every run, the native operation starts exactly when the invocation is known and nothing hinders the attempt. */
  lemma ResolveVerdict(ls: seq<Label>, i: nat, ok: bool)
    requires Possible(EMPTY, ls) && Enabled(Run(EMPTY, ls), Resolves(i, ok))
    ensures var b, c := Run(EMPTY, ls), Next(Run(EMPTY, ls), Resolves(i, ok));
            var a, d := b.history[i], c.history[i];
            && OnlyChanges(b, c, i) && (ok ==> d.invoked)
            && (ok && Unhindered(b, i) ==> d.started && d.native == Running && d.stage == Opening && !d.aborted)
            && (!(ok && Unhindered(b, i)) ==> !d.started && d.native == NotStarted && d.stage == Over && Stops(a, d))
  {
    Reached(ls);
    var b := Run(EMPTY, ls);
    CurrentIsUnhindered(b, i);
    assert AttemptOk(b.history[i], b.ended);
  }

  /** In every run, a session that has opened is observed next; one that has not stops the attempt. */
  lemma OpenVerdict(ls: seq<Label>, i: nat, ok: bool)
    requires Possible(EMPTY, ls) && Enabled(Run(EMPTY, ls), Opens(i, ok))
    ensures var b, c := Run(EMPTY, ls), Next(Run(EMPTY, ls), Opens(i, ok));
            var a, d := b.history[i], c.history[i];
            && OnlyChanges(b, c, i)
            && (ok ==> d == a.(stage := Observing))
            && (!ok ==> d.stage == Over && d.verified == a.verified && Stops(a, d))
  {
    Reached(ls);
  }

  /** In every run, a session is verified exactly when it was observed while nothing hinders the attempt. */
  lemma ObserveVerdict(ls: seq<Label>, i: nat, ok: bool)
    requires Possible(EMPTY, ls) && Enabled(Run(EMPTY, ls), Observes(i, ok))
    ensures var b, c := Run(EMPTY, ls), Next(Run(EMPTY, ls), Observes(i, ok));
            var a, d := b.history[i], c.history[i];
            && OnlyChanges(b, c, i) && d.stage == Over
            && (ok && Unhindered(b, i) ==> d == a.(verified := true, stage := Over))
            && (!(ok && Unhindered(b, i)) ==> d.verified == a.verified && Stops(a, d))
  {
    Reached(ls);
    CurrentIsUnhindered(Run(EMPTY, ls), i);
  }

  // ----- stopping -----

  /** In every run, a lease that ends stops the attempt it belongs to, at once and no other. */
  lemma LeaseEndVerdict(ls: seq<Label>, lease: Lease, i: nat)
    requires Possible(EMPTY, ls) && i < |Run(EMPTY, ls).history|
    ensures var b, c := Run(EMPTY, ls), Next(Run(EMPTY, ls), LeaseEnds(lease));
            var a, d := b.history[i], c.history[i];
            && c.ended == b.ended + {lease} && d.cleanupVerified == a.cleanupVerified
            && (d.aborted <==> a.aborted || a.lease == Some(lease))
            && (!a.aborted && a.lease == Some(lease) ==> Stops(a, d))
            && (a.lease != Some(lease) ==> d == a)
  {
    Reached(ls);
    assert AttemptOk(Run(EMPTY, ls).history[i], Run(EMPTY, ls).ended);
  }

  /** What a rejection does to attempt `k` once its cleanup is over. */
  ghost predicate QuarantineOutcome(b: Book, i: nat, k: nat, d: Attempt)
    requires i < |b.history| && k < |b.history|
  {
    var a, root := b.history[k], b.history[i].root;
    var struck := k != i && !b.history[i].cleanupVerified && root in b.attempts && b.attempts[root] == k;
    && (struck ==> Stops(a, d))
    && (!struck && k != i ==> d == a)
    && (k == i ==> d.quarantining + 1 == a.quarantining && d == a.(quarantining := d.quarantining))
  }

  lemma QuarantinedAsTold(b: Book, i: nat, k: nat)
    requires i < |b.history| && k < |b.history| && b.history[i].quarantining > 0
    requires b.history[i].root in b.attempts ==> b.attempts[b.history[i].root] < |b.history|
    ensures |Quarantined(b, i).history| == |b.history| && QuarantineOutcome(b, i, k, Quarantined(b, i).history[k])
  {
    QuarantinedAt(b, i, k);
    InvalidatedStops(b.history[k]);
  }

  lemma QuarantinedAt(b: Book, i: nat, k: nat)
    requires i < |b.history| && k < |b.history| && b.history[i].quarantining > 0
    requires b.history[i].root in b.attempts ==> b.attempts[b.history[i].root] < |b.history|
    ensures |Quarantined(b, i).history| == |b.history|
    ensures var a, d, root := b.history[k], Quarantined(b, i).history[k], b.history[i].root;
            var struck := k != i && !b.history[i].cleanupVerified && root in b.attempts && b.attempts[root] == k;
            && (struck ==> d == Invalidated(a)) && (!struck && k != i ==> d == a)
            && (k == i ==> d == a.(quarantining := a.quarantining - 1))
  {
    var a := b.history[i];
    var c := Put(b, i, a.(quarantining := a.quarantining - 1));
    if !a.cleanupVerified && a.root in b.attempts && b.attempts[a.root] != i {
      var m := b.attempts[a.root];
      assert c.history[m] == b.history[m];
      assert Quarantined(b, i) == Put(c, m, Invalidated(b.history[m]));
    } else {
      assert Quarantined(b, i) == c;
    }
  }

  /**
    In every run, once the cleanup of a rejected lease is over, the attempt now in charge of the
    root is stopped exactly when the rejecting attempt is still unclean, and no other is.
   */
  lemma QuarantineVerdict(ls: seq<Label>, i: nat, k: nat)
    requires Possible(EMPTY, ls) && Enabled(Run(EMPTY, ls), Quarantines(i)) && k < |Run(EMPTY, ls).history|
    ensures var b, c := Run(EMPTY, ls), Next(Run(EMPTY, ls), Quarantines(i));
            |c.history| == |b.history| && QuarantineOutcome(b, i, k, c.history[k])
  {
    Reached(ls);
    QuarantinedAsTold(Run(EMPTY, ls), i, k);
  }

  /** In every run, revoking stops every attempt on the root, has its cleanup retried, and touches no other. */
  lemma RevokeVerdict(ls: seq<Label>, root: string, i: nat)
    requires Possible(EMPTY, ls) && i < |Run(EMPTY, ls).history|
    ensures var b, c := Run(EMPTY, ls), Next(Run(EMPTY, ls), Revokes(root));
            var a, d := b.history[i], c.history[i];
            && c.closed == b.closed && |c.history| == |b.history|
            && (a.root == root ==> d.state == Revoked && d.aborted && Retries(a, d) && d.cleanupVerified == a.cleanupVerified)
            && (a.root != root ==> d == a)
  {
    Reached(ls);
    assert AttemptOk(Run(EMPTY, ls).history[i], Run(EMPTY, ls).ended);
  }

  /** In every run, closing does so with every attempt there is. */
  lemma CloseVerdict(ls: seq<Label>, i: nat)
    requires Possible(EMPTY, ls) && i < |Run(EMPTY, ls).history|
    ensures var b, c := Run(EMPTY, ls), Next(Run(EMPTY, ls), Closes);
            var a, d := b.history[i], c.history[i];
            && c.closed && |c.history| == |b.history|
            && d.state == Blocked && d.aborted && Retries(a, d) && d.cleanupVerified == a.cleanupVerified
  {
    Reached(ls);
    assert AttemptOk(Run(EMPTY, ls).history[i], Run(EMPTY, ls).ended);
  }

  /** In every run, a retry that has waited for a run starts the next one unless that has been done or is not needed. */
  lemma RetryVerdict(ls: seq<Label>, i: nat, run: nat)
    requires Possible(EMPTY, ls) && Enabled(Run(EMPTY, ls), ResumesRetry(i, run))
    ensures var b, c := Run(EMPTY, ls), Next(Run(EMPTY, ls), ResumesRetry(i, run));
            var a, d := b.history[i], c.history[i];
            && OnlyChanges(b, c, i) && d.retrying == a.retrying - {run}
            && d.cleanup == (if a.cleanup == Absent || (!a.cleanupVerified && a.cleanup.run == run)
                             then InFlight(a.runs, ClosingLease, true) else a.cleanup)
  {
    Reached(ls);
  }

  // ----- one cleanup run -----

  /** The steps of a cleanup run without rejected leases, polling once. */
  function CleanupSteps(i: nat, polls: bool, threw: bool, timedOut: bool, ok: bool, poll: Poll): seq<Label> {
    [CleansLease(i, threw), CleansRejectedDone(i), CleansNative(i, timedOut), CleansSession(i, ok)]
    + (if polls && ok then [Polls(i, poll)] else []) + [Finishes(i)]
  }

  lemma {:induction false} Append(b: Book, ls: seq<Label>, l: Label)
    requires Possible(b, ls) && Enabled(Run(b, ls), l)
    ensures Possible(b, ls + [l]) && Run(b, ls + [l]) == Next(Run(b, ls), l)
    decreases |ls|
  {
    var more := ls + [l];
    if ls != [] {
      assert more[0] == ls[0] && more[1..] == ls[1..] + [l];
      Append(Next(b, ls[0]), ls[1..], l);
    }
  }

  predicate AtStart(b: Book, i: nat) {
    i < |b.history| && b.history[i].cleanup.InFlight? && b.history[i].cleanup.phase == ClosingLease
    && b.history[i].cleanup.clean && b.history[i].rejected == {}
  }

  /** The run has changed attempt `i` alone, to `a`. */
  ghost predicate Leads(b: Book, i: nat, ls: seq<Label>, a: Attempt) {
    i < |b.history| && Possible(b, ls) && Run(b, ls) == Put(b, i, a)
  }

  /** A step of the cleanup as one more label of such a run. */
  lemma CleanNext(b: Book, i: nat, ls: seq<Label>, a: Attempt, l: Label)
    requires Leads(b, i, ls, a) && Single(l) && l.i == i && AttemptEnabled(a, l)
    requires l.CleansLease? || l.CleansRejectedDone? || l.CleansNative? || l.CleansSession? || l.Polls? || l.Finishes?
    ensures Leads(b, i, ls + [l], CleanStep(a, l, b.ended))
  {
    Append(b, ls, l);
    assert b.history[i := a][i := CleanStep(a, l, b.ended)] == b.history[i := CleanStep(a, l, b.ended)];
  }

  /** The attempt while its cleanup is in a phase. */
  function InPhase(a: Attempt, phase: Phase, clean: bool): Attempt
    requires a.cleanup.InFlight?
  {
    a.(cleanup := InFlight(a.cleanup.run, phase, clean))
  }

  lemma LeaseStep(b: Book, i: nat, ls: seq<Label>, a: Attempt, threw: bool)
    requires a.cleanup.InFlight? && Leads(b, i, ls, InPhase(a, ClosingLease, true))
    ensures Leads(b, i, ls + [CleansLease(i, threw)],
                  InPhase(a, ClosingRejected({}), a.lease.Some? ==> !threw && a.lease.value in b.ended))
  {
    CleanNext(b, i, ls, InPhase(a, ClosingLease, true), CleansLease(i, threw));
  }

  lemma RejectedStep(b: Book, i: nat, ls: seq<Label>, a: Attempt, clean: bool)
    requires a.cleanup.InFlight? && a.rejected == {} && Leads(b, i, ls, InPhase(a, ClosingRejected({}), clean))
    ensures Leads(b, i, ls + [CleansRejectedDone(i)], InPhase(a, AwaitingNative, clean))
  {
    CleanNext(b, i, ls, InPhase(a, ClosingRejected({}), clean), CleansRejectedDone(i));
  }

  lemma NativeStep(b: Book, i: nat, ls: seq<Label>, a: Attempt, clean: bool, timedOut: bool)
    requires a.cleanup.InFlight? && (timedOut || a.native != Running)
    requires Leads(b, i, ls, InPhase(a, AwaitingNative, clean))
    ensures Leads(b, i, ls + [CleansNative(i, timedOut)],
                  InPhase(a, ClosingSession, clean && (a.native == NotStarted || !timedOut)))
  {
    CleanNext(b, i, ls, InPhase(a, AwaitingNative, clean), CleansNative(i, timedOut));
  }

  lemma SessionStep(b: Book, i: nat, ls: seq<Label>, a: Attempt, clean: bool, ok: bool)
    requires a.cleanup.InFlight? && Leads(b, i, ls, InPhase(a, ClosingSession, clean))
    ensures Leads(b, i, ls + [CleansSession(i, ok)],
                  InPhase(a, if a.started && a.invoked && ok then PollingSession else Finishing,
                          clean && (a.started && a.invoked ==> ok)))
  {
    CleanNext(b, i, ls, InPhase(a, ClosingSession, clean), CleansSession(i, ok));
  }

  lemma FinalPoll(a: Attempt, clean: bool, poll: Poll)
    requires a.cleanup.InFlight? && poll != StillClosing
    ensures Polled(InPhase(a, PollingSession, clean), poll)
            == InPhase(a.(seenInactive := a.seenInactive || poll == Inactive), Finishing, clean && poll == Inactive)
  {
  }

  lemma PollStep(b: Book, i: nat, ls: seq<Label>, a: Attempt, clean: bool, poll: Poll)
    requires a.cleanup.InFlight? && poll != StillClosing && Leads(b, i, ls, InPhase(a, PollingSession, clean))
    ensures Leads(b, i, ls + [Polls(i, poll)],
                  InPhase(a.(seenInactive := a.seenInactive || poll == Inactive), Finishing, clean && poll == Inactive))
  {
    FinalPoll(a, clean, poll);
    CleanNext(b, i, ls, InPhase(a, PollingSession, clean), Polls(i, poll));
  }

  lemma FinishStep(b: Book, i: nat, ls: seq<Label>, a: Attempt, clean: bool)
    requires a.cleanup.InFlight? && a.rejected == {} && Leads(b, i, ls, InPhase(a, Finishing, clean))
    ensures Leads(b, i, ls + [Finishes(i)], a.(cleanupVerified := clean, cleanup := Settled(a.cleanup.run)))
  {
    CleanNext(b, i, ls, InPhase(a, Finishing, clean), Finishes(i));
  }

  /** Up to the point where a started session is told to close. */
  lemma FirstSteps(b: Book, i: nat, threw: bool, timedOut: bool)
    requires AtStart(b, i) && (timedOut || b.history[i].native != Running)
    ensures var a := b.history[i];
            var clean := (a.lease.Some? ==> !threw && a.lease.value in b.ended) && (a.native == NotStarted || !timedOut);
            Leads(b, i, [CleansLease(i, threw), CleansRejectedDone(i), CleansNative(i, timedOut)], InPhase(a, ClosingSession, clean))
  {
    var a := b.history[i];
    var closed := a.lease.Some? ==> !threw && a.lease.value in b.ended;
    assert InPhase(a, ClosingLease, true) == a;
    assert Put(b, i, a) == b && Leads(b, i, [], InPhase(a, ClosingLease, true));
    LeaseStep(b, i, [], a, threw);
    RejectedStep(b, i, [] + [CleansLease(i, threw)], a, closed);
    NativeStep(b, i, [] + [CleansLease(i, threw)] + [CleansRejectedDone(i)], a, closed, timedOut);
    assert [] + [CleansLease(i, threw)] + [CleansRejectedDone(i)] + [CleansNative(i, timedOut)]
        == [CleansLease(i, threw), CleansRejectedDone(i), CleansNative(i, timedOut)];
  }

  /** From there to the end. */
  lemma LastSteps(b: Book, i: nat, ls: seq<Label>, a: Attempt, clean: bool, ok: bool, poll: Poll) returns (d: Attempt)
    requires a.cleanup.InFlight? && a.rejected == {} && poll != StillClosing
    requires Leads(b, i, ls, InPhase(a, ClosingSession, clean))
    ensures var polls := a.started && a.invoked && ok;
            Leads(b, i, ls + [CleansSession(i, ok)] + (if polls then [Polls(i, poll)] else []) + [Finishes(i)], d)
    ensures d.cleanupVerified == (clean && (a.started && a.invoked ==> ok && poll == Inactive))
    ensures d.state == a.state && d.root == a.root
  {
    var polls := a.started && a.invoked && ok;
    var good := clean && (a.started && a.invoked ==> ok);
    SessionStep(b, i, ls, a, clean, ok);
    if polls {
      d := PollAndFinish(b, i, ls + [CleansSession(i, ok)], a, good, poll);
    } else {
      AppendNothing(ls + [CleansSession(i, ok)]);
      FinishStep(b, i, ls + [CleansSession(i, ok)], a, good);
      d := a.(cleanupVerified := good, cleanup := Settled(a.cleanup.run));
    }
  }

  lemma PollAndFinish(b: Book, i: nat, ls: seq<Label>, a: Attempt, clean: bool, poll: Poll) returns (d: Attempt)
    requires a.cleanup.InFlight? && a.rejected == {} && poll != StillClosing
    requires Leads(b, i, ls, InPhase(a, PollingSession, clean))
    ensures Leads(b, i, ls + [Polls(i, poll)] + [Finishes(i)], d)
    ensures d.cleanupVerified == (clean && poll == Inactive) && d.state == a.state && d.root == a.root
  {
    var seen := a.(seenInactive := a.seenInactive || poll == Inactive);
    PollStep(b, i, ls, a, clean, poll);
    FinishStep(b, i, ls + [Polls(i, poll)], seen, clean && poll == Inactive);
    d := seen.(cleanupVerified := clean && poll == Inactive, cleanup := Settled(a.cleanup.run));
  }

  /**
    A cleanup run that nothing interrupts ends verified exactly when its lease has closed, its
    native operation has settled in time, and a started session has closed and was then seen
    inactive.
   */
  lemma CleanupVerdict(b: Book, i: nat, threw: bool, timedOut: bool, ok: bool, poll: Poll)
    requires AtStart(b, i) && (timedOut || b.history[i].native != Running) && poll != StillClosing
    ensures var a := b.history[i];
            var ls := CleanupSteps(i, a.started && a.invoked, threw, timedOut, ok, poll);
            && Possible(b, ls) && OnlyChanges(b, Run(b, ls), i)
            && Run(b, ls).history[i].root == a.root && Run(b, ls).history[i].state == a.state
            && (Run(b, ls).history[i].cleanupVerified <==>
                  && (a.lease.Some? ==> !threw && a.lease.value in b.ended)
                  && (a.native == NotStarted || !timedOut)
                  && (a.started && a.invoked ==> ok && poll == Inactive))
  {
    var a := b.history[i];
    var first := [CleansLease(i, threw), CleansRejectedDone(i), CleansNative(i, timedOut)];
    var clean := (a.lease.Some? ==> !threw && a.lease.value in b.ended) && (a.native == NotStarted || !timedOut);
    FirstSteps(b, i, threw, timedOut);
    var d := LastSteps(b, i, first, a, clean, ok, poll);
    assert first + [CleansSession(i, ok)] == [CleansLease(i, threw), CleansRejectedDone(i), CleansNative(i, timedOut), CleansSession(i, ok)];
  }

  /** While the session is still closing a poll decides nothing; a rejected lease stays unless it has closed. */
  lemma CleanupWaits(ls: seq<Label>, i: nat, lease: Lease, threw: bool)
    requires Possible(EMPTY, ls)
    ensures var b := Run(EMPTY, ls);
            && (Enabled(b, Polls(i, StillClosing)) ==> Next(b, Polls(i, StillClosing)).history[i] == b.history[i])
            && (Enabled(b, CleansRejected(i, lease, threw)) ==>
                  var a, d := b.history[i], Next(b, CleansRejected(i, lease, threw)).history[i];
                  if !threw && lease in b.ended then d == a.(rejected := a.rejected - {lease})
                  else d.rejected == a.rejected && d.cleanup.InFlight? && !d.cleanup.clean)
  {
  }

  lemma {:induction false} Concat(b: Book, x: seq<Label>, y: seq<Label>)
    requires Possible(b, x) && Possible(Run(b, x), y)
    ensures Possible(b, x + y) && Run(b, x + y) == Run(Run(b, x), y)
    decreases |x|
  {
    if x == [] {
      assert x + y == y;
    } else {
      assert (x + y)[0] == x[0] && (x + y)[1..] == x[1..] + y;
      Concat(Next(b, x[0]), x[1..], y);
    }
  }

  // ----- a whole attachment -----

  const OPENING: seq<Label> :=
    [Request("r"), Attaches(0, Some(1), true, true), Resolves(0, true), NativeSettles(0), Opens(0, true), Observes(0, true)]

  /** The attempt of a session that has been opened and observed. */
  function Observed1(): Attempt {
    NewAttempt("r").(lease := Some(1), listening := true, attempted := true, invoked := true, started := true,
                     native := Done, stage := Over, verified := true)
  }

  lemma OpensSession()
    ensures Possible(EMPTY, OPENING) && Run(EMPTY, OPENING) == Book(map["r" := 0], [Observed1()], false, {})
  {
    var ls := [Request("r"), Attaches(0, Some(1), true, true)];
    LeaseTaken();
    Append(EMPTY, ls, Resolves(0, true));
    ls := ls + [Resolves(0, true)];
    var a := Observed1().(native := Running, stage := Opening, verified := false);
    assert Run(EMPTY, ls) == Book(map["r" := 0], [a], false, {});
    ThenObserved(ls, a);
    assert ls + [NativeSettles(0), Opens(0, true), Observes(0, true)] == OPENING;
  }

  lemma LeaseTaken()
    ensures var ls := [Request("r"), Attaches(0, Some(1), true, true)];
            && Possible(EMPTY, ls)
            && Run(EMPTY, ls) == Book(map["r" := 0],
                 [NewAttempt("r").(lease := Some(1), listening := true, attempted := true, stage := Resolving)], false, {})
  {
    Append(EMPTY, [], Request("r"));
    assert [] + [Request("r")] == [Request("r")];
    assert Run(EMPTY, [Request("r")]) == Book(map["r" := 0], [NewAttempt("r")], false, {});
    Append(EMPTY, [Request("r")], Attaches(0, Some(1), true, true));
    assert [Request("r")] + [Attaches(0, Some(1), true, true)] == [Request("r"), Attaches(0, Some(1), true, true)];
  }

  lemma ThenObserved(ls: seq<Label>, a: Attempt)
    requires Possible(EMPTY, ls) && Run(EMPTY, ls) == Book(map["r" := 0], [a], false, {})
    requires a == Observed1().(native := Running, stage := Opening, verified := false)
    ensures var more := ls + [NativeSettles(0), Opens(0, true), Observes(0, true)];
            Possible(EMPTY, more) && Run(EMPTY, more) == Book(map["r" := 0], [Observed1()], false, {})
  {
    var more := ls + [NativeSettles(0)];
    Append(EMPTY, ls, NativeSettles(0));
    assert Run(EMPTY, more) == Book(map["r" := 0], [a.(native := Done)], false, {});
    Append(EMPTY, more, Opens(0, true));
    more := more + [Opens(0, true)];
    assert Run(EMPTY, more) == Book(map["r" := 0], [a.(native := Done, stage := Observing)], false, {});
    Append(EMPTY, more, Observes(0, true));
    more := more + [Observes(0, true)];
    assert Run(EMPTY, more) == Book(map["r" := 0], [Observed1()], false, {});
    assert more == ls + [NativeSettles(0), Opens(0, true), Observes(0, true)];
  }

  /** A host that authorizes an opened and observed session leaves it active. */
  lemma SessionBecomesActive()
    ensures var ls := OPENING + [HostSettles(0, HostAuthorized)];
            && Possible(EMPTY, ls) && |Run(EMPTY, ls).history| == 1 && AssertsActive(Run(EMPTY, ls), 0)
            && Run(EMPTY, ls) == Book(map["r" := 0], [Observed1().(state := Authorized, authorizing := false)], false, {})
  {
    OpensSession();
    Append(EMPTY, OPENING, HostSettles(0, HostAuthorized));
  }

  /** Revoked, with its lease closed and the session seen inactive, it is clean, and its root can be authorized again. */
  lemma RevokedSessionMakesRoom()
    ensures var active := OPENING + [HostSettles(0, HostAuthorized)];
            var ls := active + [Revokes("r"), LeaseEnds(1)] + CleanupSteps(0, true, false, false, true, Inactive) + [Request("r")];
            && Possible(EMPTY, ls)
            && var b := Run(EMPTY, ls);
            && |b.history| == 2 && b.history[0].cleanupVerified && b.history[0].state == Revoked
            && b.history[1] == NewAttempt("r") && b.attempts == map["r" := 1]
  {
    var active := OPENING + [HostSettles(0, HostAuthorized)];
    SessionBecomesActive();
    Append(EMPTY, active, Revokes("r"));
    var a := Observed1().(state := Revoked, authorizing := false, aborted := true, listening := false,
                          cleanup := InFlight(0, ClosingLease, true), runs := 1);
    assert Run(EMPTY, active + [Revokes("r")]) == Book(map["r" := 0], [a], false, {});
    Append(EMPTY, active + [Revokes("r")], LeaseEnds(1));
    var revoked := active + [Revokes("r"), LeaseEnds(1)];
    assert active + [Revokes("r")] + [LeaseEnds(1)] == revoked;
    var b := Run(EMPTY, revoked);
    assert b == Book(map["r" := 0], [a], false, {1});
    ThenCleaned(revoked);
  }

  lemma ThenCleaned(ls: seq<Label>)
    requires Possible(EMPTY, ls)
    requires var b := Run(EMPTY, ls);
             && AtStart(b, 0) && |b.history| == 1 && b.attempts == map["r" := 0] && !b.closed && b.ended == {1}
             && var a := b.history[0];
                a.root == "r" && a.started && a.invoked && a.native == Done && a.lease == Some(1) && a.state == Revoked
    ensures var more := ls + CleanupSteps(0, true, false, false, true, Inactive) + [Request("r")];
            && Possible(EMPTY, more)
            && var c := Run(EMPTY, more);
            && |c.history| == 2 && c.history[0].cleanupVerified && c.history[0].state == Revoked
            && c.history[1] == NewAttempt("r") && c.attempts == map["r" := 1]
  {
    var steps := CleanupSteps(0, true, false, false, true, Inactive);
    CleanupVerdict(Run(EMPTY, ls), 0, false, false, true, Inactive);
    Concat(EMPTY, ls, steps);
    var b, c := Run(EMPTY, ls), Run(EMPTY, ls + steps);
    assert c.history[0].cleanupVerified && c.attempts == b.attempts && |c.history| == 1;
    ThenRequested(ls + steps);
  }

  lemma ThenRequested(ls: seq<Label>)
    requires Possible(EMPTY, ls)
    requires var b := Run(EMPTY, ls);
             |b.history| == 1 && b.history[0].cleanupVerified && b.attempts == map["r" := 0] && !b.closed
    ensures && Possible(EMPTY, ls + [Request("r")])
            && var b, c := Run(EMPTY, ls), Run(EMPTY, ls + [Request("r")]);
            && |c.history| == 2 && c.history[0] == b.history[0]
            && c.history[1] == NewAttempt("r") && c.attempts == map["r" := 1]
  {
    RequestVerdict(ls, "r");
    Append(EMPTY, ls, Request("r"));
  }
}
