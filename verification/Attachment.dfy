/**
  The lifecycle of existing-browser attachments: one attempt per authorization
  request, with its lease, its native operation and a memoised cleanup. Each
  function is the code between two awaits; the class updates the book-keeping
  in place and is proved to follow them.
 */
module Attachment {
  import opened Wrappers

  type Lease = nat

  datatype State = Pending | Authorized | Blocked | Revoked

  datatype Native = NotStarted | Running | Done

  /** Where the attach callback is. */
  datatype Stage = Idle | Resolving | Opening | Observing | Over

  /** Where a cleanup run is; `tried` are the rejected leases it failed to close. */
  datatype Phase =
    | ClosingLease
    | ClosingRejected(tried: set<Lease>)
    | AwaitingNative
    | ClosingSession
    | PollingSession
    | Finishing

  /** The memoised cleanup promise, numbered by run. */
  datatype Cleanup = Absent | InFlight(run: nat, phase: Phase, clean: bool) | Settled(run: nat)

  /**
    One attempt. `authorizing`, `stage`, `retrying` and `quarantining` (how many
    rejections still have to look at the outcome of their cleanup) are its
    suspended flows; `everRejected` and `seenInactive` record what happened.
   */
  datatype Attempt = Attempt(
    root: string, state: State, aborted: bool,
    lease: Option<Lease>, listening: bool, rejected: set<Lease>,
    attempted: bool, invoked: bool, started: bool, verified: bool, native: Native,
    cleanup: Cleanup, runs: nat, cleanupVerified: bool,
    authorizing: bool, stage: Stage, retrying: set<nat>, quarantining: nat,
    everRejected: set<Lease>, seenInactive: bool)

  /** `ended` are the leases whose abort signal has fired. */
  datatype Book = Book(attempts: map<string, nat>, history: seq<Attempt>, closed: bool, ended: set<Lease>)

  datatype HostOutcome = HostAuthorized | HostDeclined | HostThrew

  /** One answer to `session info` while a session shuts down. */
  datatype Poll = Inactive | StillClosing | Unexpected | PollFailed

  function NewAttempt(root: string): Attempt {
    Attempt(root, Pending, false, None, false, {}, false, false, false, false, NotStarted,
            Absent, 0, false, true, Idle, {}, 0, {}, false)
  }

  // ----- one attempt -----

  function StartCleanup(a: Attempt): Attempt {
    if a.cleanup != Absent then a
    else a.(listening := false, cleanup := InFlight(a.runs, ClosingLease, true), runs := a.runs + 1)
  }

  function Invalidated(a: Attempt): Attempt {
    var state := if a.state == Revoked then Revoked else Blocked;
    StartCleanup(a.(state := state, aborted := true))
  }

  /** #retryCleanup up to its first await: an unverified cleanup is awaited before a new one. */
  function RetryStarted(a: Attempt): Attempt {
    if a.cleanup != Absent && !a.cleanupVerified then a.(retrying := a.retrying + {a.cleanup.run})
    else StartCleanup(a)
  }

  /** #retryCleanup after the awaited run has settled. */
  function RetryResumed(a: Attempt, run: nat): Attempt {
    var b := a.(retrying := a.retrying - {run});
    if !b.cleanupVerified && b.cleanup != Absent && b.cleanup.run == run
    then StartCleanup(b.(cleanup := Absent))
    else StartCleanup(b)
  }

  /** The lease is recorded, what was verified no longer is, and the attempt is blocked. */
  function LeaseRecorded(a: Attempt, lease: Lease): Attempt {
    a.(rejected := a.rejected + {lease}, everRejected := a.everRejected + {lease}, quarantining := a.quarantining + 1,
       cleanupVerified := false, state := if a.state == Revoked then Revoked else Blocked, aborted := true)
  }

  function LeaseRejected(a: Attempt, lease: Lease): Attempt {
    RetryStarted(LeaseRecorded(a, lease))
  }

  function Stopped(a: Attempt, state: State): Attempt {
    RetryStarted(a.(state := state, aborted := true))
  }

  /** The abort listener of the attempt's lease, which fires once. */
  function LeaseEnded(a: Attempt, lease: Lease): Attempt {
    if a.listening && a.lease == Some(lease) then Invalidated(a.(listening := false)) else a
  }

  // ----- one cleanup run, phase by phase -----

  predicate CleaningIn(a: Attempt, phase: Phase) {
    a.cleanup.InFlight? && a.cleanup.phase == phase
  }

  function Advance(a: Attempt, phase: Phase, ok: bool): Attempt
    requires a.cleanup.InFlight?
  {
    a.(cleanup := InFlight(a.cleanup.run, phase, a.cleanup.clean && ok))
  }

  /** closeLease reports whether the lease's signal has fired, unless close() failed. */
  predicate CloseReported(lease: Lease, threw: bool, ended: set<Lease>) {
    !threw && lease in ended
  }

  function CleanedLease(a: Attempt, threw: bool, ended: set<Lease>): Attempt
    requires CleaningIn(a, ClosingLease)
  {
    Advance(a, ClosingRejected({}), a.lease.None? || CloseReported(a.lease.value, threw, ended))
  }

  function CleanedRejected(a: Attempt, lease: Lease, threw: bool, ended: set<Lease>): Attempt
    requires a.cleanup.InFlight? && a.cleanup.phase.ClosingRejected?
  {
    var tried := a.cleanup.phase.tried;
    if CloseReported(lease, threw, ended) then a.(rejected := a.rejected - {lease})
    else Advance(a, ClosingRejected(tried + {lease}), false)
  }

  function CleanedNative(a: Attempt, timedOut: bool): Attempt
    requires CleaningIn(a, AwaitingNative)
  {
    Advance(a, ClosingSession, a.native == NotStarted || !timedOut)
  }

  function CleanedSession(a: Attempt, ok: bool): Attempt
    requires CleaningIn(a, ClosingSession)
  {
    if !(a.started && a.invoked) then Advance(a, Finishing, true)
    else if ok then Advance(a, PollingSession, true)
    else Advance(a, Finishing, false)
  }

  function Polled(a: Attempt, poll: Poll): Attempt
    requires CleaningIn(a, PollingSession)
  {
    match poll
    case Inactive => Advance(a, Finishing, true).(seenInactive := true)
    case StillClosing => a
    case Unexpected => Advance(a, Finishing, false)
    case PollFailed => Advance(a, Finishing, false)
  }

  function Finished(a: Attempt): Attempt
    requires CleaningIn(a, Finishing)
  {
    a.(cleanupVerified := a.cleanup.clean && a.rejected == {}, cleanup := Settled(a.cleanup.run))
  }

  // ----- the book -----

  predicate UncleanPrevious(b: Book, root: string, current: Option<nat>) {
    exists j | 0 <= j < |b.history| ::
      current != Some(j) && b.history[j].root == root && !b.history[j].cleanupVerified
  }

  predicate LeaseGone(b: Book, a: Attempt) {
    a.lease.Some? && a.lease.value in b.ended
  }

  predicate Registered(b: Book, i: nat)
    requires i < |b.history|
  {
    b.history[i].root in b.attempts && b.attempts[b.history[i].root] == i
  }

  predicate IsCurrent(b: Book, i: nat)
    requires i < |b.history|
  {
    var a := b.history[i];
    !b.closed && Registered(b, i) && !a.aborted && !LeaseGone(b, a)
    && !UncleanPrevious(b, a.root, Some(i)) && (a.state == Pending || a.state == Authorized)
  }

  /** assertActive does not throw. */
  predicate AssertsActive(b: Book, i: nat)
    requires i < |b.history|
  {
    var a := b.history[i];
    !b.closed && Registered(b, i) && a.state == Authorized && !a.aborted && !LeaseGone(b, a)
    && !UncleanPrevious(b, a.root, Some(i))
  }

  function Put(b: Book, i: nat, a: Attempt): Book
    requires i < |b.history|
  {
    b.(history := b.history[i := a])
  }

  /** authorize() makes a new attempt only when no attempt on the root is live or unclean. */
  predicate MayAuthorize(b: Book, root: string) {
    !b.closed
    && (root in b.attempts && b.attempts[root] < |b.history| ==>
          var a := b.history[b.attempts[root]];
          a.state != Pending && a.state != Authorized && a.cleanupVerified)
    && !UncleanPrevious(b, root, if root in b.attempts then Some(b.attempts[root]) else None)
  }

  function Requested(b: Book, root: string): Book {
    if !MayAuthorize(b, root) then b
    else b.(attempts := b.attempts[root := |b.history|], history := b.history + [NewAttempt(root)])
  }

  /** The host settled the authorization request of attempt `i`. */
  function HostSettled(b: Book, i: nat, outcome: HostOutcome): Book
    requires i < |b.history|
  {
    var a := b.history[i].(authorizing := false);
    if outcome == HostAuthorized && a.verified && IsCurrent(b, i)
    then Put(b, i, a.(state := Authorized))
    else Put(b, i, Invalidated(a))
  }

  /** The attach callback: `usable` says the lease has a close function and a signal. */
  function Attached(b: Book, i: nat, lease: Option<Lease>, usable: bool, validConnection: bool): Book
    requires i < |b.history|
  {
    var a := b.history[i];
    if a.attempted || !IsCurrent(b, i) then
      if lease.Some? && lease != a.lease then Put(b, i, LeaseRejected(a, lease.value)) else b
    else
      var a := a.(attempted := true);
      if lease.None? then Put(b, i, a)
      else if !usable || lease.value in b.ended then Put(b, i, LeaseRejected(a, lease.value))
      else
        var a := a.(lease := lease, listening := true);
        Put(b, i, if validConnection then a.(stage := Resolving) else Invalidated(a.(stage := Over)))
  }

  function Resolved(b: Book, i: nat, ok: bool): Book
    requires i < |b.history|
  {
    var a := b.history[i].(invoked := b.history[i].invoked || ok);
    if ok && IsCurrent(b, i) then Put(b, i, a.(started := true, native := Running, stage := Opening))
    else Put(b, i, Invalidated(a.(stage := Over)))
  }

  function Opened(b: Book, i: nat, ok: bool): Book
    requires i < |b.history|
  {
    var a := b.history[i];
    Put(b, i, if ok then a.(stage := Observing) else Invalidated(a.(stage := Over)))
  }

  function Observed(b: Book, i: nat, ok: bool): Book
    requires i < |b.history|
  {
    var a := b.history[i].(stage := Over);
    Put(b, i, if ok && IsCurrent(b, i) then a.(verified := true) else Invalidated(a))
  }

  /** #rejectLease after its retry: an uncleaned old attempt takes the current one down. */
  function Quarantined(b: Book, i: nat): Book
    requires i < |b.history| && b.history[i].quarantining > 0
  {
    var a := b.history[i];
    var c := Put(b, i, a.(quarantining := a.quarantining - 1));
    if !a.cleanupVerified && a.root in b.attempts && b.attempts[a.root] < |b.history| && b.attempts[a.root] != i
    then Put(c, b.attempts[a.root], Invalidated(c.history[b.attempts[a.root]]))
    else c
  }

  function EndLease(b: Book, lease: Lease): Book {
    b.(ended := b.ended + {lease},
       history := seq(|b.history|, i requires 0 <= i < |b.history| => LeaseEnded(b.history[i], lease)))
  }

  function RevokeRoot(b: Book, root: string): Book {
    b.(history := seq(|b.history|, i requires 0 <= i < |b.history| =>
         if b.history[i].root == root then Stopped(b.history[i], Revoked) else b.history[i]))
  }

  function CloseAll(b: Book): Book {
    b.(closed := true,
       history := seq(|b.history|, i requires 0 <= i < |b.history| => Stopped(b.history[i], Blocked)))
  }

  /** BrowserAttachments: its fields, updated in place by each synchronous stretch of code. */
  class BrowserAttachments {
    var attempts: map<string, nat>
    var history: seq<Attempt>
    var closed: bool
    var ended: set<Lease>

    function View(): Book
      reads this
    {
      Book(attempts, history, closed, ended)
    }

    constructor ()
      ensures View() == Book(map[], [], false, {})
    {
      attempts, history, closed, ended := map[], [], false, {};
    }

    method Authorize(root: string) returns (created: bool)
      modifies this`attempts, this`history
      ensures created == MayAuthorize(old(View()), root)
      ensures View() == Requested(old(View()), root)
    {
      created := false;
      if closed {
        return;
      }
      var previous := if root in attempts then Some(attempts[root]) else None;
      if previous.Some? && previous.value < |history| {
        var a := history[previous.value];
        if a.state == Pending || a.state == Authorized || !a.cleanupVerified {
          return;
        }
      }
      var unclean := HasUnclean(root, previous);
      if unclean {
        return;
      }
      attempts := attempts[root := |history|];
      history := history + [NewAttempt(root)];
      created := true;
    }

    /** #uncleanPrevious, as the scan of the history it is. */
    method HasUnclean(root: string, current: Option<nat>) returns (unclean: bool)
      ensures unclean == UncleanPrevious(View(), root, current)
    {
      for j := 0 to |history|
        invariant forall k | 0 <= k < j ::
            !(current != Some(k) && history[k].root == root && !history[k].cleanupVerified)
      {
        if current != Some(j) && history[j].root == root && !history[j].cleanupVerified {
          return true;
        }
      }
      return false;
    }

    method Invalidate(i: nat)
      requires i < |history|
      modifies this`history
      ensures View() == Put(old(View()), i, Invalidated(old(View()).history[i]))
    {
      var a := history[i];
      if a.state != Revoked {
        a := a.(state := Blocked);
      }
      history := history[i := a.(aborted := true)];
      BeginCleanup(i);
    }

    method BeginCleanup(i: nat)
      requires i < |history|
      modifies this`history
      ensures View() == Put(old(View()), i, StartCleanup(old(View()).history[i]))
    {
      var a := history[i];
      if a.cleanup == Absent {
        a := a.(listening := false);
        a := a.(cleanup := InFlight(a.runs, ClosingLease, true), runs := a.runs + 1);
        history := history[i := a];
      }
    }

    method RetryCleanup(i: nat)
      requires i < |history|
      modifies this`history
      ensures View() == Put(old(View()), i, RetryStarted(old(View()).history[i]))
    {
      var a := history[i];
      if a.cleanup != Absent && !a.cleanupVerified {
        history := history[i := a.(retrying := a.retrying + {a.cleanup.run})];
      } else {
        BeginCleanup(i);
      }
    }

    method ResumeRetry(i: nat, run: nat)
      requires i < |history|
      modifies this`history
      ensures View() == Put(old(View()), i, RetryResumed(old(View()).history[i], run))
    {
      var a := history[i].(retrying := history[i].retrying - {run});
      if !a.cleanupVerified && a.cleanup != Absent && a.cleanup.run == run {
        a := a.(cleanup := Absent);
      }
      history := history[i := a];
      BeginCleanup(i);
    }

    method RejectLease(i: nat, lease: Lease)
      requires i < |history|
      modifies this`history
      ensures View() == Put(old(View()), i, LeaseRejected(old(View()).history[i], lease))
    {
      var a := history[i];
      var state := if a.state == Revoked then Revoked else Blocked;
      history := history[i := a.(rejected := a.rejected + {lease}, everRejected := a.everRejected + {lease},
                                 quarantining := a.quarantining + 1, cleanupVerified := false,
                                 state := state, aborted := true)];
      RetryCleanup(i);
    }

    method Attach(i: nat, lease: Option<Lease>, usable: bool, validConnection: bool)
      requires i < |history|
      modifies this`history
      ensures View() == Attached(old(View()), i, lease, usable, validConnection)
    {
      var a := history[i];
      if a.attempted || !IsCurrent(View(), i) {
        if lease.Some? && lease != a.lease {
          RejectLease(i, lease.value);
        }
        return;
      }
      history := history[i := a.(attempted := true)];
      if lease.None? {
        return;
      }
      if !usable || lease.value in ended {
        RejectLease(i, lease.value);
        return;
      }
      var stage := if validConnection then Resolving else Over;
      history := history[i := history[i].(lease := lease, listening := true)];
      if validConnection {
        history := history[i := history[i].(stage := Resolving)];
      } else {
        history := history[i := history[i].(stage := Over)];
        Invalidate(i);
      }
    }

    method SettleHost(i: nat, outcome: HostOutcome)
      requires i < |history|
      modifies this`history
      ensures View() == HostSettled(old(View()), i, outcome)
    {
      var active := IsCurrent(View(), i);
      history := history[i := history[i].(authorizing := false)];
      if outcome == HostAuthorized && history[i].verified && active {
        history := history[i := history[i].(state := Authorized)];
      } else {
        Invalidate(i);
      }
    }

    /** #attach, resumed with the invocation: the native operation starts only while current. */
    method ResolveInvocation(i: nat, ok: bool)
      requires i < |history|
      modifies this`history
      ensures View() == Resolved(old(View()), i, ok)
    {
      var active := ok && IsCurrent(View(), i);
      if ok {
        history := history[i := history[i].(invoked := true)];
      }
      if active {
        history := history[i := history[i].(started := true)];
        history := history[i := history[i].(native := Running, stage := Opening)];
      } else {
        history := history[i := history[i].(stage := Over)];
        Invalidate(i);
      }
    }

    /** #attach, resumed with the observation of the browser. */
    method FinishObservation(i: nat, ok: bool)
      requires i < |history|
      modifies this`history
      ensures View() == Observed(old(View()), i, ok)
    {
      var active := IsCurrent(View(), i);
      history := history[i := history[i].(stage := Over)];
      if ok && active {
        history := history[i := history[i].(verified := true)];
      } else {
        Invalidate(i);
      }
    }

    /** #rejectLease, resumed after its retry of the cleanup. */
    method Quarantine(i: nat)
      requires i < |history| && history[i].quarantining > 0
      modifies this`history
      ensures View() == Quarantined(old(View()), i)
    {
      var a := history[i];
      history := history[i := a.(quarantining := a.quarantining - 1)];
      if !a.cleanupVerified && a.root in attempts {
        var current := attempts[a.root];
        if current < |history| && current != i {
          Invalidate(current);
        }
      }
    }

    method Revoke(root: string)
      modifies this`history
      ensures View() == RevokeRoot(old(View()), root)
    {
      ghost var before := history;
      for i := 0 to |history|
        invariant |history| == |before|
        invariant forall j | 0 <= j < |history| ::
            history[j] == (if j < i && before[j].root == root then Stopped(before[j], Revoked) else before[j])
      {
        if history[i].root == root {
          history := history[i := history[i].(state := Revoked, aborted := true)];
          RetryCleanup(i);
        }
      }
    }

    method Close()
      modifies this`history, this`closed
      ensures View() == CloseAll(old(View()))
    {
      closed := true;
      ghost var before := history;
      for i := 0 to |history|
        invariant closed && |history| == |before|
        invariant forall j | 0 <= j < |history| ::
            history[j] == (if j < i then Stopped(before[j], Blocked) else before[j])
      {
        history := history[i := history[i].(state := Blocked, aborted := true)];
        RetryCleanup(i);
      }
    }

    /** The end of a cleanup run: it is verified only when nothing was left over. */
    method FinishCleanup(i: nat) returns (verified: bool)
      requires i < |history| && CleaningIn(history[i], Finishing)
      modifies this`history
      ensures View() == Put(old(View()), i, Finished(old(View()).history[i]))
      ensures verified == history[i].cleanupVerified
    {
      var a := history[i];
      verified := a.cleanup.clean && a.rejected == {};
      history := history[i := a.(cleanupVerified := verified, cleanup := Settled(a.cleanup.run))];
    }
  }
}
