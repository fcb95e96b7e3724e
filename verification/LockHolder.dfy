/**
  The state a holder keeps for its lock, and the heartbeat that guards it.
  The heartbeat is asynchronous: a stat, a utimes and a second stat, each
  followed by the code up to the next await. The functions give that code; the
  class updates the fields in place and is proved to follow them.
 */
module LockHolder {
  import opened Wrappers
  import opened LockFiles

  const MINIMUM_UPDATE_MS := 1000

  datatype Status = Active | Compromised | Released

  /** `alarms` counts the calls of onCompromised; `timer` is the delay it was armed with. */
  datatype Holder = Holder(
    identity: nat, staleMs: int, updateMs: int, wholeSeconds: bool,
    status: Status, mtime: int, lastUpdateMs: int,
    delayMs: Option<int>, timer: Option<int>, alarms: nat)

  /** Where a heartbeat is: each state but Quiet awaits the reply to one call. */
  datatype Pulse = Quiet | Reading | Writing(written: int) | Rereading(written: int)

  datatype Beat = Beat(holder: Holder, pulse: Pulse)

  function Schedule(h: Holder): Holder {
    if h.status != Active || h.timer.Some? then h
    else h.(timer := Some(h.delayMs.GetOr(h.updateMs)))
  }

  function Compromise(h: Holder): Holder {
    if h.status != Active then h
    else h.(status := Compromised, timer := None, alarms := h.alarms + 1)
  }

  function Release(h: Holder): Holder {
    h.(status := Released, timer := None)
  }

  predicate Overdue(h: Holder, now: int) {
    h.lastUpdateMs + h.staleMs < now
  }

  function CeilSecond(t: int): int {
    if t % 1000 == 0 then t else t - t % 1000 + 1000
  }

  function CurrentMtime(wholeSeconds: bool, now: int): int {
    if wholeSeconds then CeilSecond(now) else now
  }

  predicate Matches(h: Holder, dir: Dir, mtime: int) {
    dir.identity == h.identity && dir.mtime == mtime
  }

  /** The shared tail of the three error handlers of a heartbeat. */
  function CallFailed(h: Holder, outcome: Outcome, now: int): Holder {
    if outcome == NotFound || Overdue(h, now) then Compromise(h)
    else Schedule(h.(delayMs := Some(MINIMUM_UPDATE_MS)))
  }

  /** The timer callback: it starts a heartbeat when the lock is still active. */
  function TimerFires(h: Holder): Beat {
    Beat(h.(timer := None), if h.status == Active then Reading else Quiet)
  }

  /** The code that runs when the awaited call of a heartbeat has settled. */
  function Replied(h: Holder, pulse: Pulse, outcome: Outcome, now: int): Beat {
    if h.status != Active then Beat(h, Quiet)
    else match pulse
      case Quiet => Beat(h, Quiet)
      case Reading =>
        if !outcome.Seen? then Beat(CallFailed(h, outcome, now), Quiet)
        else if !Matches(h, outcome.dir, h.mtime) then Beat(Compromise(h), Quiet)
        else Beat(h, Writing(CurrentMtime(h.wholeSeconds, now)))
      case Writing(written) =>
        if outcome != Done then Beat(CallFailed(h, outcome, now), Quiet)
        else Beat(h, Rereading(written))
      case Rereading(written) =>
        if !outcome.Seen? then Beat(CallFailed(h.(mtime := written), outcome, now), Quiet)
        else if !Matches(h, outcome.dir, written) then Beat(Compromise(h), Quiet)
        else Beat(Schedule(h.(mtime := written, lastUpdateMs := now, delayMs := None)), Quiet)
  }

  /** A fresh holder, as initializeLockState and the first scheduleHeartbeat leave it. */
  function Acquired(identity: nat, staleMs: int, updateMs: int, stats: Dir, now: int): Holder {
    Schedule(Holder(identity, staleMs, updateMs, stats.mtime % 1000 == 0,
                    Active, stats.mtime, now, None, None, 0))
  }

  /**
    What every holder keeps: a timer only while active, the compromise callback
    at most once and exactly when the lock was lost, and while the lock is
    active there is always either an armed timer or a heartbeat under way.
   */
  ghost predicate HolderOk(h: Holder, pulse: Pulse) {
    && (h.timer.Some? ==> h.status == Active && pulse == Quiet)
    && h.alarms <= 1
    && (h.status == Active ==> h.alarms == 0 && (pulse == Quiet ==> h.timer.Some?))
    && (h.status == Compromised ==> h.alarms == 1)
  }

  /** The fields a holder never writes after it was created. */
  ghost predicate SameLock(h: Holder, k: Holder) {
    h.identity == k.identity && h.staleMs == k.staleMs
    && h.updateMs == k.updateMs && h.wholeSeconds == k.wholeSeconds
  }

  lemma RepliedKeepsHolder(h: Holder, pulse: Pulse, outcome: Outcome, now: int)
    requires HolderOk(h, pulse) && pulse != Quiet
    ensures var b := Replied(h, pulse, outcome, now); HolderOk(b.holder, b.pulse)
    ensures SameLock(h, Replied(h, pulse, outcome, now).holder)
    // Losing the lock is final.
    ensures h.status != Active ==> Replied(h, pulse, outcome, now) == Beat(h, Quiet)
  {
  }

  /**
    A heartbeat refreshes lastUpdateMs exactly when its second stat saw the
    holder's own directory carrying the time it had just written.
   */
  lemma RefreshNeedsConfirmation(h: Holder, pulse: Pulse, outcome: Outcome, now: int)
    requires h.status == Active
    ensures var k := Replied(h, pulse, outcome, now).holder;
            var confirmed := pulse.Rereading? && outcome.Seen?
                             && outcome.dir == Dir(h.identity, pulse.written);
            if confirmed
            then k.status == Active && k.lastUpdateMs == now && k.mtime == pulse.written
            else k.lastUpdateMs == h.lastUpdateMs
  {
  }

  /**
    When a heartbeat ends, the lock survives exactly when the second stat
    confirmed it, or a call failed for a reason other than a missing directory
    while the last confirmation is still recent enough.
   */
  lemma HeartbeatVerdict(h: Holder, pulse: Pulse, outcome: Outcome, now: int)
    requires HolderOk(h, pulse) && h.status == Active && pulse != Quiet
    ensures var b := Replied(h, pulse, outcome, now);
            var expected := if pulse.Reading? then h.mtime else pulse.written;
            var answered := if pulse.Writing? then outcome == Done else outcome.Seen?;
            var matched := pulse.Writing? || (outcome.Seen? && outcome.dir == Dir(h.identity, expected));
            && (b.holder.status == Active <==>
                  (answered && matched) || (!answered && outcome != NotFound && now <= h.lastUpdateMs + h.staleMs))
            && (b.holder.status != Active ==> b.holder.status == Compromised && b.holder.alarms == 1 && b.holder.timer == None)
            && (b.pulse == Quiet && b.holder.status == Active ==>
                  b.holder.timer == Some(if answered then h.updateMs else 1000))
  {
  }

  /**
    On a millisecond file system and on one that keeps whole seconds alike, the
    time a holder writes is stored as written, so a confirming stat of an
    untouched directory always agrees.
   */
  lemma WrittenTimeIsStored(diskSeconds: bool, probe: int, now: int)
    requires probe % 1000 == 5
    ensures var seconds := Stored(diskSeconds, probe) % 1000 == 0;
            var written := CurrentMtime(seconds, now);
            seconds == diskSeconds && Stored(diskSeconds, written) == written && now <= written < now + 1000
  {
    CeilSecondWhole(now);
  }

  lemma CeilSecondWhole(t: int)
    ensures CeilSecond(t) % 1000 == 0 && t <= CeilSecond(t) < t + 1000
  {
  }

  /** LockState: the fields of a held lock, updated in place by its heartbeat. */
  class LockState {
    const identity: nat
    const staleMs: int
    const updateMs: int
    const wholeSeconds: bool
    var status: Status
    var mtime: int
    var lastUpdateMs: int
    var updateDelayMs: Option<int>
    var updateTimer: Option<int>
    var alarms: nat

    function View(): Holder
      reads this
    {
      Holder(identity, staleMs, updateMs, wholeSeconds, status, mtime, lastUpdateMs,
             updateDelayMs, updateTimer, alarms)
    }

    constructor (identity: nat, staleMs: int, updateMs: int, stats: Dir, now: int)
      ensures View() == Acquired(identity, staleMs, updateMs, stats, now)
      ensures HolderOk(View(), Quiet)
    {
      this.identity, this.staleMs, this.updateMs := identity, staleMs, updateMs;
      this.wholeSeconds := stats.mtime % 1000 == 0;
      status, mtime, lastUpdateMs := Active, stats.mtime, now;
      updateDelayMs, updateTimer, alarms := None, None, 0;
      new;
      ScheduleHeartbeat();
    }

    method ScheduleHeartbeat()
      modifies this`updateTimer
      ensures View() == Schedule(old(View()))
    {
      if status != Active || updateTimer.Some? {
        return;
      }
      updateTimer := Some(updateDelayMs.GetOr(updateMs));
    }

    method ClearHeartbeat()
      modifies this`updateTimer
      ensures View() == old(View()).(timer := None)
    {
      updateTimer := None;
    }

    method CompromiseLock()
      modifies this
      ensures View() == Compromise(old(View()))
    {
      if status != Active {
        return;
      }
      status := Compromised;
      ClearHeartbeat();
      alarms := alarms + 1;
    }

    method FireTimer() returns (pulse: Pulse)
      requires HolderOk(View(), Quiet) && updateTimer.Some?
      modifies this`updateTimer
      ensures Beat(View(), pulse) == TimerFires(old(View()))
      ensures HolderOk(View(), pulse)
    {
      updateTimer := None;
      pulse := if status == Active then Reading else Quiet;
    }

    method FailHeartbeat(outcome: Outcome, now: int)
      modifies this
      ensures View() == CallFailed(old(View()), outcome, now)
    {
      if outcome == NotFound || lastUpdateMs + staleMs < now {
        CompromiseLock();
      } else {
        updateDelayMs := Some(MINIMUM_UPDATE_MS);
        ScheduleHeartbeat();
      }
    }

    /** updateHeartbeat, resumed with the outcome of the call it awaited. */
    method UpdateHeartbeat(pulse: Pulse, outcome: Outcome, now: int) returns (next: Pulse)
      requires HolderOk(View(), pulse) && pulse != Quiet
      modifies this
      ensures Beat(View(), next) == Replied(old(View()), pulse, outcome, now)
      ensures HolderOk(View(), next)
    {
      ghost var before := View();
      RepliedKeepsHolder(before, pulse, outcome, now);
      next := Quiet;
      if status != Active {
        return;
      }
      match pulse {
        case Reading =>
          if !outcome.Seen? {
            FailHeartbeat(outcome, now);
          } else if outcome.dir.identity != identity || outcome.dir.mtime != mtime {
            CompromiseLock();
          } else {
            next := Writing(CurrentMtime(wholeSeconds, now));
          }
        case Writing(written) =>
          if outcome != Done {
            FailHeartbeat(outcome, now);
          } else {
            next := Rereading(written);
          }
        case Rereading(written) =>
          if !outcome.Seen? {
            mtime := written;
            FailHeartbeat(outcome, now);
          } else if outcome.dir.identity != identity || outcome.dir.mtime != written {
            CompromiseLock();
          } else {
            mtime, lastUpdateMs, updateDelayMs := written, now, None;
            ScheduleHeartbeat();
          }
      }
    }

    /** The synchronous part of release(); `owned` says whether the directory is to be removed. */
    method ReleaseLock() returns (owned: bool)
      requires HolderOk(View(), Quiet) || updateTimer.None?
      modifies this
      ensures View() == Release(old(View()))
      ensures owned == (old(status) == Active)
    {
      owned := status == Active;
      status := Released;
      ClearHeartbeat();
    }
  }
}
