/**
  What an agent that runs undisturbed achieves, whatever state others have left the
  lock path in: which attempts acquire the lock, which sleep or give up, what a
  failing call leaves behind, and what a release does to the directory. And, over all
  runs, how often a contender tries.
 */
module LockProgress {
  import opened Wrappers
  import opened LockFiles
  import opened LockHolder
  import opened LockProtocol
  import opened LockSafety

  // ----- how often a contender tries -----

  /** How often `p` has woken up to try again. */
  function Wakes(ls: seq<Label>, p: nat): nat {
    if ls == [] then 0 else (if ls[0] == Wake(p) then 1 else 0) + Wakes(ls[1..], p)
  }

  /** How often the agent may still wake up. */
  function WakesLeft(a: Agent): nat {
    a.retries + (if a.main == Sleeping then 1 else 0)
  }

  predicate NoneLeft(a: Agent) {
    a.main == Failed ==> a.retries == 0
  }

  lemma ResumeCounts(a: Agent, now: int, claim: nat)
    requires a.reply.Some? && CallOf(a.main).Some?
    ensures WakesLeft(Resumed(a, now, claim)) == WakesLeft(a) && NoneLeft(Resumed(a, now, claim))
  {
  }

  lemma StepCounts(s: Sys, l: Label, p: nat)
    requires Sound(s) && Enabled(s, l) && p in s.agents && NoneLeft(s.agents[p])
    ensures p in Next(s, l).agents && NoneLeft(Next(s, l).agents[p])
    ensures WakesLeft(s.agents[p]) == WakesLeft(Next(s, l).agents[p]) + (if l == Wake(p) then 1 else 0)
  {
    if !l.Tick? && l.agent == p {
      assert AgentSound(s.agents[p], s.disk, s.nextClaim);
      if l.MainResume? { ResumeCounts(s.agents[p], s.now, s.nextClaim); }
    }
  }

  lemma {:induction false} RunCounts(s: Sys, ls: seq<Label>, p: nat)
    requires Sound(s) && Possible(s, ls) && p in s.agents && NoneLeft(s.agents[p])
    ensures p in Run(s, ls).agents && NoneLeft(Run(s, ls).agents[p])
    ensures WakesLeft(s.agents[p]) == WakesLeft(Run(s, ls).agents[p]) + Wakes(ls, p)
    decreases |ls|
  {
    if ls != [] {
      SoundStep(s, ls[0]);
      StepCounts(s, ls[0], p);
      RunCounts(Next(s, ls[0]), ls[1..], p);
    }
  }

  /**
    In every run a contender wakes up at most as often as it may retry, has not yet done so while
    it sleeps, and has given up only once it has done so.
   */
  lemma GivesUpAfterRetries(s: Sys, ls: seq<Label>, p: nat)
    requires Initial(s) && Possible(s, ls) && p in s.agents
    ensures p in Run(s, ls).agents && Wakes(ls, p) <= s.agents[p].retries
    ensures Wakes(ls, p) + WakesLeft(Run(s, ls).agents[p]) == s.agents[p].retries
    ensures Run(s, ls).agents[p].main == Sleeping ==> Wakes(ls, p) < s.agents[p].retries
    ensures Run(s, ls).agents[p].main == Failed ==> Wakes(ls, p) == s.agents[p].retries
  {
    InitialIsSound(s);
    RunCounts(s, ls, p);
  }

  // ----- steps of one agent alone -----

  ghost predicate Alone(ls: seq<Label>, p: nat) {
    forall l <- ls :: l == Wake(p) || l == MainResume(p) || (l.MainCall? && l.agent == p) || l == ReleaseLock(p) || l == Drain(p)
  }

  /** Reachable by steps of `p` alone. */
  ghost predicate Course(s: Sys, ls: seq<Label>, p: nat) {
    Possible(s, ls) && Alone(ls, p)
  }

  lemma {:induction false} Append(s: Sys, ls: seq<Label>, l: Label)
    requires Possible(s, ls) && Enabled(Run(s, ls), l)
    ensures Possible(s, ls + [l]) && Run(s, ls + [l]) == Next(Run(s, ls), l)
    decreases |ls|
  {
    var more := ls + [l];
    if ls != [] {
      assert more[0] == ls[0] && more[1..] == ls[1..] + [l];
      Append(Next(s, ls[0]), ls[1..], l);
    }
  }

  /** The agent makes its next call and takes the reply. */
  lemma Turn(s0: Sys, ls: seq<Label>, p: nat, fault: Fault) returns (more: seq<Label>)
    requires Course(s0, ls, p) && Enabled(Run(s0, ls), MainCall(p, fault))
    ensures Course(s0, more, p)
    ensures var s, t := Run(s0, ls), Run(s0, more);
            var a := s.agents[p];
            var e := Perform(s.disk, CallOf(a.main).value, s.now, fault);
            && t.disk == e.disk && t.now == s.now && t.nextClaim == s.nextClaim + 2
            && t.agents == s.agents[p := Resumed(a.(reply := Some(e.outcome)), s.now, s.nextClaim + 1)]
  {
    var s := Run(s0, ls);
    Append(s0, ls, MainCall(p, fault));
    more := ls + [MainCall(p, fault)];
    var m := Run(s0, more);
    assert m.agents[p] == s.agents[p].(reply := m.agents[p].reply);
    Append(s0, more, MainResume(p));
    more := more + [MainResume(p)];
    assert Run(s0, more).agents == s.agents[p := Resumed(m.agents[p], s.now, m.nextClaim)];
  }

  /** Waiting for a reply to nothing, with the means to acquire. */
  predicate Contends(s: Sys, p: nat) {
    p in s.agents && s.agents[p].reply.None? && s.agents[p].holder.None?
    && s.agents[p].pulse == Quiet && s.agents[p].pulseReply.None?
  }

  /** Only `p` has moved, and with it the lock path alone. */
  predicate OnlyAgent(s: Sys, t: Sys, p: nat) {
    && p in s.agents && p in t.agents && t.agents == s.agents[p := t.agents[p]]
    && t.now == s.now && t.disk.claims == s.disk.claims && t.disk.wholeSeconds == s.disk.wholeSeconds
    && Settings(t.agents[p]) == Settings(s.agents[p])
  }

  function Settings(a: Agent): (int, int, bool) {
    (a.staleMs, a.updateMs, a.preserve)
  }

  /** Its heartbeat is armed, and the time it wrote has told it what times the file system keeps. */
  predicate IsNewHolder(h: Holder, wholeSeconds: bool, now: int) {
    && h.status == Active && h.lastUpdateMs == now && h.timer == Some(h.updateMs) && h.alarms == 0
    && h.wholeSeconds == wholeSeconds
    && (if wholeSeconds then h.mtime % 1000 == 0 && now <= h.mtime < now + 1000
        else h.mtime % 1000 == 5 && now + 5 <= h.mtime < now + 1005)
  }

  lemma ProbedHolder(identity: nat, staleMs: int, updateMs: int, wholeSeconds: bool, now: int)
    ensures var dir := Dir(identity, Stored(wholeSeconds, ProbeTime(now)));
            var h := Acquired(identity, staleMs, updateMs, dir, now);
            && IsNewHolder(h, wholeSeconds, now) && h.identity == identity && h.mtime == dir.mtime
            && h.staleMs == staleMs && h.updateMs == updateMs
  {
    CeilSecondWhole(now);
  }

  /** The agent has just become the holder of the directory it made, with its heartbeat due. */
  predicate HoldsNew(s: Sys, t: Sys, p: nat) {
    && p in t.agents && t.agents[p].main == Holding && t.agents[p].holder.Some?
    && var h := t.agents[p].holder.value;
    && IsNewHolder(h, t.disk.wholeSeconds, t.now)
    && h.staleMs == t.agents[p].staleMs && h.updateMs == t.agents[p].updateMs
    && t.disk.lock == Some(Dir(h.identity, h.mtime))
    && s.disk.nextIdentity <= h.identity < t.disk.nextIdentity
  }

  /** The attempt is over: the agent sleeps with one retry less, or has given up. */
  predicate AttemptOver(s: Sys, t: Sys, p: nat) {
    && p in s.agents && p in t.agents && t.agents[p].holder.None? && t.agents[p].reply.None?
    && (if s.agents[p].retries > 0
        then t.agents[p].main == Sleeping && t.agents[p].retries == s.agents[p].retries - 1
        else t.agents[p].main == Failed && t.agents[p].retries == 0)
  }

  // ----- acquiring -----

  /** mkdir on a free lock path, and the first look at the directory. */
  lemma Makes(s0: Sys, ls: seq<Label>, p: nat) returns (more: seq<Label>)
    requires Course(s0, ls, p) && Contends(Run(s0, ls), p) && Run(s0, ls).disk.lock.None?
    requires Run(s0, ls).agents[p].main == Creating || Run(s0, ls).agents[p].main == Recreating
    ensures Course(s0, more, p)
    ensures var s, t := Run(s0, ls), Run(s0, more);
            var made := Dir(s.disk.nextIdentity, Stored(s.disk.wholeSeconds, s.now));
            && t.disk == s.disk.(lock := Some(made), nextIdentity := s.disk.nextIdentity + 1) && t.now == s.now
            && t.agents == s.agents[p := s.agents[p].(main := Probing(made.identity, ProbeTime(s.now)))]
  {
    more := Turn(s0, ls, p, NoFault);
    assert Run(s0, more).agents[p].main == Identifying;
    more := Turn(s0, more, p, NoFault);
  }

  /** The probe and the look that completes the acquisition. */
  lemma Initializes(s0: Sys, ls: seq<Label>, p: nat) returns (more: seq<Label>)
    requires Course(s0, ls, p) && Contends(Run(s0, ls), p)
    requires var s := Run(s0, ls); s.agents[p].main.Probing? && AtLock(s.disk, s.agents[p].main.identity)
    ensures Course(s0, more, p)
    ensures var s, t := Run(s0, ls), Run(s0, more);
            var m := s.agents[p].main;
            var dir := Dir(m.identity, Stored(s.disk.wholeSeconds, m.probe));
            && t.disk == s.disk.(lock := Some(dir)) && t.now == s.now
            && t.agents == s.agents[p := s.agents[p].(main := Holding,
                 holder := Some(Acquired(m.identity, s.agents[p].staleMs, s.agents[p].updateMs, dir, s.now)))]
  {
    var m := Run(s0, ls).agents[p].main;
    more := Turn(s0, ls, p, NoFault);
    assert Run(s0, more).agents[p].main == Confirming(m.identity);
    more := Turn(s0, more, p, NoFault);
  }

  /** From mkdir on a free lock path to the held lock. */
  lemma MakesAndHolds(s0: Sys, ls: seq<Label>, p: nat) returns (more: seq<Label>)
    requires Course(s0, ls, p) && Contends(Run(s0, ls), p) && Run(s0, ls).disk.lock.None?
    requires Run(s0, ls).agents[p].main == Creating || Run(s0, ls).agents[p].main == Recreating
    ensures Course(s0, more, p)
    ensures var s, t := Run(s0, ls), Run(s0, more);
            HoldsNew(s, t, p) && OnlyAgent(s, t, p) && t.agents[p].retries == s.agents[p].retries
  {
    var s := Run(s0, ls);
    ProbedHolder(s.disk.nextIdentity, s.agents[p].staleMs, s.agents[p].updateMs, s.disk.wholeSeconds, s.now);
    more := Makes(s0, ls, p);
    more := Initializes(s0, more, p);
  }

  /** A contender that finds the lock path free at any of its calls acquires the lock in this attempt. */
  lemma FreePathIsAcquired(s: Sys, p: nat) returns (ls: seq<Label>)
    requires Contends(s, p) && s.disk.lock.None?
    requires var m := s.agents[p].main; m == Creating || m == Inspecting || m.Stealing? || m == Recreating
    ensures Course(s, ls, p)
    ensures var t := Run(s, ls);
            HoldsNew(s, t, p) && OnlyAgent(s, t, p) && t.agents[p].retries == s.agents[p].retries
  {
    ls := [];
    if s.agents[p].main == Inspecting || s.agents[p].main.Stealing? {
      ls := Turn(s, ls, p, NoFault);
      assert Run(s, ls).agents[p].main == Recreating;
    }
    ls := MakesAndHolds(s, ls, p);
  }

  /** A contender that meets a directory touched within its threshold ends its attempt and leaves it alone. */
  lemma FreshDirectoryIsLeftAlone(s: Sys, p: nat) returns (ls: seq<Label>)
    requires Contends(s, p) && s.disk.lock.Some?
    requires s.agents[p].main == Creating || s.agents[p].main == Inspecting
    requires s.disk.lock.value.mtime >= s.now - s.agents[p].staleMs
    ensures Course(s, ls, p)
    ensures var t := Run(s, ls);
            AttemptOver(s, t, p) && OnlyAgent(s, t, p) && t.disk == s.disk
  {
    ls := [];
    if s.agents[p].main == Creating {
      ls := Turn(s, ls, p, NoFault);
      assert Run(s, ls).agents[p].main == Inspecting;
    }
    ls := Turn(s, ls, p, NoFault);
  }

  /** After a reclaim, or after the directory had vanished, mkdir is tried once and nothing is reclaimed again. */
  lemma SecondMkdirDoesNotReclaim(s: Sys, p: nat) returns (ls: seq<Label>)
    requires Contends(s, p) && s.disk.lock.Some? && s.agents[p].main == Recreating
    ensures Course(s, ls, p)
    ensures var t := Run(s, ls);
            AttemptOver(s, t, p) && OnlyAgent(s, t, p) && t.disk == s.disk
  {
    ls := Turn(s, [], p, NoFault);
  }

  lemma JudgesStale(s: Sys, p: nat) returns (ls: seq<Label>)
    requires Sound(s) && Contends(s, p) && s.disk.lock.Some?
    requires s.agents[p].main == Creating || s.agents[p].main == Inspecting
    requires s.disk.lock.value.mtime < s.now - s.agents[p].staleMs
    ensures Course(s, ls, p)
    ensures var t := Run(s, ls);
            && t.disk == s.disk && t.now == s.now && p in t.agents && t.agents[p].main.Stealing?
            && t.agents[p].main.claim !in s.disk.claims
            && t.agents == s.agents[p := s.agents[p].(main := Stealing(s.disk.lock.value, t.agents[p].main.claim))]
  {
    ls := [];
    if s.agents[p].main == Creating {
      ls := Turn(s, ls, p, NoFault);
      assert Run(s, ls).agents[p].main == Inspecting;
    }
    ls := Turn(s, ls, p, NoFault);
  }

  /** A stale directory, touched longer ago than the threshold, is removed and the lock acquired in its place. */
  lemma StaleDirectoryIsReplaced(s: Sys, p: nat) returns (ls: seq<Label>)
    requires Sound(s) && Contends(s, p) && s.disk.lock.Some?
    requires s.agents[p].main == Creating || s.agents[p].main == Inspecting
    requires s.disk.lock.value.mtime < s.now - s.agents[p].staleMs
    ensures Course(s, ls, p)
    ensures var t := Run(s, ls);
            && HoldsNew(s, t, p) && OnlyAgent(s, t, p) && t.agents[p].retries == s.agents[p].retries
            && Destroyed(t.disk, s.disk.lock.value.identity)
  {
    ls := RemovesStale(s, p);
    var reclaimed := Run(s, ls);
    ls := MakesAndHolds(s, ls, p);
    NewIsAnother(s, reclaimed, Run(s, ls), p);
  }

  lemma RemovesStale(s: Sys, p: nat) returns (ls: seq<Label>)
    requires Sound(s) && Contends(s, p) && s.disk.lock.Some?
    requires s.agents[p].main == Creating || s.agents[p].main == Inspecting
    requires s.disk.lock.value.mtime < s.now - s.agents[p].staleMs
    ensures Course(s, ls, p)
    ensures Contends(Run(s, ls), p) && Run(s, ls).disk == s.disk.(lock := None) && Run(s, ls).now == s.now
    ensures Run(s, ls).agents == s.agents[p := s.agents[p].(main := Recreating)]
  {
    ls := JudgesStale(s, p);
    ls := ReclaimsStale(s, ls, p);
  }

  lemma NewIsAnother(s: Sys, reclaimed: Sys, t: Sys, p: nat)
    requires Sound(s) && s.disk.lock.Some? && reclaimed.disk == s.disk.(lock := None)
    requires p in s.agents && reclaimed.agents == s.agents[p := s.agents[p].(main := Recreating)] && reclaimed.now == s.now
    requires HoldsNew(reclaimed, t, p) && OnlyAgent(reclaimed, t, p) && t.agents[p].retries == reclaimed.agents[p].retries
    ensures HoldsNew(s, t, p) && OnlyAgent(s, t, p) && t.agents[p].retries == s.agents[p].retries
    ensures Destroyed(t.disk, s.disk.lock.value.identity)
  {
  }

  lemma ReclaimsStale(s0: Sys, ls: seq<Label>, p: nat) returns (more: seq<Label>)
    requires Course(s0, ls, p) && Contends(Run(s0, ls), p)
    requires var s := Run(s0, ls); var m := s.agents[p].main;
             m.Stealing? && s.disk.lock == Some(m.observed) && m.claim !in s.disk.claims
    ensures Course(s0, more, p)
    ensures var s, t := Run(s0, ls), Run(s0, more);
            && t.disk == s.disk.(lock := None) && t.now == s.now
            && t.agents == s.agents[p := s.agents[p].(main := Recreating)]
  {
    var s := Run(s0, ls);
    var m := s.agents[p].main;
    more := MovesAway(s0, ls, p);
    more := Turn(s0, more, p, NoFault);
    assert Run(s0, more).agents[p].main == Discarding(m.observed, m.claim);
    more := Turn(s0, more, p, NoFault);
    assert s.disk.claims[m.claim := m.observed] - {m.claim} == s.disk.claims;
  }

  lemma MovesAway(s0: Sys, ls: seq<Label>, p: nat) returns (more: seq<Label>)
    requires Course(s0, ls, p) && Contends(Run(s0, ls), p)
    requires var s := Run(s0, ls); var m := s.agents[p].main;
             m.Stealing? && s.disk.lock == Some(m.observed) && m.claim !in s.disk.claims
    ensures Course(s0, more, p)
    ensures var s, t := Run(s0, ls), Run(s0, more); var m := s.agents[p].main;
            && t.disk == s.disk.(lock := None, claims := s.disk.claims[m.claim := m.observed]) && t.now == s.now
            && t.agents == s.agents[p := s.agents[p].(main := CheckingClaim(m.observed, m.claim))]
  {
    more := Turn(s0, ls, p, NoFault);
  }

  /** A contender that wakes up tries everything again: it may reclaim a directory that is stale by now. */
  lemma SleeperReplacesStale(s: Sys, p: nat) returns (ls: seq<Label>)
    requires Sound(s) && Contends(s, p) && s.agents[p].main == Sleeping
    requires s.disk.lock.Some? && s.disk.lock.value.mtime < s.now - s.agents[p].staleMs
    ensures Course(s, ls, p)
    ensures var t := Run(s, ls);
            && HoldsNew(s, t, p) && OnlyAgent(s, t, p) && t.agents[p].retries == s.agents[p].retries
            && Destroyed(t.disk, s.disk.lock.value.identity)
  {
    var woken := Next(s, Wake(p));
    SoundStep(s, Wake(p));
    var rest := StaleDirectoryIsReplaced(woken, p);
    ls := [Wake(p)] + rest;
    assert ls[1..] == rest;
    assert woken.agents == s.agents[p := s.agents[p].(main := Creating)];
  }

  // ----- failing calls -----

  /** A failing call before the directory is identified ends the attempt and changes nothing. */
  lemma FailedCallEndsAttempt(s: Sys, p: nat) returns (ls: seq<Label>)
    requires Contends(s, p)
    requires var m := s.agents[p].main;
             m == Creating || m == Recreating || m == Inspecting || m.Stealing? || m == Identifying
    ensures Course(s, ls, p)
    ensures var t := Run(s, ls); AttemptOver(s, t, p) && OnlyAgent(s, t, p) && t.disk == s.disk
  {
    ls := Turn(s, [], p, FailsIo);
  }

  /** A failing call afterwards ends it too, and the directory that was made is removed again. */
  lemma FailedInitializationCleansUp(s: Sys, p: nat) returns (ls: seq<Label>)
    requires Sound(s) && Contends(s, p)
    requires var m := s.agents[p].main; (m.Probing? || m.Confirming?) && AtLock(s.disk, m.identity)
    ensures Course(s, ls, p)
    ensures var t := Run(s, ls);
            AttemptOver(s, t, p) && OnlyAgent(s, t, p) && t.disk == s.disk.(lock := None)
  {
    var identity := s.agents[p].main.identity;
    ls := Turn(s, [], p, FailsIo);
    assert Run(s, ls).agents[p].main == Verifying(identity, InitFailed);
    ls := RemovesOwn(s, ls, p);
  }

  lemma TakesOwn(s0: Sys, ls: seq<Label>, p: nat) returns (more: seq<Label>)
    requires Course(s0, ls, p)
    requires var s := Run(s0, ls);
             && p in s.agents && s.agents[p].reply.None? && s.agents[p].main.Verifying?
             && AtLock(s.disk, s.agents[p].main.identity)
    ensures Course(s0, more, p)
    ensures var s, t := Run(s0, ls), Run(s0, more);
            var m, claim := s.agents[p].main, s.nextClaim + 1;
            && t.disk == s.disk.(lock := None, claims := s.disk.claims[claim := s.disk.lock.value]) && t.now == s.now
            && t.agents == s.agents[p := s.agents[p].(main := Matching(m.identity, claim, m.exit))]
  {
    var m, claim := Run(s0, ls).agents[p].main, Run(s0, ls).nextClaim + 1;
    more := Turn(s0, ls, p, NoFault);
    assert Run(s0, more).agents[p].main == Claiming(m.identity, claim, m.exit);
    more := Turn(s0, more, p, NoFault);
  }

  lemma DiscardsOwn(s0: Sys, ls: seq<Label>, p: nat) returns (more: seq<Label>)
    requires Course(s0, ls, p)
    requires var s := Run(s0, ls);
             && p in s.agents && s.agents[p].reply.None? && s.agents[p].main.Matching?
             && s.agents[p].main.claim in s.disk.claims
             && s.disk.claims[s.agents[p].main.claim].identity == s.agents[p].main.identity
    ensures Course(s0, more, p)
    ensures var s, t := Run(s0, ls), Run(s0, more);
            var m := s.agents[p].main;
            && t.disk == s.disk.(claims := s.disk.claims - {m.claim}) && t.now == s.now
            && t.agents == s.agents[p := RemovalOver(s.agents[p], m.exit)]
  {
    more := RecognizesOwn(s0, ls, p);
    more := Turn(s0, more, p, NoFault);
  }

  lemma RecognizesOwn(s0: Sys, ls: seq<Label>, p: nat) returns (more: seq<Label>)
    requires Course(s0, ls, p)
    requires var s := Run(s0, ls);
             && p in s.agents && s.agents[p].reply.None? && s.agents[p].main.Matching?
             && s.agents[p].main.claim in s.disk.claims
             && s.disk.claims[s.agents[p].main.claim].identity == s.agents[p].main.identity
    ensures Course(s0, more, p)
    ensures var s, t := Run(s0, ls), Run(s0, more);
            var m := s.agents[p].main;
            && t.disk == s.disk && t.now == s.now
            && t.agents == s.agents[p := s.agents[p].(main := Removing(m.identity, m.claim, m.exit))]
  {
    more := Turn(s0, ls, p, NoFault);
  }

  /** The identity still matches: the directory is renamed, recognised and removed. */
  lemma RemovesOwn(s0: Sys, ls: seq<Label>, p: nat) returns (more: seq<Label>)
    requires Course(s0, ls, p)
    requires var s := Run(s0, ls);
             && p in s.agents && s.agents[p].reply.None? && s.agents[p].main.Verifying?
             && AtLock(s.disk, s.agents[p].main.identity) && s.nextClaim + 1 !in s.disk.claims
    ensures Course(s0, more, p)
    ensures var s, t := Run(s0, ls), Run(s0, more);
            && t.disk == s.disk.(lock := None) && t.now == s.now
            && t.agents == s.agents[p := RemovalOver(s.agents[p], s.agents[p].main.exit)]
  {
    var s := Run(s0, ls);
    more := TakesOwn(s0, ls, p);
    more := DiscardsOwn(s0, more, p);
    assert s.disk.claims[s.nextClaim + 1 := s.disk.lock.value] - {s.nextClaim + 1} == s.disk.claims;
  }

  /** restoreClaim on a free lock path: the directory goes back. */
  lemma PutsBack(s0: Sys, ls: seq<Label>, p: nat) returns (more: seq<Label>)
    requires Course(s0, ls, p)
    requires var s := Run(s0, ls);
             && p in s.agents && s.agents[p].reply.None? && s.agents[p].main.Peeking? && s.disk.lock.None?
             && s.agents[p].main.claim in s.disk.claims
    ensures Course(s0, more, p)
    ensures var s, t := Run(s0, ls), Run(s0, more);
            var c := s.agents[p].main.claim;
            && t.agents == s.agents[p := Proceed(s.agents[p], s.agents[p].main.after, false)]
            && t.disk == s.disk.(lock := Some(s.disk.claims[c]), claims := s.disk.claims - {c})
  {
    var c, after := Run(s0, ls).agents[p].main.claim, Run(s0, ls).agents[p].main.after;
    more := Turn(s0, ls, p, NoFault);
    assert Run(s0, more).agents[p].main == Restoring(c, after);
    more := Turn(s0, more, p, NoFault);
  }

  /** restoreClaim on a path that has been taken: nothing is moved. */
  lemma LeavesParked(s0: Sys, ls: seq<Label>, p: nat) returns (more: seq<Label>)
    requires Course(s0, ls, p)
    requires var s := Run(s0, ls);
             p in s.agents && s.agents[p].reply.None? && s.agents[p].main.Peeking? && s.disk.lock.Some?
    ensures Course(s0, more, p)
    ensures var s, t := Run(s0, ls), Run(s0, more);
            && t.agents == s.agents[p := Proceed(s.agents[p], s.agents[p].main.after, false)]
            && t.disk == s.disk
  {
    more := Turn(s0, ls, p, NoFault);
  }

  /**
    A reclaim whose rmdir fails, or that finds another directory than it observed, puts it back and
    ends the attempt; but if the lock path has been taken meanwhile, it leaves both where they are.
   */
  lemma FailedReclaimPutsBack(s: Sys, p: nat, fault: Fault) returns (ls: seq<Label>)
    requires Contends(s, p)
    requires var m := s.agents[p].main;
             && (m.Discarding? || m.CheckingClaim?) && m.claim in s.disk.claims
             && (if m.Discarding? || s.disk.claims[m.claim] == m.observed then fault != NoFault else fault == NoFault)
    ensures Course(s, ls, p)
    ensures var t := Run(s, ls); var c := s.agents[p].main.claim;
            && AttemptOver(s, t, p)
            && (s.disk.lock.None? ==> t.disk == s.disk.(lock := Some(s.disk.claims[c]), claims := s.disk.claims - {c}))
            && (s.disk.lock.Some? ==> t.disk == s.disk)
  {
    ls := Turn(s, [], p, fault);
    assert Run(s, ls).agents[p].main == Peeking(s.agents[p].main.claim, AttemptEnds);
    if s.disk.lock.None? { ls := PutsBack(s, ls, p); } else { ls := LeavesParked(s, ls, p); }
  }

  /** A reclaim whose claim is gone, at either of its last two calls, goes on to create the lock. */
  lemma VanishedClaimIsRecreated(s: Sys, p: nat) returns (ls: seq<Label>)
    requires Contends(s, p) && s.disk.lock.None?
    requires var m := s.agents[p].main; (m.CheckingClaim? || m.Discarding?) && m.claim !in s.disk.claims
    ensures Course(s, ls, p)
    ensures var t := Run(s, ls);
            HoldsNew(s, t, p) && OnlyAgent(s, t, p) && t.agents[p].retries == s.agents[p].retries
  {
    ls := NoticesVanishedClaim(s, p);
    ls := MakesAndHolds(s, ls, p);
  }

  lemma NoticesVanishedClaim(s: Sys, p: nat) returns (ls: seq<Label>)
    requires Contends(s, p) && s.disk.lock.None?
    requires var m := s.agents[p].main; (m.CheckingClaim? || m.Discarding?) && m.claim !in s.disk.claims
    ensures Course(s, ls, p) && Run(s, ls).disk == s.disk && Run(s, ls).now == s.now
    ensures Run(s, ls).agents == s.agents[p := s.agents[p].(main := Recreating)]
  {
    var c := s.agents[p].main.claim;
    ls := Turn(s, [], p, NoFault);
    if s.agents[p].main.Discarding? {
      assert Run(s, ls).agents[p].main == Peeking(c, CreateAgain);
      ls := FindsNothingToRestore(s, ls, p);
    }
  }

  lemma FindsNothingToRestore(s0: Sys, ls: seq<Label>, p: nat) returns (more: seq<Label>)
    requires Course(s0, ls, p)
    requires var s := Run(s0, ls);
             && p in s.agents && s.agents[p].reply.None? && s.agents[p].main.Peeking? && s.disk.lock.None?
             && s.agents[p].main.claim !in s.disk.claims
    ensures Course(s0, more, p)
    ensures var s, t := Run(s0, ls), Run(s0, more);
            && t.agents == s.agents[p := Proceed(s.agents[p], s.agents[p].main.after, false)]
            && t.disk == s.disk && t.now == s.now
  {
    var c, after := Run(s0, ls).agents[p].main.claim, Run(s0, ls).agents[p].main.after;
    more := Turn(s0, ls, p, NoFault);
    assert Run(s0, more).agents[p].main == Restoring(c, after);
    more := Turn(s0, more, p, NoFault);
  }

  /** What removeLockIfCurrent was called for is over: a failed attempt, or a release. */
  predicate RemovalEnded(s: Sys, t: Sys, p: nat, exit: Exit) {
    match exit
    case InitFailed => AttemptOver(s, t, p)
    case LockReleased => p in t.agents && t.agents[p].main == Finished && t.agents[p].reply.None?
  }

  /** Of removeLockIfCurrent: only the agent of a failed attempt holds nothing. */
  predicate Removes(s: Sys, p: nat, exit: Exit) {
    p in s.agents && s.agents[p].reply.None? && (exit == InitFailed ==> s.agents[p].holder.None?)
  }

  /** A failing call of restoreClaim ends everything at once and moves nothing. */
  lemma FailedRestoreEnds(s: Sys, p: nat) returns (ls: seq<Label>)
    requires p in s.agents && (s.agents[p].main.Peeking? || s.agents[p].main.Restoring?)
    requires var after := s.agents[p].main.after;
             Removes(s, p, if after.RemovalEnds? then after.exit else InitFailed)
    ensures Course(s, ls, p) && Run(s, ls).disk == s.disk
    ensures var after := s.agents[p].main.after;
            RemovalEnded(s, Run(s, ls), p, if after.RemovalEnds? then after.exit else InitFailed)
  {
    ls := Turn(s, [], p, FailsIo);
  }

  /** A removal that finds another directory or none, or whose first calls fail, leaves everything as it is. */
  lemma RemovalStopsAtOnce(s: Sys, p: nat, fault: Fault) returns (ls: seq<Label>)
    requires p in s.agents && (s.agents[p].main.Verifying? || s.agents[p].main.Claiming?)
    requires var m := s.agents[p].main;
             && Removes(s, p, m.exit)
             && (fault == NoFault ==> if m.Verifying? then !AtLock(s.disk, m.identity) else s.disk.lock.None?)
    ensures Course(s, ls, p) && Run(s, ls).disk == s.disk
    ensures RemovalEnded(s, Run(s, ls), p, s.agents[p].main.exit)
  {
    ls := Turn(s, [], p, fault);
  }

  /**
    A removal that took another directory than its own, or whose rmdir fails, puts it back; but if the
    lock path has been taken meanwhile, it leaves both where they are.
   */
  lemma FailedRemovalPutsBack(s: Sys, p: nat, fault: Fault) returns (ls: seq<Label>)
    requires p in s.agents && (s.agents[p].main.Matching? || s.agents[p].main.Removing?)
    requires var m := s.agents[p].main;
             && Removes(s, p, m.exit) && m.claim in s.disk.claims
             && (if m.Removing? || s.disk.claims[m.claim].identity == m.identity then fault != NoFault else fault == NoFault)
    ensures Course(s, ls, p) && RemovalEnded(s, Run(s, ls), p, s.agents[p].main.exit)
    ensures var t, c := Run(s, ls), s.agents[p].main.claim;
            && (s.disk.lock.None? ==> t.disk == s.disk.(lock := Some(s.disk.claims[c]), claims := s.disk.claims - {c}))
            && (s.disk.lock.Some? ==> t.disk == s.disk)
  {
    var m := s.agents[p].main;
    ls := Turn(s, [], p, fault);
    assert Run(s, ls).agents[p].main == Peeking(m.claim, RemovalEnds(m.exit));
    if s.disk.lock.None? { ls := PutsBack(s, ls, p); } else { ls := LeavesParked(s, ls, p); }
  }

  // ----- releasing -----

  predicate AboutToRelease(s: Sys, p: nat) {
    && p in s.agents && s.agents[p].main == Holding && s.agents[p].reply.None? && s.agents[p].holder.Some?
    && s.agents[p].pulse == Quiet
  }

  lemma ReleaseAndDrain(s: Sys, p: nat) returns (ls: seq<Label>)
    requires AboutToRelease(s, p)
    ensures Course(s, ls, p)
    ensures var t := Run(s, ls); var a, h := s.agents[p], s.agents[p].holder.value;
            && t.disk == s.disk && t.now == s.now && t.nextClaim == s.nextClaim + 2
            && p in t.agents && t.agents == s.agents[p := t.agents[p]] && t.agents[p].reply.None?
            && t.agents[p].holder == Some(h.(status := Released, timer := None)) && t.agents[p].staleMs == a.staleMs
            && t.agents[p].main == (if h.status == Active && !a.preserve then Verifying(h.identity, LockReleased)
                                    else if a.preserve && h.alarms == 0 then RetireChecking
                                    else Finished)
  {
    Append(s, [], ReleaseLock(p));
    Append(s, [ReleaseLock(p)], Drain(p));
    ls := [ReleaseLock(p)] + [Drain(p)];
  }

  /** An active holder's release removes its directory. */
  lemma ReleaseFreesPath(s: Sys, p: nat) returns (ls: seq<Label>)
    requires Sound(s) && AboutToRelease(s, p) && s.agents[p].holder.value.status == Active
    requires AtLock(s.disk, s.agents[p].holder.value.identity) && !s.agents[p].preserve
    ensures Course(s, ls, p)
    ensures var t := Run(s, ls);
            && p in t.agents && t.agents[p].main == Finished && t.agents[p].holder.Some?
            && t.agents[p].holder.value.status == Released && t.disk == s.disk.(lock := None)
  {
    ls := ReleaseAndDrain(s, p);
    ls := RemovesOwn(s, ls, p);
  }

  lemma WritesRetired(s0: Sys, ls: seq<Label>, p: nat) returns (more: seq<Label>)
    requires Course(s0, ls, p)
    requires var s := Run(s0, ls);
             && p in s.agents && s.agents[p].reply.None? && s.agents[p].main == RetireChecking
             && s.agents[p].holder.Some? && AtLock(s.disk, s.agents[p].holder.value.identity)
    ensures Course(s0, more, p)
    ensures var s, t := Run(s0, ls), Run(s0, more);
            var mtime := Stored(s.disk.wholeSeconds, s.now - s.agents[p].staleMs - 1000);
            && t.disk == s.disk.(lock := Some(s.disk.lock.value.(mtime := mtime)))
            && t.agents == s.agents[p := s.agents[p].(main := Finished)]
  {
    more := ChecksBeforeRetiring(s0, ls, p);
    more := Turn(s0, more, p, NoFault);
  }

  lemma ChecksBeforeRetiring(s0: Sys, ls: seq<Label>, p: nat) returns (more: seq<Label>)
    requires Course(s0, ls, p)
    requires var s := Run(s0, ls);
             && p in s.agents && s.agents[p].reply.None? && s.agents[p].main == RetireChecking
             && s.agents[p].holder.Some? && AtLock(s.disk, s.agents[p].holder.value.identity)
    ensures Course(s0, more, p)
    ensures var s, t := Run(s0, ls), Run(s0, more);
            && t.disk == s.disk && t.now == s.now
            && t.agents == s.agents[p := s.agents[p].(main := Retiring(s.now - s.agents[p].staleMs - 1000))]
  {
    more := Turn(s0, ls, p, NoFault);
  }

  /** Where the path is kept, it makes the directory stale at once. */
  lemma ReleaseRetires(s: Sys, p: nat) returns (ls: seq<Label>)
    requires Sound(s) && AboutToRelease(s, p) && s.agents[p].holder.value.status == Active
    requires AtLock(s.disk, s.agents[p].holder.value.identity) && s.agents[p].preserve
    ensures Course(s, ls, p)
    ensures var t := Run(s, ls);
            var mtime := Stored(s.disk.wholeSeconds, s.now - s.agents[p].staleMs - 1000);
            && p in t.agents && t.agents[p].main == Finished && t.agents[p].holder.Some?
            && t.agents[p].holder.value.status == Released
            && t.disk == s.disk.(lock := Some(s.disk.lock.value.(mtime := mtime)))
  {
    assert AgentSound(s.agents[p], s.disk, s.nextClaim);
    ls := ReleaseAndDrain(s, p);
    ls := WritesRetired(s, ls, p);
  }

  /** A release changes nothing once the lock was compromised, or once another directory or none is there. */
  lemma ReleaseLeavesOthersAlone(s: Sys, p: nat) returns (ls: seq<Label>)
    requires Sound(s) && AboutToRelease(s, p) && s.agents[p].holder.value.status != Released
    requires s.agents[p].holder.value.status == Compromised || !AtLock(s.disk, s.agents[p].holder.value.identity)
    ensures Course(s, ls, p)
    ensures var t := Run(s, ls); p in t.agents && t.agents[p].main == Finished && t.disk == s.disk
  {
    assert AgentSound(s.agents[p], s.disk, s.nextClaim);
    ls := ReleaseAndDrain(s, p);
    if s.agents[p].holder.value.status == Active {
      ls := FindsAnother(s, ls, p);
    }
  }

  lemma FindsAnother(s0: Sys, ls: seq<Label>, p: nat) returns (more: seq<Label>)
    requires Course(s0, ls, p)
    requires var s := Run(s0, ls);
             && p in s.agents && s.agents[p].reply.None? && s.agents[p].holder.Some?
             && var a, identity := s.agents[p], s.agents[p].holder.value.identity;
                (a.main == RetireChecking || a.main == Verifying(identity, LockReleased)) && !AtLock(s.disk, identity)
    ensures Course(s0, more, p)
    ensures var s, t := Run(s0, ls), Run(s0, more);
            t.disk == s.disk && p in t.agents && t.agents[p].main == Finished
  {
    more := Turn(s0, ls, p, NoFault);
  }
}
