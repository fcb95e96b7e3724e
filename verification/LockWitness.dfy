/**
  Boundary cases of the lock protocol: a retired directory is always taken over by
  the next contender, which then holds the lock alone; one failing rmdir during a
  release is enough for a later holder to lose its directory without any stale
  reclaim; and a retirement that comes late enough strikes the next holder, which
  then loses the lock, or shares it.
 */
module LockWitness {
  import opened Wrappers
  import opened LockFiles
  import opened LockHolder
  import opened LockProtocol
  import opened LockExclusion
  import LockProgress
  import LockSafety

  /**
    retire() writes a time so old that any contender whose threshold is not
    larger judges the directory stale at once, whichever kind of time stamp the
    file system keeps.
   */
  lemma RetiredIsStale(staleMs: int, retiredAt: int, now: int, contender: Agent, wholeSeconds: bool)
    requires contender.staleMs <= staleMs && retiredAt <= now
    requires contender.main == Inspecting
    requires contender.reply.Some? && contender.reply.value.Seen?
    requires contender.reply.value.dir.mtime == Stored(wholeSeconds, RetireTime(retiredAt, staleMs))
    ensures JudgesStale(contender, now)
    ensures Resumed(contender, now, 0).main == Stealing(contender.reply.value.dir, 0)
  {
  }

  type Kind = (Sys, Label) -> bool

  /** The step is not a failing call. */
  ghost predicate FaultFree(s: Sys, l: Label) {
    l.MainCall? || l.PulseCall? ==> l.fault == NoFault
  }

  /** A step that has nothing to do with a stale reclaim, a restoring rename or a failing call. */
  ghost predicate Plain(s: Sys, l: Label) {
    NoReclaim(s, l) && !Steals(s, l) && !LandsRestore(s, l) && FaultFree(s, l)
  }

  ghost predicate Allows(P: Kind) {
    forall s, l :: Plain(s, l) ==> P(s, l)
  }

  /** No call fails, reclaims move nothing that is owned, and no restoring rename lands. */
  ghost predicate HandsOver(s: Sys, l: Label) {
    FaultFree(s, l) && Peaceful(s, l)
  }

  ghost predicate AllowsHandOver(P: Kind) {
    forall s, l :: HandsOver(s, l) ==> P(s, l)
  }

  /** About to make the directory, before it ever held the lock. */
  predicate Ready(a: Agent) {
    (a.main == Creating || a.main == Recreating) && a.reply.None? && a.holder.None? && a.pulse == Quiet && a.pulseReply.None?
  }

  /** One more step of a run, chosen by its label. */
  lemma Extend(s0: Sys, ls: seq<Label>, P: Kind, l: Label) returns (more: seq<Label>)
    requires Possible(s0, ls) && Throughout(s0, ls, P)
    requires Enabled(Run(s0, ls), l) && P(Run(s0, ls), l)
    ensures more == ls + [l] && Possible(s0, more) && Throughout(s0, more, P)
    ensures Run(s0, more) == Next(Run(s0, ls), l)
    decreases |ls|
  {
    more := ls + [l];
    if ls != [] {
      assert more[0] == ls[0] && more[1..] == ls[1..] + [l];
      var _ := Extend(Next(s0, ls[0]), ls[1..], P, l);
    }
  }

  /** A call that does not fail, and the code that runs on its reply. */
  lemma CallAndResume(s0: Sys, ls: seq<Label>, P: Kind, p: nat, fault: Fault) returns (more: seq<Label>)
    requires Allows(P) && Possible(s0, ls) && Throughout(s0, ls, P)
    requires Enabled(Run(s0, ls), MainCall(p, fault))
    requires fault != NoFault ==> P(Run(s0, ls), MainCall(p, fault))
    requires var m := Run(s0, ls).agents[p].main; m != Inspecting && !m.Stealing? && !m.Restoring?
    ensures Possible(s0, more) && Throughout(s0, more, P)
    ensures var s, t := Run(s0, ls), Run(s0, more);
            var a := s.agents[p];
            var e := Perform(s.disk, CallOf(a.main).value, s.now, fault);
            && t.disk == e.disk && t.now == s.now && t.nextClaim == s.nextClaim + 2
            && t.agents == s.agents[p := Resumed(a.(reply := Some(e.outcome)), s.now, s.nextClaim + 1)]
  {
    var s := Run(s0, ls);
    more := Extend(s0, ls, P, MainCall(p, fault));
    var m := Run(s0, more);
    assert m.agents[p].main == s.agents[p].main && m.agents[p].reply.Some?;
    more := Extend(s0, more, P, MainResume(p));
    assert Run(s0, more).agents == s.agents[p := Resumed(m.agents[p], s.now, m.nextClaim)];
  }

  /** Making the directory of a free lock path and recording its identity. */
  lemma CreateFree(s0: Sys, ls: seq<Label>, P: Kind, p: nat) returns (more: seq<Label>)
    requires Allows(P) && Possible(s0, ls) && Throughout(s0, ls, P)
    requires var s := Run(s0, ls);
             p in s.agents && Ready(s.agents[p]) && s.disk.lock.None? && !s.disk.wholeSeconds
    ensures Possible(s0, more) && Throughout(s0, more, P)
    ensures var s, t := Run(s0, ls), Run(s0, more);
            var made := Dir(s.disk.nextIdentity, s.now);
            && t.disk == s.disk.(lock := Some(made), nextIdentity := s.disk.nextIdentity + 1)
            && t.now == s.now
            && t.agents == s.agents[p := s.agents[p].(main := Probing(made.identity, ProbeTime(s.now)))]
  {
    more := CallAndResume(s0, ls, P, p, NoFault);
    assert Run(s0, more).agents[p].main == Identifying;
    more := CallAndResume(s0, more, P, p, NoFault);
  }

  /** Acquiring a free lock path, step by step. */
  lemma AcquireFree(s0: Sys, ls: seq<Label>, P: Kind, p: nat) returns (more: seq<Label>)
    requires Allows(P) && Possible(s0, ls) && Throughout(s0, ls, P)
    requires var s := Run(s0, ls);
             p in s.agents && Ready(s.agents[p]) && s.disk.lock.None? && !s.disk.wholeSeconds
    ensures Possible(s0, more) && Throughout(s0, more, P)
    ensures var s, t := Run(s0, ls), Run(s0, more);
            var made := Dir(s.disk.nextIdentity, ProbeTime(s.now));
            && t.disk == s.disk.(lock := Some(made), nextIdentity := s.disk.nextIdentity + 1)
            && t.now == s.now
            && t.agents == s.agents[p := s.agents[p].(main := Holding,
                 holder := Some(Acquired(made.identity, s.agents[p].staleMs, s.agents[p].updateMs, made, s.now)))]
  {
    var identity, now := Run(s0, ls).disk.nextIdentity, Run(s0, ls).now;
    more := CreateFree(s0, ls, P, p);
    assert Run(s0, more).agents[p].main == Probing(identity, ProbeTime(now));
    more := CallAndResume(s0, more, P, p, NoFault);
    assert Run(s0, more).agents[p].main == Confirming(identity);
    more := CallAndResume(s0, more, P, p, NoFault);
  }

  /** Release and the identity check: the directory is about to be renamed away. */
  lemma StartRemoval(s0: Sys, ls: seq<Label>, P: Kind, p: nat) returns (more: seq<Label>, claim: nat)
    requires Allows(P) && Possible(s0, ls) && Throughout(s0, ls, P)
    requires var s := Run(s0, ls);
             && p in s.agents && LockSafety.ActiveIn(s, p) && s.agents[p].main == Holding
             && s.agents[p].pulse == Quiet && s.agents[p].reply.None? && !s.agents[p].preserve
             && AtLock(s.disk, s.agents[p].holder.value.identity)
    ensures Possible(s0, more) && Throughout(s0, more, P)
    ensures var s, t := Run(s0, ls), Run(s0, more);
            && t.disk == s.disk && t.now == s.now
            && p in t.agents && t.agents == s.agents[p := t.agents[p]]
            && t.agents[p].main == Claiming(s.disk.lock.value.identity, claim, LockReleased)
            && t.agents[p].reply.None?
  {
    more := Extend(s0, ls, P, ReleaseLock(p));
    more := Extend(s0, more, P, Drain(p));
    assert Run(s0, more).agents[p].main.Verifying?;
    more := CallAndResume(s0, more, P, p, NoFault);
    claim := Run(s0, more).agents[p].main.claim;
  }

  /** The directory is renamed away and recognised as the agent's own. */
  lemma ClaimOwn(s0: Sys, ls: seq<Label>, P: Kind, p: nat) returns (more: seq<Label>)
    requires Allows(P) && Possible(s0, ls) && Throughout(s0, ls, P)
    requires var s := Run(s0, ls);
             && p in s.agents && s.agents[p].main.Claiming? && s.agents[p].reply.None?
             && AtLock(s.disk, s.agents[p].main.identity)
    ensures Possible(s0, more) && Throughout(s0, more, P)
    ensures var s, t := Run(s0, ls), Run(s0, more);
            var m := s.agents[p].main;
            && t.disk == s.disk.(lock := None, claims := s.disk.claims[m.claim := s.disk.lock.value])
            && t.now == s.now
            && t.agents == s.agents[p := s.agents[p].(main := Removing(m.identity, m.claim, m.exit))]
  {
    var m := Run(s0, ls).agents[p].main;
    more := CallAndResume(s0, ls, P, p, NoFault);
    assert Run(s0, more).agents[p].main == Matching(m.identity, m.claim, m.exit);
    more := CallAndResume(s0, more, P, p, NoFault);
  }

  /** The rmdir fails, so the flow comes to the point where it renames the directory back. */
  lemma FailRemoval(s0: Sys, ls: seq<Label>, P: Kind, p: nat) returns (more: seq<Label>)
    requires Allows(P) && Possible(s0, ls) && Throughout(s0, ls, P)
    requires var s := Run(s0, ls);
             p in s.agents && s.agents[p].main.Removing? && s.agents[p].reply.None? && s.disk.lock.None?
    requires P(Run(s0, ls), MainCall(p, FailsIo))
    ensures Possible(s0, more) && Throughout(s0, more, P)
    ensures var s, t := Run(s0, ls), Run(s0, more);
            var m := s.agents[p].main;
            && t.disk == s.disk && t.now == s.now
            && t.agents == s.agents[p := s.agents[p].(main := Restoring(m.claim, RemovalEnds(m.exit)))]
  {
    var m := Run(s0, ls).agents[p].main;
    more := CallAndResume(s0, ls, P, p, FailsIo);
    assert Run(s0, more).agents[p].main == Peeking(m.claim, RemovalEnds(m.exit));
    more := CallAndResume(s0, more, P, p, NoFault);
  }

  const NEWCOMER := Agent(Creating, None, None, Quiet, None, 10000, 5000, 0, false)

  function TwoNewcomers(): Sys {
    Sys(Disk(None, map[], 0, false), 0, 0, map[0 := NEWCOMER, 1 := NEWCOMER])
  }

  /** The first agent releases, its rmdir fails, and the second agent acquires. */
  lemma FirstReleasesSecondAcquires() returns (ls: seq<Label>, claim: nat)
    ensures var s := TwoNewcomers();
            && Possible(s, ls) && Throughout(s, ls, NoReclaim)
            && var t := Run(s, ls);
            && t.disk.claims == map[claim := Dir(0, 5)] && t.disk.lock == Some(Dir(1, 5))
            && t.agents.Keys == {0, 1}
            && t.agents[0].main == Restoring(claim, RemovalEnds(LockReleased)) && t.agents[0].reply.None?
            && t.agents[1].holder == Some(Acquired(1, 10000, 5000, Dir(1, 5), 0))
  {
    var s := TwoNewcomers();
    ls := AcquireFree(s, [], NoReclaim, 0);
    assert Run(s, ls).agents[1] == NEWCOMER;
    ls, claim := StartRemoval(s, ls, NoReclaim, 0);
    ls := ClaimOwn(s, ls, NoReclaim, 0);
    ls := FailRemoval(s, ls, NoReclaim, 0);
    assert Run(s, ls).agents[1] == NEWCOMER;
    ls := AcquireFree(s, ls, NoReclaim, 1);
  }

  /**
    A run of two agents with no stale reclaim in which the second one is
    active and its directory is gone: the first one's rmdir failed during its
    release, so it renamed its old directory back over the new one.
   */
  lemma HolderCanBeDisplaced() returns (ls: seq<Label>)
    ensures var s := TwoNewcomers();
            && Initial(s) && Possible(s, ls) && Throughout(s, ls, NoReclaim)
            && var t := Run(s, ls);
            && LockSafety.ActiveIn(t, 1)
            && !AtLock(t.disk, t.agents[1].holder.value.identity)
  {
    var claim;
    ls, claim := FirstReleasesSecondAcquires();
    ls := Extend(TwoNewcomers(), ls, NoReclaim, MainCall(0, NoFault));
  }

  // ----- a contender that waits -----

  /** A contender finds a directory that is not stale and goes to sleep. */
  lemma MeetsHeld(s0: Sys, ls: seq<Label>, P: Kind, p: nat) returns (more: seq<Label>)
    requires Allows(P) && Possible(s0, ls) && Throughout(s0, ls, P)
    requires var s := Run(s0, ls);
             && p in s.agents && Fresh(s.agents[p]) && s.disk.lock.Some? && s.agents[p].retries > 0
             && s.disk.lock.value.mtime >= s.now - s.agents[p].staleMs
    ensures Possible(s0, more) && Throughout(s0, more, P)
    ensures var s, t := Run(s0, ls), Run(s0, more);
            && t.disk == s.disk && t.now == s.now
            && t.agents == s.agents[p := s.agents[p].(main := Sleeping, retries := s.agents[p].retries - 1)]
  {
    more := CallAndResume(s0, ls, P, p, NoFault);
    assert Run(s0, more).agents[p].main == Inspecting;
    more := Extend(s0, more, P, MainCall(p, NoFault));
    more := Extend(s0, more, P, MainResume(p));
  }

  /** The rmdir of a release. */
  lemma RemoveOwn(s0: Sys, ls: seq<Label>, P: Kind, p: nat) returns (more: seq<Label>)
    requires Allows(P) && Possible(s0, ls) && Throughout(s0, ls, P)
    requires var s := Run(s0, ls);
             && p in s.agents && s.agents[p].main.Removing? && s.agents[p].reply.None?
             && s.agents[p].main.claim in s.disk.claims && s.agents[p].main.exit == LockReleased
    ensures Possible(s0, more) && Throughout(s0, more, P)
    ensures var s, t := Run(s0, ls), Run(s0, more);
            && t.disk == s.disk.(claims := s.disk.claims - {s.agents[p].main.claim}) && t.now == s.now
            && t.agents == s.agents[p := s.agents[p].(main := Finished)]
  {
    more := CallAndResume(s0, ls, P, p, NoFault);
  }

  function HolderAndPatient(): Sys {
    Sys(Disk(None, map[], 0, false), 0, 0, map[0 := NEWCOMER, 1 := NEWCOMER.(retries := 1)])
  }

  lemma PatientSleeps() returns (ls: seq<Label>)
    ensures var s := HolderAndPatient();
            && Possible(s, ls) && Throughout(s, ls, Plain)
            && var t := Run(s, ls);
            && t.disk == Disk(Some(Dir(0, 5)), map[], 1, false) && t.now == 0
            && t.agents == map[0 := NEWCOMER.(main := Holding, holder := Some(Acquired(0, 10000, 5000, Dir(0, 5), 0))),
                               1 := NEWCOMER.(main := Sleeping)]
  {
    var s := HolderAndPatient();
    ls := AcquireFree(s, [], Plain, 0);
    ls := MeetsHeld(s, ls, Plain, 1);
  }

  lemma ThenFirstReleases() returns (ls: seq<Label>)
    ensures var s := HolderAndPatient();
            && Possible(s, ls) && Throughout(s, ls, Plain)
            && var t := Run(s, ls);
            && t.disk == Disk(None, map[], 1, false) && t.now == 0
            && t.agents.Keys == {0, 1} && t.agents[0].main == Finished && t.agents[1] == NEWCOMER.(main := Sleeping)
  {
    var s := HolderAndPatient();
    ls := PatientSleeps();
    var claim;
    ls, claim := StartRemoval(s, ls, Plain, 0);
    ls := ClaimOwn(s, ls, Plain, 0);
    ls := RemoveOwn(s, ls, Plain, 0);
    assert Run(s, ls).disk.claims == map[];
  }

  /** A contender with one retry meets a held directory, sleeps, wakes after the release, and becomes the holder. */
  lemma PatienceIsRewarded() returns (ls: seq<Label>)
    ensures var s := HolderAndPatient();
            && Initial(s) && Possible(s, ls) && Throughout(s, ls, Plain)
            && var t := Run(s, ls);
            && LockSafety.ActiveIn(t, 1) && AtLock(t.disk, t.agents[1].holder.value.identity)
            && s.agents[1].retries == 1 && LockProgress.Wakes(ls, 1) == 1
            && 0 in t.agents && t.agents[0].main == Finished
  {
    var s := HolderAndPatient();
    ls := ThenFirstReleases();
    ls := Extend(s, ls, Plain, Wake(1));
    ls := AcquireFree(s, ls, Plain, 1);
    LockProgress.GivesUpAfterRetries(s, ls, 1);
  }

  // ----- a hand-over -----

  /** Releasing without removal, up to the point where the directory is to get a time that is stale at once. */
  lemma ReleaseToRetire(s0: Sys, ls: seq<Label>, P: Kind, p: nat) returns (more: seq<Label>)
    requires Allows(P) && Possible(s0, ls) && Throughout(s0, ls, P)
    requires var s := Run(s0, ls);
             && p in s.agents && LockSafety.ActiveIn(s, p) && s.agents[p].main == Holding
             && s.agents[p].pulse == Quiet && s.agents[p].reply.None? && s.agents[p].preserve
             && s.agents[p].holder.value.alarms == 0 && AtLock(s.disk, s.agents[p].holder.value.identity)
    ensures Possible(s0, more) && Throughout(s0, more, P)
    ensures var s, t := Run(s0, ls), Run(s0, more);
            && t.disk == s.disk && t.now == s.now
            && t.agents == s.agents[p := s.agents[p].(main := RetireChecking,
                                                      holder := Some(Release(s.agents[p].holder.value)))]
  {
    more := Extend(s0, ls, P, ReleaseLock(p));
    more := Extend(s0, more, P, Drain(p));
  }

  /** The directory is still the agent's own, so its utimes comes next. */
  lemma CheckRetiring(s0: Sys, ls: seq<Label>, P: Kind, p: nat) returns (more: seq<Label>)
    requires Allows(P) && Possible(s0, ls) && Throughout(s0, ls, P)
    requires var s := Run(s0, ls);
             && p in s.agents && s.agents[p].main == RetireChecking && s.agents[p].reply.None?
             && s.agents[p].holder.Some? && AtLock(s.disk, s.agents[p].holder.value.identity)
    ensures Possible(s0, more) && Throughout(s0, more, P)
    ensures var s, t := Run(s0, ls), Run(s0, more);
            && t.disk == s.disk && t.now == s.now
            && t.agents == s.agents[p := s.agents[p].(main := Retiring(RetireTime(s.now, s.agents[p].staleMs)))]
  {
    more := CallAndResume(s0, ls, P, p, NoFault);
  }

  /** The utimes of a retirement, whosever directory then stands at the lock path. */
  lemma WriteRetired(s0: Sys, ls: seq<Label>, P: Kind, p: nat) returns (more: seq<Label>)
    requires Allows(P) && Possible(s0, ls) && Throughout(s0, ls, P)
    requires var s := Run(s0, ls);
             && p in s.agents && s.agents[p].main.Retiring? && s.agents[p].reply.None?
             && s.disk.lock.Some? && !s.disk.wholeSeconds
    ensures Possible(s0, more) && Throughout(s0, more, P)
    ensures var s, t := Run(s0, ls), Run(s0, more);
            && t.disk == s.disk.(lock := Some(s.disk.lock.value.(mtime := s.agents[p].main.retiredAt))) && t.now == s.now
            && t.agents == s.agents[p := s.agents[p].(main := Finished)]
  {
    more := CallAndResume(s0, ls, P, p, NoFault);
  }

  /** A contender finds the directory stale and is about to rename it away. */
  lemma JudgeStale(s0: Sys, ls: seq<Label>, P: Kind, p: nat) returns (more: seq<Label>)
    requires AllowsHandOver(P) && Possible(s0, ls) && Throughout(s0, ls, P)
    requires var s := Run(s0, ls);
             && p in s.agents && Fresh(s.agents[p]) && s.disk.lock.Some?
             && s.disk.lock.value.mtime < s.now - s.agents[p].staleMs
    ensures Possible(s0, more) && Throughout(s0, more, P)
    ensures var s, t := Run(s0, ls), Run(s0, more);
            && t.disk == s.disk && t.now == s.now && t.nextClaim > 0
            && t.agents == s.agents[p := s.agents[p].(main := Stealing(s.disk.lock.value, t.nextClaim - 1))]
  {
    more := CallAndResume(s0, ls, P, p, NoFault);
    assert Run(s0, more).agents[p].main == Inspecting;
    more := Extend(s0, more, P, MainCall(p, NoFault));
    more := Extend(s0, more, P, MainResume(p));
  }

  /** It renames the directory away. */
  lemma TakeStale(s0: Sys, ls: seq<Label>, P: Kind, p: nat) returns (more: seq<Label>)
    requires AllowsHandOver(P) && Possible(s0, ls) && Throughout(s0, ls, P)
    requires var s := Run(s0, ls);
             p in s.agents && s.agents[p].main.Stealing? && s.agents[p].reply.None? && s.disk.lock.Some?
    requires P(Run(s0, ls), MainCall(p, NoFault))
    ensures Possible(s0, more) && Throughout(s0, more, P)
    ensures var s, t := Run(s0, ls), Run(s0, more);
            var m := s.agents[p].main;
            && t.disk == s.disk.(lock := None, claims := s.disk.claims[m.claim := s.disk.lock.value])
            && t.now == s.now
            && t.agents == s.agents[p := s.agents[p].(main := CheckingClaim(m.observed, m.claim))]
  {
    more := Extend(s0, ls, P, MainCall(p, NoFault));
    more := Extend(s0, more, P, MainResume(p));
  }

  /** It finds what it had observed and removes it. */
  lemma DiscardTaken(s0: Sys, ls: seq<Label>, P: Kind, p: nat) returns (more: seq<Label>)
    requires AllowsHandOver(P) && Possible(s0, ls) && Throughout(s0, ls, P)
    requires var s := Run(s0, ls);
             && p in s.agents && s.agents[p].main.CheckingClaim? && s.agents[p].reply.None?
             && s.agents[p].main.claim in s.disk.claims
             && s.disk.claims[s.agents[p].main.claim] == s.agents[p].main.observed
    ensures Possible(s0, more) && Throughout(s0, more, P)
    ensures var s, t := Run(s0, ls), Run(s0, more);
            && t.disk == s.disk.(claims := s.disk.claims - {s.agents[p].main.claim}) && t.now == s.now
            && t.agents == s.agents[p := s.agents[p].(main := Recreating)]
  {
    var m := Run(s0, ls).agents[p].main;
    more := CallAndResume(s0, ls, P, p, NoFault);
    assert Run(s0, more).agents[p].main == Discarding(m.observed, m.claim);
    more := CallAndResume(s0, more, P, p, NoFault);
  }

  /** A contender that is about to take a stale directory becomes the active holder. */
  lemma TakeOver(s0: Sys, ls: seq<Label>, P: Kind, p: nat) returns (more: seq<Label>)
    requires AllowsHandOver(P) && Possible(s0, ls) && Throughout(s0, ls, P)
    requires var s := Run(s0, ls);
             && p in s.agents && s.agents[p] == NEWCOMER.(main := s.agents[p].main)
             && s.agents[p].main.Stealing? && s.disk.lock == Some(s.agents[p].main.observed)
             && s.disk.claims == map[] && !s.disk.wholeSeconds
    requires P(Run(s0, ls), MainCall(p, NoFault))
    ensures Possible(s0, more) && Throughout(s0, more, P)
    ensures var s, t := Run(s0, ls), Run(s0, more);
            var made := Dir(s.disk.nextIdentity, ProbeTime(s.now));
            && t.disk == Disk(Some(made), map[], s.disk.nextIdentity + 1, false) && t.now == s.now
            && t.agents == s.agents[p := NEWCOMER.(main := Holding,
                 holder := Some(Acquired(made.identity, 10000, 5000, made, s.now)))]
  {
    more := TakeStale(s0, ls, P, p);
    more := DiscardTaken(s0, more, P, p);
    assert Run(s0, more).disk.claims == map[];
    more := AcquireFree(s0, more, P, p);
  }

  function Crowd(): Sys {
    Sys(Disk(None, map[], 0, false), 0, 0,
        map[0 := NEWCOMER.(preserve := true), 1 := NEWCOMER, 2 := NEWCOMER])
  }

  /** The first agent has acquired and released the lock and is about to retire its directory. */
  lemma FirstIsRetiring(P: Kind) returns (ls: seq<Label>)
    requires AllowsHandOver(P)
    ensures Possible(Crowd(), ls) && Throughout(Crowd(), ls, P)
    ensures var t := Run(Crowd(), ls);
            && t.disk == Disk(Some(Dir(0, 5)), map[], 1, false) && t.now == 0
            && t.agents.Keys == {0, 1, 2} && t.agents[1] == t.agents[2] == NEWCOMER
            && t.agents[0].main == Retiring(-11000) && t.agents[0].reply.None?
            && t.agents[0].holder.Some? && t.agents[0].holder.value.identity == 0
  {
    ls := AcquireFree(Crowd(), [], P, 0);
    ls := ReleaseToRetire(Crowd(), ls, P, 0);
    ls := CheckRetiring(Crowd(), ls, P, 0);
  }

  /**
    The hand-over of withLocalFileLock: the first agent acquires, releases and retires, and the
    second reclaims the retired directory, which nobody owns, and becomes the active holder.
   */
  lemma RetiredLockIsHandedOver() returns (ls: seq<Label>)
    ensures Initial(Crowd()) && Possible(Crowd(), ls) && Throughout(Crowd(), ls, HandsOver)
    ensures var t := Run(Crowd(), ls);
            && LockSafety.ActiveIn(t, 1) && AtLock(t.disk, t.agents[1].holder.value.identity)
            && LockSafety.Holds(t, 0) && t.agents[0].main == Finished
            && t.agents[0].holder.value.identity != t.agents[1].holder.value.identity
  {
    ls := FirstIsRetiring(HandsOver);
    ls := WriteRetired(Crowd(), ls, HandsOver, 0);
    ls := JudgeStale(Crowd(), ls, HandsOver, 1);
    ls := TakeOver(Crowd(), ls, HandsOver, 1);
  }

  // ----- a late retirement -----

  /**
    The first agent stalls between the check and the utimes of retire until its directory is stale
    by itself. The second takes it over, and the late utimes makes its new directory stale.
   */
  lemma RetireStrikesNextHolder(P: Kind) returns (ls: seq<Label>)
    requires AllowsHandOver(P)
    ensures Possible(Crowd(), ls) && Throughout(Crowd(), ls, P)
    ensures var t := Run(Crowd(), ls);
            && t.disk == Disk(Some(Dir(1, -11000)), map[], 2, false) && t.now == 20000
            && t.agents.Keys == {0, 1, 2} && t.agents[2] == NEWCOMER
            && t.agents[1] == NEWCOMER.(main := Holding,
                 holder := Some(Acquired(1, 10000, 5000, Dir(1, 20005), 20000)))
  {
    ls := FirstIsRetiring(P);
    ls := Extend(Crowd(), ls, P, Tick(20000));
    ls := JudgeStale(Crowd(), ls, P, 1);
    ls := TakeOver(Crowd(), ls, P, 1);
    ls := WriteRetired(Crowd(), ls, P, 0);
  }

  /** A heartbeat whose first stat sees a time that the holder has not written. */
  lemma BeatSeesOtherTime(s0: Sys, ls: seq<Label>, P: Kind, p: nat) returns (more: seq<Label>)
    requires Allows(P) && Possible(s0, ls) && Throughout(s0, ls, P)
    requires var s := Run(s0, ls);
             && LockSafety.ActiveIn(s, p) && s.agents[p].pulse == Quiet && s.agents[p].pulseReply.None?
             && s.agents[p].holder.value.timer.Some? && s.disk.lock.Some?
             && s.disk.lock.value.mtime != s.agents[p].holder.value.mtime
    ensures Possible(s0, more) && Throughout(s0, more, P)
    ensures var s, t := Run(s0, ls), Run(s0, more);
            && t.disk == s.disk && LockSafety.Holds(t, p)
            && t.agents[p].holder.value == Compromise(s.agents[p].holder.value.(timer := None))
  {
    more := Extend(s0, ls, P, Fire(p));
    more := Extend(s0, more, P, PulseCall(p, NoFault));
    more := Extend(s0, more, P, PulseResume(p));
  }

  /** The next heartbeat of the new holder then ends in a false alarm, although no call has failed. */
  lemma LateRetireCompromises() returns (ls: seq<Label>)
    ensures Initial(Crowd()) && Possible(Crowd(), ls) && Throughout(Crowd(), ls, HandsOver)
    ensures var t := Run(Crowd(), ls);
            && LockSafety.Holds(t, 1) && t.agents[1].holder.value.status == Compromised
            && AtLock(t.disk, t.agents[1].holder.value.identity)
  {
    ls := RetireStrikesNextHolder(HandsOver);
    ls := BeatSeesOtherTime(Crowd(), ls, HandsOver, 1);
  }

  /** Or the third agent takes the directory from under the fresh holder, and both are active. */
  lemma TwoHoldersAtOnce() returns (ls: seq<Label>)
    ensures Initial(Crowd()) && Possible(Crowd(), ls) && Throughout(Crowd(), ls, FaultFree)
    ensures var t := Run(Crowd(), ls);
            && LockSafety.ActiveIn(t, 1) && LockSafety.ActiveIn(t, 2)
            && t.agents[1].holder.value.lastUpdateMs == t.now
  {
    ls := RetireStrikesNextHolder(FaultFree);
    ls := JudgeStale(Crowd(), ls, FaultFree, 2);
    ls := TakeOver(Crowd(), ls, FaultFree, 2);
  }
}
