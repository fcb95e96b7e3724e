/**
  What every run of the lock protocol keeps, stale reclaims and failing calls
  included: the holder's invariants, removal of recorded directories only, and
  the fencing of a holder whose directory was destroyed.
 */
module LockSafety {
  import opened Wrappers
  import opened LockFiles
  import opened LockHolder
  import opened LockProtocol

  ghost predicate KnownReply(reply: Option<Outcome>, nextIdentity: nat) {
    reply.Some? && reply.value.Seen? ==> reply.value.dir.identity < nextIdentity
  }

  ghost predicate KnownMain(main: Main, nextIdentity: nat) {
    match main
    case Stealing(observed, _) => observed.identity < nextIdentity
    case CheckingClaim(observed, _) => observed.identity < nextIdentity
    case Discarding(observed, _) => observed.identity < nextIdentity
    case Probing(identity, _) => identity < nextIdentity
    case Confirming(identity) => identity < nextIdentity
    case Verifying(identity, _) => identity < nextIdentity
    case Claiming(identity, _, _) => identity < nextIdentity
    case Matching(identity, _, _) => identity < nextIdentity
    case Removing(identity, _, _) => identity < nextIdentity
    case _ => true
  }

  /** What a flow knows about the claim path it named. */
  ghost predicate KnowsClaim(a: Agent, claims: map<nat, Dir>) {
    match a.main
    case Stealing(_, c) => a.reply.None? ==> c !in claims
    case Claiming(_, c, _) => a.reply.None? ==> c !in claims
    case CheckingClaim(_, c) => ReadsClaim(a.reply, c, claims)
    case Matching(_, c, _) => ReadsClaim(a.reply, c, claims)
    case Discarding(observed, c) => a.reply.None? ==> c in claims && claims[c] == observed
    case Removing(identity, c, _) => a.reply.None? ==> c in claims && claims[c].identity == identity
    case _ => true
  }

  ghost predicate ReadsClaim(reply: Option<Outcome>, c: nat, claims: map<nat, Dir>) {
    reply.Some? && reply.value.Seen? ==> c in claims && claims[c] == reply.value.dir
  }

  /** The flow has not yet returned from acquireLockState. */
  ghost predicate Acquiring(main: Main) {
    match main
    case Verifying(_, exit) => exit == InitFailed
    case Claiming(_, _, exit) => exit == InitFailed
    case Matching(_, _, exit) => exit == InitFailed
    case Removing(_, _, exit) => exit == InitFailed
    case Peeking(_, after) => after != RemovalEnds(LockReleased)
    case Restoring(_, after) => after != RemovalEnds(LockReleased)
    case _ => !(main.RetireChecking? || main.Retiring? || main.Holding? || main.Draining? || main.Finished?)
  }

  ghost predicate AgentSound(a: Agent, disk: Disk, nextClaim: nat) {
    && (a.pulse != Quiet ==> a.holder.Some?)
    && (a.reply.Some? ==> CallOf(a.main).Some?)
    && (a.pulse == Quiet ==> a.pulseReply.None?)
    && (a.pulse != Quiet ==> a.main == Holding || a.main.Draining?)
    && (a.holder.None? <==> Acquiring(a.main))
    && (a.holder.Some? ==> HolderOk(a.holder.value, a.pulse) && a.holder.value.identity < disk.nextIdentity)
    && (a.holder.Some? && a.holder.value.status == Active ==> a.main == Holding)
    && KnownReply(a.reply, disk.nextIdentity)
    && KnownReply(a.pulseReply, disk.nextIdentity)
    && KnownMain(a.main, disk.nextIdentity)
    && (ClaimOf(a.main).Some? ==> ClaimOf(a.main).value < nextClaim)
    && KnowsClaim(a, disk.claims)
  }

  ghost predicate ClaimsApart(a: Agent, b: Agent) {
    ClaimOf(a.main).Some? && ClaimOf(b.main).Some? ==> ClaimOf(a.main).value != ClaimOf(b.main).value
  }

  ghost predicate Sound(s: Sys) {
    && DistinctIdentities(s.disk)
    && (forall c <- s.disk.claims :: c < s.nextClaim)
    && (forall p <- s.agents :: AgentSound(s.agents[p], s.disk, s.nextClaim))
    && (forall p <- s.agents, q <- s.agents :: p != q ==> ClaimsApart(s.agents[p], s.agents[q]))
  }

  lemma InitialIsSound(s: Sys)
    requires Initial(s)
    ensures Sound(s)
  {
  }

  /** A resumed flow keeps its claim path, drops it, or takes the fresh one. */
  lemma ResumedClaim(a: Agent, now: int, claim: nat)
    requires a.reply.Some?
    ensures ClaimOf(Resumed(a, now, claim).main) in {ClaimOf(a.main), Some(claim), None}
  {
  }

  lemma ResumedPhase(a: Agent, now: int, claim: nat)
    requires a.reply.Some? && (a.holder.None? <==> Acquiring(a.main))
    ensures var b := Resumed(a, now, claim); b.holder.None? <==> Acquiring(b.main)
  {
  }

  lemma ResumedHolder(a: Agent, nextIdentity: nat, now: int, claim: nat)
    requires a.reply.Some? && KnownReply(a.reply, nextIdentity) && KnownMain(a.main, nextIdentity)
    requires a.holder.None? <==> Acquiring(a.main)
    ensures var b := Resumed(a, now, claim);
            && b.reply.None? && b.pulse == a.pulse && b.pulseReply == a.pulseReply
            && (b.holder == a.holder || (a.holder.None? && b.main == Holding && b.holder.Some?
                                         && b.holder.value.identity < nextIdentity
                                         && HolderOk(b.holder.value, Quiet)))
            && (a.main == Holding || a.main.Draining? ==> b.main == a.main)
  {
  }

  lemma ResumedKnownMain(a: Agent, nextIdentity: nat, now: int, claim: nat)
    requires a.reply.Some? && KnownReply(a.reply, nextIdentity) && KnownMain(a.main, nextIdentity)
    ensures KnownMain(Resumed(a, now, claim).main, nextIdentity)
  {
  }

  lemma ResumedKnowsClaim(a: Agent, claims: map<nat, Dir>, now: int, claim: nat)
    requires a.reply.Some? && KnowsClaim(a, claims)
    requires claim !in claims
    ensures KnowsClaim(Resumed(a, now, claim), claims)
  {
  }

  lemma ResumedSound(a: Agent, disk: Disk, now: int, claim: nat)
    requires a.reply.Some? && AgentSound(a, disk, claim)
    requires forall c <- disk.claims :: c < claim
    ensures AgentSound(Resumed(a, now, claim), disk, claim + 1)
  {
    ResumedClaim(a, now, claim);
    ResumedPhase(a, now, claim);
    ResumedHolder(a, disk.nextIdentity, now, claim);
    ResumedKnownMain(a, disk.nextIdentity, now, claim);
    ResumedKnowsClaim(a, disk.claims, now, claim);
  }

  lemma CalledKnowsClaim(a: Agent, disk: Disk, now: int, fault: Fault)
    requires KnowsClaim(a, disk.claims) && a.reply.None? && CallOf(a.main).Some?
    ensures var e := Perform(disk, CallOf(a.main).value, now, fault);
            KnowsClaim(a.(reply := Some(e.outcome)), e.disk.claims)
  {
  }

  lemma PerformReply(disk: Disk, call: Call, now: int, fault: Fault)
    requires DistinctIdentities(disk)
    ensures var e := Perform(disk, call, now, fault);
            && KnownReply(Some(e.outcome), disk.nextIdentity)
            && disk.nextIdentity <= e.disk.nextIdentity
            && e.disk.claims.Keys <= disk.claims.Keys + (if call.RenameToClaim? then {call.claim} else {})
  {
  }

  lemma CalledSound(a: Agent, disk: Disk, now: int, claim: nat, fault: Fault)
    requires AgentSound(a, disk, claim) && DistinctIdentities(disk)
    requires forall c <- disk.claims :: c < claim
    requires a.reply.None? && CallOf(a.main).Some?
    ensures var e := Perform(disk, CallOf(a.main).value, now, fault);
            && DistinctIdentities(e.disk)
            && (forall c <- e.disk.claims :: c < claim)
            && AgentSound(a.(reply := Some(e.outcome)), e.disk, claim)
  {
    var call := CallOf(a.main).value;
    assert call.RenameToClaim? ==> ClaimOf(a.main) == Some(call.claim);
    PerformKeepsIdentities(disk, call, now, fault);
    PerformReply(disk, call, now, fault);
    CalledKnowsClaim(a, disk, now, fault);
  }

  lemma PulseCalledSound(a: Agent, disk: Disk, now: int, claim: nat, fault: Fault)
    requires AgentSound(a, disk, claim) && DistinctIdentities(disk)
    requires a.pulseReply.None? && PulseCallOf(a.pulse).Some?
    ensures var e := Perform(disk, PulseCallOf(a.pulse).value, now, fault);
            && DistinctIdentities(e.disk)
            && e.disk.claims == disk.claims
            && AgentSound(a.(pulseReply := Some(e.outcome)), e.disk, claim)
  {
    PerformKeepsIdentities(disk, PulseCallOf(a.pulse).value, now, fault);
  }

  lemma LocalSound(a: Agent, l: Label, disk: Disk, now: int, claim: nat, out: Outcome)
    requires AgentSound(a, disk, claim)
    requires l.Wake? || l.ReleaseLock? || l.Drain? || l.Fire? || l.PulseResume?
    requires AgentEnabled(a, l)
    ensures AgentSound(Moved(a, l, now, claim, out), disk, claim + 1)
    ensures ClaimOf(Moved(a, l, now, claim, out).main) in {ClaimOf(a.main), None}
  {
    if l.PulseResume? {
      RepliedKeepsHolder(a.holder.value, a.pulse, a.pulseReply.value, now);
    }
  }

  lemma OwnMove(s: Sys, l: Label)
    requires Sound(s) && Enabled(s, l) && !l.Tick?
    ensures var t := Next(s, l);
            && DistinctIdentities(t.disk)
            && (forall c <- t.disk.claims :: c < s.nextClaim)
            && AgentSound(t.agents[l.agent], t.disk, s.nextClaim + 1)
            && ClaimOf(t.agents[l.agent].main) in {ClaimOf(s.agents[l.agent].main), Some(s.nextClaim), None}
  {
    var a := s.agents[l.agent];
    assert AgentSound(a, s.disk, s.nextClaim);
    match l {
      case MainCall(p, fault) => CalledSound(a, s.disk, s.now, s.nextClaim, fault);
      case PulseCall(p, fault) => PulseCalledSound(a, s.disk, s.now, s.nextClaim, fault);
      case MainResume(p) =>
        ResumedSound(a, s.disk, s.now, s.nextClaim);
        ResumedClaim(a, s.now, s.nextClaim);
      case _ => LocalSound(a, l, s.disk, s.now, s.nextClaim, Done);
    }
  }

  /** The two disks agree on one claim path, and no identity was taken back. */
  ghost predicate AgreeOn(disk: Disk, later: Disk, claim: Option<nat>) {
    && disk.nextIdentity <= later.nextIdentity
    && (claim.Some? ==>
          && (claim.value in disk.claims <==> claim.value in later.claims)
          && (claim.value in disk.claims ==> disk.claims[claim.value] == later.claims[claim.value]))
  }

  lemma FrameSound(b: Agent, disk: Disk, later: Disk, claim: nat)
    requires AgentSound(b, disk, claim)
    requires AgreeOn(disk, later, ClaimOf(b.main))
    ensures AgentSound(b, later, claim + 1)
  {
  }

  lemma PerformFrame(disk: Disk, call: Call, now: int, fault: Fault, claim: Option<nat>)
    requires call.RenameToClaim? || call.RemoveClaim? || call.RenameToLock? ==> claim != Some(call.claim)
    ensures AgreeOn(disk, Perform(disk, call, now, fault).disk, claim)
  {
  }

  /** A move of one agent leaves what another agent knows alone. */
  lemma OthersKeep(s: Sys, l: Label, q: nat)
    requires Sound(s) && Enabled(s, l) && !l.Tick? && q in s.agents && q != l.agent
    ensures AgentSound(s.agents[q], Next(s, l).disk, s.nextClaim + 1)
  {
    var b := s.agents[q];
    assert AgentSound(b, s.disk, s.nextClaim);
    assert ClaimsApart(s.agents[l.agent], b);
    if l.MainCall? {
      PerformFrame(s.disk, CallOf(s.agents[l.agent].main).value, s.now, l.fault, ClaimOf(b.main));
    } else if l.PulseCall? {
      PerformFrame(s.disk, PulseCallOf(s.agents[l.agent].pulse).value, s.now, l.fault, ClaimOf(b.main));
    }
    FrameSound(b, s.disk, Next(s, l).disk, s.nextClaim);
  }

  lemma ClaimsStayApart(s: Sys, l: Label)
    requires Sound(s) && Enabled(s, l) && !l.Tick?
    ensures var t := Next(s, l);
            forall p <- t.agents, q <- t.agents :: p != q ==> ClaimsApart(t.agents[p], t.agents[q])
  {
    var t := Next(s, l);
    OwnMove(s, l);
    forall q | q in s.agents && q != l.agent ensures ClaimsApart(t.agents[l.agent], t.agents[q]) {
      assert AgentSound(s.agents[q], s.disk, s.nextClaim);
      assert ClaimsApart(s.agents[l.agent], s.agents[q]);
    }
  }

  lemma SoundStep(s: Sys, l: Label)
    requires Sound(s) && Enabled(s, l)
    ensures Sound(Next(s, l))
  {
    if l.Tick? {
      return;
    }
    OwnMove(s, l);
    ClaimsStayApart(s, l);
    var t := Next(s, l);
    forall q | q in t.agents ensures AgentSound(t.agents[q], t.disk, t.nextClaim) {
      if q != l.agent { OthersKeep(s, l, q); }
    }
  }

  /** Every reachable state is sound. */
  lemma {:induction false} SoundRun(s: Sys, ls: seq<Label>)
    requires Sound(s) && Possible(s, ls)
    ensures Sound(Run(s, ls))
    decreases |ls|
  {
    if ls != [] {
      SoundStep(s, ls[0]);
      SoundRun(Next(s, ls[0]), ls[1..]);
    }
  }

  // ----- what reachable states and steps promise -----

  ghost predicate Holds(s: Sys, p: nat) {
    p in s.agents && s.agents[p].holder.Some?
  }

  ghost predicate ActiveIn(s: Sys, p: nat) {
    Holds(s, p) && s.agents[p].holder.value.status == Active
  }

  /** In every run every holder keeps its invariant: see HolderOk. */
  lemma HoldersInEveryRun(s: Sys, ls: seq<Label>, p: nat)
    requires Initial(s) && Possible(s, ls) && Holds(Run(s, ls), p)
    ensures var a := Run(s, ls).agents[p];
            && HolderOk(a.holder.value, a.pulse)
            && (a.holder.value.status == Active ==> a.main == Holding)
  {
    InitialIsSound(s);
    SoundRun(s, ls);
    var t := Run(s, ls);
    assert AgentSound(t.agents[p], t.disk, t.nextClaim);
  }

  ghost predicate Present(disk: Disk, identity: nat) {
    AtLock(disk, identity)
    || exists c <- disk.claims :: disk.claims[c].identity == identity
  }

  /**
    At every step of every run a directory vanishes only because a reclaim
    removes the one it observed, unchanged in identity and time; or because
    removeLockIfCurrent removes the identity it recorded; or because a
    restoring rename lands on it.
   */
  lemma OnlyRecordedDirectoriesVanish(s0: Sys, ls: seq<Label>, l: Label, identity: nat)
    requires Initial(s0) && Possible(s0, ls) && Enabled(Run(s0, ls), l)
    requires Present(Run(s0, ls).disk, identity) && !Present(Next(Run(s0, ls), l).disk, identity)
    ensures var s := Run(s0, ls);
            l.MainCall? && l.fault == NoFault &&
            match s.agents[l.agent].main
            case Discarding(observed, c) => c in s.disk.claims && s.disk.claims[c] == observed && observed.identity == identity
            case Removing(recorded, c, _) => recorded == identity
            case Restoring(c, _) => c in s.disk.claims && s.disk.lock.Some? && s.disk.lock.value.identity == identity
            case _ => false
  {
    InitialIsSound(s0);
    SoundRun(s0, ls);
    var s := Run(s0, ls);
    assert AgentSound(s.agents[l.agent], s.disk, s.nextClaim);
    if l.MainCall? {
      VanishingCall(s.disk, CallOf(s.agents[l.agent].main).value, s.now, l.fault, identity);
    } else if l.PulseCall? {
      VanishingCall(s.disk, PulseCallOf(s.agents[l.agent].pulse).value, s.now, l.fault, identity);
    }
  }

  lemma VanishingCall(disk: Disk, call: Call, now: int, fault: Fault, identity: nat)
    requires DistinctIdentities(disk)
    requires call.RenameToClaim? ==> call.claim !in disk.claims
    requires Present(disk, identity)
    ensures var later := Perform(disk, call, now, fault).disk;
            Present(later, identity)
            || (fault == NoFault && call.RemoveClaim? && call.claim in disk.claims
                && disk.claims[call.claim].identity == identity)
            || (fault == NoFault && call.RenameToLock? && call.claim in disk.claims
                && disk.lock.Some? && disk.lock.value.identity == identity)
  {
    var later := Perform(disk, call, now, fault).disk;
    if disk.lock.Some? && disk.lock.value.identity == identity {
      if call.RenameToClaim? && fault == NoFault {
        assert later.claims[call.claim].identity == identity;
      }
    } else {
      var c :| c in disk.claims && disk.claims[c].identity == identity;
      assert c in later.claims ==> later.claims[c] == disk.claims[c];
    }
  }

  /**
    A holder whose directory no longer exists, and which has not already
    received the reply that confirms its last write.
   */
  ghost predicate Fenced(s: Sys, p: nat) {
    Holds(s, p) && Destroyed(s.disk, s.agents[p].holder.value.identity) && !Confirmed(s.agents[p])
  }

  ghost predicate Confirmed(a: Agent)
    requires a.holder.Some?
  {
    a.pulse.Rereading? && a.pulseReply == Some(Seen(Dir(a.holder.value.identity, a.pulse.written)))
  }

  /** What a fenced holder can still do: lose the lock, never refresh it. */
  ghost predicate NoBetter(before: Holder, after: Holder) {
    && SameLock(before, after)
    && after.lastUpdateMs == before.lastUpdateMs
    && before.alarms <= after.alarms
    && (before.status != Active ==> after.status != Active && after.alarms == before.alarms)
  }

  lemma FencedStep(s: Sys, l: Label, p: nat)
    requires Sound(s) && Enabled(s, l) && Fenced(s, p)
    ensures Fenced(Next(s, l), p)
    ensures NoBetter(s.agents[p].holder.value, Next(s, l).agents[p].holder.value)
  {
    if l.Tick? {
      return;
    }
    var a, t := s.agents[p], Next(s, l);
    var h := a.holder.value;
    assert AgentSound(a, s.disk, s.nextClaim);
    assert Destroyed(t.disk, h.identity) by {
      if l.MainCall? {
        DestroyedStays(s.disk, CallOf(s.agents[l.agent].main).value, s.now, l.fault, h.identity);
      } else if l.PulseCall? {
        DestroyedStays(s.disk, PulseCallOf(s.agents[l.agent].pulse).value, s.now, l.fault, h.identity);
      }
    }
    if l.agent == p {
      if l.MainResume? {
        ResumedHolder(a, s.disk.nextIdentity, s.now, s.nextClaim);
      } else if l.PulseResume? {
        RefreshIfActive(h, a.pulse, a.pulseReply.value, s.now);
      }
    }
  }

  lemma RefreshIfActive(h: Holder, pulse: Pulse, outcome: Outcome, now: int)
    requires HolderOk(h, pulse) && pulse != Quiet
    requires !(pulse.Rereading? && outcome == Seen(Dir(h.identity, pulse.written)))
    ensures NoBetter(h, Replied(h, pulse, outcome, now).holder)
  {
    if h.status == Active {
      RefreshNeedsConfirmation(h, pulse, outcome, now);
    }
    RepliedKeepsHolder(h, pulse, outcome, now);
  }

  /** Once fenced, a holder is fenced for the rest of the run and never refreshes. */
  lemma {:induction false} FencedForever(s: Sys, ls: seq<Label>, p: nat)
    requires Sound(s) && Possible(s, ls) && Fenced(s, p)
    ensures Fenced(Run(s, ls), p)
    ensures NoBetter(s.agents[p].holder.value, Run(s, ls).agents[p].holder.value)
    decreases |ls|
  {
    if ls != [] {
      SoundStep(s, ls[0]);
      FencedStep(s, ls[0], p);
      FencedForever(Next(s, ls[0]), ls[1..], p);
    }
  }

  /** The reply is the one a successful call gives. */
  predicate Answers(pulse: Pulse, outcome: Outcome) {
    if pulse.Writing? then outcome == Done else outcome.Seen?
  }

  /**
    A heartbeat of a fenced holder ends in a compromised lock, unless its call
    failed for another reason and the last confirmation is still recent.
   */
  lemma FencedHeartbeatCompromises(s: Sys, p: nat)
    requires Sound(s) && Fenced(s, p) && ActiveIn(s, p) && Enabled(s, PulseResume(p))
    requires Next(s, PulseResume(p)).agents[p].pulse == Quiet
    ensures var a := s.agents[p];
            var h := Next(s, PulseResume(p)).agents[p].holder.value;
            || (h.status == Compromised && h.alarms == 1)
            || (!Answers(a.pulse, a.pulseReply.value) && a.pulseReply.value != NotFound
                && s.now <= a.holder.value.lastUpdateMs + a.holder.value.staleMs)
  {
    var a := s.agents[p];
    assert AgentSound(a, s.disk, s.nextClaim);
    HeartbeatVerdict(a.holder.value, a.pulse, a.pulseReply.value, s.now);
  }

  /** A successful reclaim destroys the directory it observed, for good. */
  lemma ReclaimDestroys(s0: Sys, ls: seq<Label>, q: nat)
    requires Initial(s0) && Possible(s0, ls) && Enabled(Run(s0, ls), MainCall(q, NoFault))
    requires Run(s0, ls).agents[q].main.Discarding?
    ensures var s := Run(s0, ls); var t := Next(s, MainCall(q, NoFault));
            && Destroyed(t.disk, s.agents[q].main.observed.identity)
            && t.agents[q].reply == Some(Done)
            && t.disk.lock == s.disk.lock
  {
    InitialIsSound(s0);
    SoundRun(s0, ls);
    var s := Run(s0, ls);
    assert AgentSound(s.agents[q], s.disk, s.nextClaim);
  }

  /**
    Fencing by reclaim: from the moment a contender has removed a stale
    directory, the holder that carries its identity never again refreshes
    lastUpdateMs, in any continuation of the run.
   */
  lemma ReclaimFencesHolder(s0: Sys, ls: seq<Label>, q: nat, rest: seq<Label>, p: nat)
    requires Initial(s0) && Possible(s0, ls) && Enabled(Run(s0, ls), MainCall(q, NoFault))
    requires Run(s0, ls).agents[q].main.Discarding?
    requires Possible(Next(Run(s0, ls), MainCall(q, NoFault)), rest)
    requires Holds(Run(s0, ls), p) && !Confirmed(Run(s0, ls).agents[p])
    requires Run(s0, ls).agents[p].holder.value.identity == Run(s0, ls).agents[q].main.observed.identity
    ensures var t := Run(Next(Run(s0, ls), MainCall(q, NoFault)), rest);
            Fenced(t, p) && NoBetter(Run(s0, ls).agents[p].holder.value, t.agents[p].holder.value)
  {
    ReclaimDestroys(s0, ls, q);
    InitialIsSound(s0);
    SoundRun(s0, ls);
    var s := Run(s0, ls);
    SoundStep(s, MainCall(q, NoFault));
    FencedForever(Next(s, MainCall(q, NoFault)), rest, p);
  }

  /** The reply to a stat of the heartbeat says that another directory, or none, is at the lock path. */
  predicate SawOther(a: Agent) {
    && a.holder.Some? && (a.pulse.Reading? || a.pulse.Rereading?) && a.pulseReply.Some?
    && (a.pulseReply.value == NotFound
        || (a.pulseReply.value.Seen? && a.pulseReply.value.dir.identity != a.holder.value.identity))
  }

  /** The holder has lost the lock, or is about to learn that it has. */
  ghost predicate Losing(s: Sys, p: nat) {
    Holds(s, p) && (SawOther(s.agents[p]) || s.agents[p].holder.value.status != Active)
  }

  lemma LosingStep(s: Sys, l: Label, p: nat)
    requires Sound(s) && Enabled(s, l) && Losing(s, p)
    ensures Losing(Next(s, l), p)
    ensures NoBetter(s.agents[p].holder.value, Next(s, l).agents[p].holder.value)
    ensures l == PulseResume(p) ==> !ActiveIn(Next(s, l), p)
    ensures l != PulseResume(p) && SawOther(s.agents[p]) ==> SawOther(Next(s, l).agents[p])
  {
    var a := s.agents[p];
    assert AgentSound(a, s.disk, s.nextClaim);
    if !l.Tick? && l.agent == p {
      if l.MainResume? {
        ResumedHolder(a, s.disk.nextIdentity, s.now, s.nextClaim);
      } else if l.PulseResume? && SawOther(a) {
        RefreshIfActive(a.holder.value, a.pulse, a.pulseReply.value, s.now);
      }
    }
  }

  lemma {:induction false} LosingRun(s: Sys, ls: seq<Label>, p: nat)
    requires Sound(s) && Possible(s, ls) && Losing(s, p)
    ensures Losing(Run(s, ls), p)
    ensures NoBetter(s.agents[p].holder.value, Run(s, ls).agents[p].holder.value)
    ensures !ActiveIn(s, p) || PulseResume(p) in ls ==> !ActiveIn(Run(s, ls), p)
    ensures SawOther(s.agents[p]) && PulseResume(p) !in ls ==> SawOther(Run(s, ls).agents[p])
    decreases |ls|
  {
    if ls != [] {
      SoundStep(s, ls[0]);
      LosingStep(s, ls[0], p);
      LosingRun(Next(s, ls[0]), ls[1..], p);
    }
  }

  lemma StatSeesOther(s: Sys, p: nat)
    requires Sound(s) && Enabled(s, PulseCall(p, NoFault)) && Holds(s, p) && !s.agents[p].pulse.Writing?
    requires !AtLock(s.disk, s.agents[p].holder.value.identity)
    ensures Holds(Next(s, PulseCall(p, NoFault)), p) && SawOther(Next(s, PulseCall(p, NoFault)).agents[p])
    ensures Next(s, PulseCall(p, NoFault)).agents[p].holder == s.agents[p].holder
  {
  }

  /**
    Detection in every run: once a stat of a heartbeat is made while the holder's directory is
    not at the lock path (destroyed, claimed by a reclaim, or parked by a removal), the lock is
    lost when that heartbeat resumes, whatever happens before and after, even if the directory
    is put back; and until then lastUpdateMs is not refreshed.
   */
  lemma DisplacedHeartbeatLosesLock(s0: Sys, ls: seq<Label>, p: nat, rest: seq<Label>)
    requires Initial(s0) && Possible(s0, ls) && Enabled(Run(s0, ls), PulseCall(p, NoFault))
    requires Holds(Run(s0, ls), p) && !Run(s0, ls).agents[p].pulse.Writing?
    requires !AtLock(Run(s0, ls).disk, Run(s0, ls).agents[p].holder.value.identity)
    requires Possible(Next(Run(s0, ls), PulseCall(p, NoFault)), rest)
    ensures var s, t := Run(s0, ls), Run(Next(Run(s0, ls), PulseCall(p, NoFault)), rest);
            && Holds(t, p) && NoBetter(s.agents[p].holder.value, t.agents[p].holder.value)
            && (PulseResume(p) !in rest ==> Enabled(t, PulseResume(p)))
            && (PulseResume(p) in rest ==>
                  && t.agents[p].holder.value.status != Active
                  && (t.agents[p].holder.value.alarms == 1 || t.agents[p].holder.value.status == Released))
  {
    InitialIsSound(s0);
    SoundRun(s0, ls);
    var s := Run(s0, ls);
    var called := Next(s, PulseCall(p, NoFault));
    StatSeesOther(s, p);
    SoundStep(s, PulseCall(p, NoFault));
    LosingRun(called, rest, p);
    SoundRun(called, rest);
    var t := Run(called, rest);
    assert AgentSound(t.agents[p], t.disk, t.nextClaim);
  }

  /** A compromised lock is never active again and raises no second alarm. */
  lemma {:induction false} CompromisedForever(s: Sys, ls: seq<Label>, p: nat)
    requires Sound(s) && Possible(s, ls) && Holds(s, p) && s.agents[p].holder.value.alarms == 1
    ensures Holds(Run(s, ls), p)
    ensures !ActiveIn(Run(s, ls), p) && Run(s, ls).agents[p].holder.value.alarms == 1
    decreases |ls|
  {
    assert AgentSound(s.agents[p], s.disk, s.nextClaim);
    if ls != [] {
      var l := ls[0];
      if !l.Tick? && l.agent == p && l.MainResume? {
        ResumedHolder(s.agents[p], s.disk.nextIdentity, s.now, s.nextClaim);
      }
      SoundStep(s, l);
      CompromisedForever(Next(s, l), ls[1..], p);
    }
  }
}
