/**
  Mutual exclusion, in runs where no contender judges the directory stale: at
  most one agent holds the lock, its directory stays at the lock path, and an
  undisturbed heartbeat never raises a false alarm. The same across hand-overs by
  reclaim of directories that nobody owns, and what exactly takes a directory away.
 */
module LockExclusion {
  import opened Wrappers
  import opened LockFiles
  import opened LockHolder
  import opened LockProtocol
  import opened LockSafety

  // ----- at most one holder -----

  /** The step is not a contender's decision to reclaim a stale directory. */
  ghost predicate NoReclaim(s: Sys, l: Label) {
    !(l.MainResume? && l.agent in s.agents && JudgesStale(s.agents[l.agent], s.now))
  }

  /** From the moment mkdir succeeded until the directory is renamed away or abandoned. */
  predicate Occupies(a: Agent) {
    match a.main
    case Creating => a.reply == Some(Done)
    case Recreating => a.reply == Some(Done)
    case Claiming(_, _, _) => a.reply != Some(Done)
    case Identifying => true
    case Probing(_, _) => true
    case Confirming(_) => true
    case Holding => true
    case Draining(_) => true
    case Verifying(_, _) => true
    case RetireChecking => true
    case Retiring(_) => true
    case _ => false
  }

  predicate Reclaims(main: Main) {
    main.Stealing? || main.CheckingClaim? || main.Discarding?
  }

  ghost predicate Orderly(s: Sys) {
    && Sound(s)
    && (forall p <- s.agents :: !Reclaims(s.agents[p].main))
    && (forall p <- s.agents :: Occupies(s.agents[p]) ==> s.disk.lock.Some?)
    && (forall p <- s.agents, q <- s.agents :: Occupies(s.agents[p]) && Occupies(s.agents[q]) ==> p == q)
  }

  lemma ResumeOccupiesLess(a: Agent, now: int, claim: nat)
    requires a.reply.Some? && !Reclaims(a.main) && !JudgesStale(a, now)
    ensures Occupies(Resumed(a, now, claim)) ==> Occupies(a)
    ensures !Reclaims(Resumed(a, now, claim).main)
  {
  }

  lemma LocalOccupiesLess(a: Agent, l: Label, now: int, claim: nat)
    requires !l.Tick? && !l.MainCall? && !l.PulseCall? && AgentEnabled(a, l)
    requires a.reply.Some? ==> CallOf(a.main).Some?
    requires !Reclaims(a.main) && !(l.MainResume? && JudgesStale(a, now))
    ensures var b := Moved(a, l, now, claim, Done);
            !Reclaims(b.main) && (Occupies(b) ==> Occupies(a))
  {
    if l.MainResume? { ResumeOccupiesLess(a, now, claim); }
  }

  /** One call: only mkdir on a free path adds an occupant, only the occupant's rename frees it. */
  lemma CallOccupies(a: Agent, disk: Disk, now: int, fault: Fault)
    requires a.reply.None? && CallOf(a.main).Some? && !Reclaims(a.main)
    ensures var e := Perform(disk, CallOf(a.main).value, now, fault);
            var b := a.(reply := Some(e.outcome));
            && (Occupies(b) ==> Occupies(a) || (disk.lock.None? && e.disk.lock.Some?))
            && (disk.lock.Some? && e.disk.lock.None? ==> Occupies(a) && !Occupies(b))
  {
  }

  lemma OwnOccupies(s: Sys, l: Label)
    requires Orderly(s) && Enabled(s, l) && NoReclaim(s, l) && !l.Tick?
    ensures var a, t := s.agents[l.agent], Next(s, l); var b := t.agents[l.agent];
            && !Reclaims(b.main)
            && (Occupies(b) ==> t.disk.lock.Some? && (Occupies(a) || s.disk.lock.None?))
            && (s.disk.lock.Some? && t.disk.lock.None? ==> Occupies(a) && !Occupies(b))
  {
    var a := s.agents[l.agent];
    assert AgentSound(a, s.disk, s.nextClaim);
    if l.MainCall? {
      CallOccupies(a, s.disk, s.now, l.fault);
    } else if !l.PulseCall? {
      LocalOccupiesLess(a, l, s.now, s.nextClaim);
    }
  }

  lemma OrderlyStep(s: Sys, l: Label)
    requires Orderly(s) && Enabled(s, l) && NoReclaim(s, l)
    ensures Orderly(Next(s, l))
  {
    SoundStep(s, l);
    if l.Tick? {
      return;
    }
    OwnOccupies(s, l);
    var t := Next(s, l);
    forall p | p in t.agents && p != l.agent ensures t.agents[p] == s.agents[p] && p in s.agents {}
    if Occupies(t.agents[l.agent]) && s.disk.lock.None? {
      assert forall q <- s.agents :: !Occupies(s.agents[q]);
    }
  }

  lemma {:induction false} OrderlyRun(s: Sys, ls: seq<Label>)
    requires Orderly(s) && Possible(s, ls) && Throughout(s, ls, NoReclaim)
    ensures Orderly(Run(s, ls))
    decreases |ls|
  {
    if ls != [] {
      OrderlyStep(s, ls[0]);
      OrderlyRun(Next(s, ls[0]), ls[1..]);
    }
  }

  /**
    In every interleaving without a stale reclaim, failing calls and restoring
    renames included, no two agents hold the lock at once: not even one that
    still initializes, drains or removes it.
   */
  lemma ExclusionWithoutReclaim(s: Sys, ls: seq<Label>, p: nat, q: nat)
    requires Initial(s) && Possible(s, ls) && Throughout(s, ls, NoReclaim)
    requires ActiveIn(Run(s, ls), p) && q in Run(s, ls).agents && Occupies(Run(s, ls).agents[q])
    ensures p == q
  {
    InitialIsSound(s);
    OrderlyRun(s, ls);
    var t := Run(s, ls);
    assert AgentSound(t.agents[p], t.disk, t.nextClaim);
  }

  // ----- hand-over by reclaim -----

  /** Like Occupies, but an agent that has released its lock and only retires the directory owns nothing. */
  predicate Owns(a: Agent) {
    Occupies(a) && !a.main.RetireChecking? && !a.main.Retiring?
  }

  /** A reclaim's rename about to move the directory at the lock path. */
  ghost predicate Steals(s: Sys, l: Label) {
    l.MainCall? && l.fault == NoFault && l.agent in s.agents && s.agents[l.agent].main.Stealing? && s.disk.lock.Some?
  }

  /** If the step is a reclaim's rename, it moves a directory that nobody owns. */
  ghost predicate ReclaimsUnowned(s: Sys, l: Label) {
    Steals(s, l) ==> forall q <- s.agents :: !Owns(s.agents[q])
  }

  ghost predicate OwnedOnce(s: Sys) {
    && Sound(s)
    && (forall p <- s.agents :: Owns(s.agents[p]) ==> s.disk.lock.Some?)
    && (forall p <- s.agents, q <- s.agents :: Owns(s.agents[p]) && Owns(s.agents[q]) ==> p == q)
  }

  lemma ResumeOwnsLess(a: Agent, now: int, claim: nat)
    requires a.reply.Some?
    ensures Owns(Resumed(a, now, claim)) ==> Owns(a)
  {
  }

  lemma LocalOwnsLess(a: Agent, l: Label, now: int, claim: nat)
    requires !l.Tick? && !l.MainCall? && !l.PulseCall? && AgentEnabled(a, l)
    requires a.reply.Some? ==> CallOf(a.main).Some?
    ensures Owns(Moved(a, l, now, claim, Done)) ==> Owns(a)
  {
    if l.MainResume? { ResumeOwnsLess(a, now, claim); }
  }

  /** Only mkdir on a free path adds an owner; only the owner's rename and a reclaim free the path. */
  lemma CallOwns(a: Agent, disk: Disk, now: int, fault: Fault)
    requires a.reply.None? && CallOf(a.main).Some?
    ensures var e := Perform(disk, CallOf(a.main).value, now, fault);
            var b := a.(reply := Some(e.outcome));
            && (Owns(b) ==> Owns(a) || (disk.lock.None? && e.disk.lock.Some?))
            && (disk.lock.Some? && e.disk.lock.None? ==>
                  (Owns(a) && !Owns(b)) || (a.main.Stealing? && fault == NoFault))
  {
  }

  /** A step that makes the directory at a free lock path. */
  ghost predicate Makes(s: Sys, l: Label) {
    l.MainCall? && l.fault == NoFault && l.agent in s.agents && s.disk.lock.None?
    && (s.agents[l.agent].main == Creating || s.agents[l.agent].main == Recreating)
  }

  ghost predicate SoleOwner(s: Sys) {
    forall p <- s.agents, q <- s.agents :: Owns(s.agents[p]) && Owns(s.agents[q]) ==> p == q
  }

  lemma WhoBecomesOwner(s: Sys, l: Label)
    requires Sound(s) && Enabled(s, l) && !l.Tick?
    ensures !Owns(s.agents[l.agent]) && Owns(Next(s, l).agents[l.agent]) <==> Makes(s, l)
  {
    var a := s.agents[l.agent];
    assert AgentSound(a, s.disk, s.nextClaim);
    if !l.MainCall? && !l.PulseCall? { LocalOwnsLess(a, l, s.now, s.nextClaim); }
  }

  lemma OwnersAfter(s: Sys, l: Label)
    requires Sound(s) && Enabled(s, l) && SoleOwner(s)
    ensures !SoleOwner(Next(s, l)) <==> Makes(s, l) && exists q <- s.agents :: Owns(s.agents[q])
  {
    if l.Tick? {
      return;
    }
    var t := Next(s, l);
    WhoBecomesOwner(s, l);
    assert t.agents == s.agents[l.agent := t.agents[l.agent]];
    if Makes(s, l) && exists q <- s.agents :: Owns(s.agents[q]) {
      var q :| q in s.agents && Owns(s.agents[q]);
      assert Owns(t.agents[q]) && Owns(t.agents[l.agent]);
    }
  }

  /**
    Exactly when the lock gets a second owner, in any run: somebody makes the directory while the
    owner's is away from the lock path.
   */
  lemma SecondOwnerArises(s0: Sys, ls: seq<Label>, l: Label)
    requires Initial(s0) && Possible(s0, ls) && Enabled(Run(s0, ls), l) && SoleOwner(Run(s0, ls))
    ensures var s := Run(s0, ls);
            !SoleOwner(Next(s, l)) <==> Makes(s, l) && exists q <- s.agents :: Owns(s.agents[q])
  {
    InitialIsSound(s0);
    SoundRun(s0, ls);
    OwnersAfter(Run(s0, ls), l);
  }

  lemma OwnerMoves(s: Sys, l: Label)
    requires OwnedOnce(s) && Enabled(s, l) && !l.Tick?
    ensures var a, t := s.agents[l.agent], Next(s, l); var b := t.agents[l.agent];
            && (Owns(b) ==> t.disk.lock.Some? && (Owns(a) || s.disk.lock.None?))
            && (s.disk.lock.Some? && t.disk.lock.None? ==> Steals(s, l) || (Owns(a) && !Owns(b)))
  {
    var a := s.agents[l.agent];
    assert AgentSound(a, s.disk, s.nextClaim);
    if l.MainCall? {
      CallOwns(a, s.disk, s.now, l.fault);
    } else if !l.PulseCall? {
      LocalOwnsLess(a, l, s.now, s.nextClaim);
    }
  }

  lemma OwnedStep(s: Sys, l: Label)
    requires OwnedOnce(s) && Enabled(s, l) && ReclaimsUnowned(s, l)
    ensures OwnedOnce(Next(s, l))
  {
    SoundStep(s, l);
    if l.Tick? {
      return;
    }
    OwnerMoves(s, l);
    var t := Next(s, l);
    assert t.agents == s.agents[l.agent := t.agents[l.agent]];
  }

  lemma {:induction false} OwnedRun(s: Sys, ls: seq<Label>)
    requires OwnedOnce(s) && Possible(s, ls) && Throughout(s, ls, ReclaimsUnowned)
    ensures OwnedOnce(Run(s, ls))
    decreases |ls|
  {
    if ls != [] {
      OwnedStep(s, ls[0]);
      OwnedRun(Next(s, ls[0]), ls[1..]);
    }
  }

  /**
    Exclusion with hand-over: in every interleaving in which reclaims move only directories that
    nobody owns, as a retired or an orphaned one, no two agents own the lock at once.
   */
  lemma ExclusionAcrossHandOvers(s: Sys, ls: seq<Label>, p: nat, q: nat)
    requires Initial(s) && Possible(s, ls) && Throughout(s, ls, ReclaimsUnowned)
    requires ActiveIn(Run(s, ls), p) && q in Run(s, ls).agents && Owns(Run(s, ls).agents[q])
    ensures p == q
  {
    InitialIsSound(s);
    OwnedRun(s, ls);
    var t := Run(s, ls);
    assert AgentSound(t.agents[p], t.disk, t.nextClaim);
  }

  /** A retiring agent, which owns nothing, writes its time on the directory of an owner. */
  ghost predicate StrayRetire(s: Sys, l: Label) {
    && l.MainCall? && l.fault == NoFault && l.agent in s.agents && s.agents[l.agent].main.Retiring?
    && exists q <- s.agents :: Owns(s.agents[q])
  }

  /**
    Whatever else is asked of a run without stale reclaims: its reclaims move nothing that is owned,
    and nobody retires the directory of another.
   */
  lemma {:induction false} NoReclaimIsUnowned(s: Sys, ls: seq<Label>, P: (Sys, Label) -> bool, Q: (Sys, Label) -> bool)
    requires Orderly(s) && Possible(s, ls) && Throughout(s, ls, P)
    requires forall t, l :: P(t, l) ==> NoReclaim(t, l)
    requires forall t, l :: P(t, l) && ReclaimsUnowned(t, l) && !StrayRetire(t, l) ==> Q(t, l)
    ensures Throughout(s, ls, Q)
    decreases |ls|
  {
    if ls != [] {
      OrderlyStep(s, ls[0]);
      NoReclaimIsUnowned(Next(s, ls[0]), ls[1..], P, Q);
    }
  }

  // ----- the directory stays with its holder -----

  /** A restoring rename takes effect, whatever stands at the lock path. */
  ghost predicate LandsRestore(s: Sys, l: Label) {
    l.MainCall? && l.fault == NoFault && l.agent in s.agents
    && s.agents[l.agent].main.Restoring? && s.agents[l.agent].main.claim in s.disk.claims
  }

  /** Reclaims move nothing that is owned, and no restoring rename lands. */
  ghost predicate Peaceful(s: Sys, l: Label) {
    ReclaimsUnowned(s, l) && !LandsRestore(s, l)
  }

  predicate SeesLock(reply: Option<Outcome>, disk: Disk) {
    reply.Some? && reply.value.Seen? ==> AtLock(disk, reply.value.dir.identity)
  }

  /** The directory an owner has made is the one at the lock path. */
  ghost predicate Stays(a: Agent, disk: Disk) {
    match a.main
    case Identifying => SeesLock(a.reply, disk)
    case Probing(identity, _) => AtLock(disk, identity)
    case Confirming(identity) => AtLock(disk, identity)
    case Verifying(identity, _) => AtLock(disk, identity)
    case Claiming(identity, _, _) => a.reply != Some(Done) ==> AtLock(disk, identity)
    case Holding => a.holder.Some? && AtLock(disk, a.holder.value.identity)
    case Draining(_) => a.holder.Some? && AtLock(disk, a.holder.value.identity)
    case _ => true
  }

  ghost predicate AllStay(s: Sys) {
    OwnedOnce(s) && forall p <- s.agents :: Stays(s.agents[p], s.disk)
  }

  lemma ResumeStays(a: Agent, disk: Disk, now: int, claim: nat)
    requires AgentSound(a, disk, claim) && a.reply.Some? && Stays(a, disk)
    ensures Stays(Resumed(a, now, claim), disk)
  {
  }

  lemma CallStays(a: Agent, disk: Disk, now: int, fault: Fault)
    requires a.reply.None? && CallOf(a.main).Some? && Stays(a, disk)
    ensures var e := Perform(disk, CallOf(a.main).value, now, fault);
            Stays(a.(reply := Some(e.outcome)), e.disk)
  {
  }

  lemma OwnStays(s: Sys, l: Label)
    requires AllStay(s) && Enabled(s, l) && !l.Tick?
    ensures Stays(Next(s, l).agents[l.agent], Next(s, l).disk)
  {
    var a := s.agents[l.agent];
    assert AgentSound(a, s.disk, s.nextClaim) && Stays(a, s.disk);
    match l {
      case MainResume(_) => ResumeStays(a, s.disk, s.now, s.nextClaim);
      case MainCall(_, fault) => CallStays(a, s.disk, s.now, fault);
      case PulseResume(_) => RepliedKeepsHolder(a.holder.value, a.pulse, a.pulseReply.value, s.now);
      case _ =>
    }
  }

  /** A call of an agent that owns nothing can only touch the time of the directory at the lock path. */
  lemma CallLeavesLock(a: Agent, disk: Disk, now: int, fault: Fault)
    requires a.reply.None? && CallOf(a.main).Some? && !Owns(a) && disk.lock.Some?
    requires a.main.Stealing? ==> fault != NoFault
    requires a.main.Restoring? ==> fault != NoFault || a.main.claim !in disk.claims
    ensures AtLock(Perform(disk, CallOf(a.main).value, now, fault).disk, disk.lock.value.identity)
    ensures !(a.main.Retiring? && fault == NoFault) ==>
              Perform(disk, CallOf(a.main).value, now, fault).disk.lock == disk.lock
  {
  }

  lemma OthersSeeLock(s: Sys, l: Label, q: nat)
    requires OwnedOnce(s) && Enabled(s, l) && Peaceful(s, l) && !l.Tick?
    requires q in s.agents && q != l.agent && Owns(s.agents[q])
    ensures s.disk.lock.Some? && AtLock(Next(s, l).disk, s.disk.lock.value.identity)
    ensures !StrayRetire(s, l) ==> Next(s, l).disk.lock == s.disk.lock
  {
    var a := s.agents[l.agent];
    assert AgentSound(a, s.disk, s.nextClaim);
    assert !Owns(a) && a.pulse == Quiet && s.disk.lock.Some?;
    if l.MainCall? {
      CallLeavesLock(a, s.disk, s.now, l.fault);
    }
  }

  /** Who owns nothing knows nothing about what stands at the lock path. */
  lemma BystanderStays(a: Agent, disk: Disk, later: Disk)
    requires Stays(a, disk)
    requires Owns(a) ==> disk.lock.Some? && AtLock(later, disk.lock.value.identity)
    ensures Stays(a, later)
  {
  }

  lemma StaysStep(s: Sys, l: Label)
    requires AllStay(s) && Enabled(s, l) && Peaceful(s, l)
    ensures AllStay(Next(s, l))
  {
    OwnedStep(s, l);
    if l.Tick? {
      return;
    }
    var t := Next(s, l);
    forall q | q in t.agents ensures Stays(t.agents[q], t.disk) {
      if q == l.agent {
        OwnStays(s, l);
      } else {
        if Owns(s.agents[q]) { OthersSeeLock(s, l, q); }
        BystanderStays(s.agents[q], s.disk, t.disk);
      }
    }
  }

  lemma {:induction false} StaysRun(s: Sys, ls: seq<Label>)
    requires AllStay(s) && Possible(s, ls) && Throughout(s, ls, Peaceful)
    ensures AllStay(Run(s, ls))
    decreases |ls|
  {
    if ls != [] {
      StaysStep(s, ls[0]);
      StaysRun(Next(s, ls[0]), ls[1..]);
    }
  }

  /**
    In every interleaving in which reclaims move only what nobody owns and no restoring rename
    lands, the directory at the lock path carries an active holder's identity for as long as it
    is active.
   */
  lemma DirectoryStaysWithHolder(s: Sys, ls: seq<Label>, p: nat)
    requires Initial(s) && Possible(s, ls) && Throughout(s, ls, Peaceful)
    requires ActiveIn(Run(s, ls), p)
    ensures AtLock(Run(s, ls).disk, Run(s, ls).agents[p].holder.value.identity)
  {
    InitialIsSound(s);
    StaysRun(s, ls);
    var t := Run(s, ls);
    assert AgentSound(t.agents[p], t.disk, t.nextClaim) && Stays(t.agents[p], t.disk);
  }

  // ----- no false alarm -----

  /** Peaceful, nobody retires the directory of another, and no call of a heartbeat fails. */
  ghost predicate Undisturbed(s: Sys, l: Label) {
    Peaceful(s, l) && !StrayRetire(s, l) && (l.PulseCall? ==> l.fault == NoFault)
  }

  predicate StandsAtLock(disk: Disk, identity: nat, mtime: int) {
    disk.lock == Some(Dir(identity, mtime))
  }

  /** The probe time survives as written on a millisecond file system, truncated on the other. */
  predicate Probed(disk: Disk) {
    disk.lock.Some? && disk.lock.value.mtime % 1000 == (if disk.wholeSeconds then 0 else 5)
  }

  predicate ReadsLock(reply: Option<Outcome>, disk: Disk) {
    reply.Some? && reply.value.Seen? ==> disk.lock == Some(reply.value.dir)
  }

  ghost predicate MainCarries(a: Agent, disk: Disk) {
    match a.main
    case Identifying => ReadsLock(a.reply, disk)
    case Probing(identity, probe) =>
      AtLock(disk, identity) && probe % 1000 == 5 && (a.reply == Some(Done) ==> Probed(disk))
    case Confirming(identity) => AtLock(disk, identity) && Probed(disk) && ReadsLock(a.reply, disk)
    case Verifying(identity, _) => AtLock(disk, identity)
    case Claiming(identity, _, _) => a.reply != Some(Done) ==> AtLock(disk, identity)
    case Holding => a.holder.Some? && AtLock(disk, a.holder.value.identity)
    case Draining(_) => a.holder.Some? && AtLock(disk, a.holder.value.identity)
    case _ => true
  }

  ghost predicate PulseCarries(h: Holder, pulse: Pulse, reply: Option<Outcome>, disk: Disk) {
    h.status == Active ==>
      && h.wholeSeconds == disk.wholeSeconds
      && reply != Some(NotFound)
      && match pulse
         case Quiet => StandsAtLock(disk, h.identity, h.mtime)
         case Reading => StandsAtLock(disk, h.identity, h.mtime) && ReadsLock(reply, disk)
         case Writing(written) =>
           Stored(disk.wholeSeconds, written) == written
           && StandsAtLock(disk, h.identity, if reply == Some(Done) then written else h.mtime)
         case Rereading(written) => StandsAtLock(disk, h.identity, written) && ReadsLock(reply, disk)
  }

  /** Every reply a heartbeat got is the one a successful call gives. */
  ghost predicate Answered(a: Agent) {
    (a.pulse != Quiet && a.pulseReply.Some? ==> Answers(a.pulse, a.pulseReply.value))
    && (a.holder.Some? ==> a.holder.value.alarms == 0)
  }

  ghost predicate Carries(a: Agent, disk: Disk) {
    MainCarries(a, disk) && (a.holder.Some? ==> PulseCarries(a.holder.value, a.pulse, a.pulseReply, disk))
  }

  ghost predicate Carried(s: Sys) {
    OwnedOnce(s) && forall p <- s.agents :: Carries(s.agents[p], s.disk)
  }

  lemma ResumeCarries(a: Agent, disk: Disk, now: int, claim: nat)
    requires a.reply.Some? && MainCarries(a, disk)
    ensures MainCarries(Resumed(a, now, claim), disk)
  {
  }

  lemma ResumeCarriesPulse(a: Agent, disk: Disk, now: int, claim: nat)
    requires AgentSound(a, disk, claim) && a.reply.Some? && Carries(a, disk)
    ensures var b := Resumed(a, now, claim);
            b.holder.Some? ==> PulseCarries(b.holder.value, b.pulse, b.pulseReply, disk)
    ensures Answered(a) ==> Answered(Resumed(a, now, claim))
  {
    ResumedHolder(a, disk.nextIdentity, now, claim);
  }

  lemma CallCarries(a: Agent, disk: Disk, now: int, claim: nat, fault: Fault)
    requires AgentSound(a, disk, claim) && a.reply.None? && CallOf(a.main).Some?
    requires Carries(a, disk)
    ensures var e := Perform(disk, CallOf(a.main).value, now, fault);
            Carries(a.(reply := Some(e.outcome)), e.disk)
  {
  }

  lemma ReplyCarries(h: Holder, pulse: Pulse, outcome: Outcome, now: int, disk: Disk)
    requires HolderOk(h, pulse) && pulse != Quiet
    requires PulseCarries(h, pulse, Some(outcome), disk)
    ensures var b := Replied(h, pulse, outcome, now);
            && PulseCarries(b.holder, b.pulse, None, disk)
            && (Answers(pulse, outcome) ==> b.holder.alarms == h.alarms)
  {
    CeilSecondWhole(now);
  }

  /** The same for the times an owner knows. */
  lemma BystanderCarries(a: Agent, disk: Disk, later: Disk, claim: nat)
    requires AgentSound(a, disk, claim) && Carries(a, disk)
    requires disk.wholeSeconds == later.wholeSeconds
    requires Owns(a) ==> later.lock == disk.lock
    ensures Carries(a, later)
  {
  }

  lemma OwnCarries(s: Sys, l: Label)
    requires Carried(s) && Enabled(s, l) && !l.Tick?
    ensures Carries(Next(s, l).agents[l.agent], Next(s, l).disk)
  {
    var a := s.agents[l.agent];
    assert AgentSound(a, s.disk, s.nextClaim) && Carries(a, s.disk);
    match l {
      case MainCall(_, fault) => CallCarries(a, s.disk, s.now, s.nextClaim, fault);
      case PulseCall(_, fault) => PulseCallCarries(a, s.disk, s.now, s.nextClaim, fault);
      case _ => LocalCarries(a, l, s.disk, s.now, s.nextClaim);
    }
  }

  /** The steps that make no call. */
  lemma LocalCarries(a: Agent, l: Label, disk: Disk, now: int, claim: nat)
    requires AgentSound(a, disk, claim) && Carries(a, disk)
    requires !l.Tick? && !l.MainCall? && !l.PulseCall?
    requires AgentEnabled(a, l)
    ensures Carries(Moved(a, l, now, claim, Done), disk)
  {
    if l.MainResume? {
      ResumeCarries(a, disk, now, claim);
      ResumeCarriesPulse(a, disk, now, claim);
    } else if l.PulseResume? {
      ReplyCarries(a.holder.value, a.pulse, a.pulseReply.value, now, disk);
    }
  }

  lemma PulseCallCarries(a: Agent, disk: Disk, now: int, claim: nat, fault: Fault)
    requires AgentSound(a, disk, claim) && Carries(a, disk) && a.pulseReply.None? && a.pulse != Quiet
    ensures var e := Perform(disk, PulseCallOf(a.pulse).value, now, fault);
            Carries(a.(pulseReply := Some(e.outcome)), e.disk)
    ensures var e := Perform(disk, PulseCallOf(a.pulse).value, now, fault);
            fault == NoFault ==> Answers(a.pulse, e.outcome)
  {
  }

  lemma SameKind(s: Sys, l: Label)
    requires Enabled(s, l)
    ensures Next(s, l).disk.wholeSeconds == s.disk.wholeSeconds
  {
  }

  lemma OthersCarry(s: Sys, l: Label, q: nat)
    requires Carried(s) && Enabled(s, l) && Peaceful(s, l) && !StrayRetire(s, l) && !l.Tick?
    requires q in s.agents && q != l.agent
    ensures Carries(s.agents[q], Next(s, l).disk)
  {
    if Owns(s.agents[q]) {
      OthersSeeLock(s, l, q);
    }
    SameKind(s, l);
    BystanderCarries(s.agents[q], s.disk, Next(s, l).disk, s.nextClaim);
  }

  lemma CarriedStep(s: Sys, l: Label)
    requires Carried(s) && Enabled(s, l) && Peaceful(s, l) && !StrayRetire(s, l)
    ensures Carried(Next(s, l))
  {
    OwnedStep(s, l);
    if l.Tick? {
      return;
    }
    var t := Next(s, l);
    forall q | q in t.agents ensures Carries(t.agents[q], t.disk) {
      if q == l.agent { OwnCarries(s, l); } else { OthersCarry(s, l, q); }
    }
  }

  lemma AnsweredStep(s: Sys, l: Label, p: nat)
    requires Carried(s) && Enabled(s, l) && Undisturbed(s, l)
    requires p in s.agents && Answered(s.agents[p])
    ensures p in Next(s, l).agents && Answered(Next(s, l).agents[p])
  {
    if l.Tick? || l.agent != p {
      return;
    }
    var a := s.agents[p];
    assert AgentSound(a, s.disk, s.nextClaim) && Carries(a, s.disk);
    match l {
      case MainResume(_) => ResumeCarriesPulse(a, s.disk, s.now, s.nextClaim);
      case PulseResume(_) => ReplyCarries(a.holder.value, a.pulse, a.pulseReply.value, s.now, s.disk);
      case PulseCall(_, fault) => PulseCallCarries(a, s.disk, s.now, s.nextClaim, fault);
      case _ =>
    }
  }

  lemma {:induction false} AnsweredRun(s: Sys, ls: seq<Label>, p: nat)
    requires Carried(s) && Possible(s, ls) && Throughout(s, ls, Undisturbed)
    requires p in s.agents && Answered(s.agents[p])
    ensures p in Run(s, ls).agents && Answered(Run(s, ls).agents[p])
    decreases |ls|
  {
    if ls != [] {
      AnsweredStep(s, ls[0], p);
      CarriedStep(s, ls[0]);
      AnsweredRun(Next(s, ls[0]), ls[1..], p);
    }
  }

  /**
    No false alarm: in interleavings in which moreover nobody retires the directory
    of another and no call of a heartbeat fails, no holder is ever compromised, on
    either kind of file system and however late the heartbeats run.
   */
  lemma UndisturbedHolderIsNeverCompromised(s: Sys, ls: seq<Label>, p: nat)
    requires Initial(s) && Possible(s, ls) && Throughout(s, ls, Undisturbed) && p in s.agents
    ensures Holds(Run(s, ls), p) ==> Run(s, ls).agents[p].holder.value.status != Compromised
  {
    InitialIsSound(s);
    AnsweredRun(s, ls, p);
    CarriedUndisturbed(s, ls);
    var t := Run(s, ls);
    assert AgentSound(t.agents[p], t.disk, t.nextClaim);
  }

  lemma {:induction false} CarriedUndisturbed(s: Sys, ls: seq<Label>)
    requires Possible(s, ls) && Carried(s) && Throughout(s, ls, Undisturbed)
    ensures Carried(Run(s, ls))
    decreases |ls|
  {
    if ls != [] {
      CarriedStep(s, ls[0]);
      CarriedUndisturbed(Next(s, ls[0]), ls[1..]);
    }
  }

  // ----- what takes the directory away -----

  /** A removal's rename about to move the directory at the lock path. */
  ghost predicate Removes(s: Sys, l: Label) {
    l.MainCall? && l.fault == NoFault && l.agent in s.agents && s.agents[l.agent].main.Claiming?
  }

  lemma CallDisplaces(disk: Disk, call: Call, now: int, fault: Fault, identity: nat)
    requires DistinctIdentities(disk) && AtLock(disk, identity)
    ensures var later := Perform(disk, call, now, fault).disk;
            var lands := call.RenameToLock? && call.claim in disk.claims;
            && (AtLock(later, identity) <==> fault != NoFault || !(call.RenameToClaim? || lands))
            && (fault == NoFault && lands ==> Destroyed(later, identity))
  {
  }

  lemma DisplacingStep(s: Sys, l: Label, identity: nat)
    requires Sound(s) && Enabled(s, l) && AtLock(s.disk, identity)
    ensures AtLock(Next(s, l).disk, identity) <==> !(Steals(s, l) || Removes(s, l) || LandsRestore(s, l))
    ensures LandsRestore(s, l) ==> Destroyed(Next(s, l).disk, identity)
  {
    match l {
      case MainCall(q, fault) => CallDisplaces(s.disk, CallOf(s.agents[q].main).value, s.now, fault, identity);
      case PulseCall(q, fault) => CallDisplaces(s.disk, PulseCallOf(s.agents[q].pulse).value, s.now, fault, identity);
      case _ =>
    }
  }

  /**
    In every run, exactly three steps take the directory from an active holder: the renames of a
    reclaim and of a removal, and a restoring rename that lands, which destroys it.
   */
  lemma WhatDisplaces(s0: Sys, ls: seq<Label>, l: Label, p: nat)
    requires Initial(s0) && Possible(s0, ls) && Enabled(Run(s0, ls), l) && ActiveIn(Run(s0, ls), p)
    requires AtLock(Run(s0, ls).disk, Run(s0, ls).agents[p].holder.value.identity)
    ensures var s := Run(s0, ls); var identity := s.agents[p].holder.value.identity;
            && (AtLock(Next(s, l).disk, identity) <==> !(Steals(s, l) || Removes(s, l) || LandsRestore(s, l)))
            && (LandsRestore(s, l) ==> Destroyed(Next(s, l).disk, identity))
  {
    InitialIsSound(s0);
    SoundRun(s0, ls);
    DisplacingStep(Run(s0, ls), l, Run(s0, ls).agents[p].holder.value.identity);
  }

  /**
    While reclaims move only what nobody owns, a step takes the directory from an active holder
    exactly when it is a restoring rename that lands. The directory is then destroyed, so the
    holder is fenced.
   */
  lemma OnlyRestoreDisplaces(s0: Sys, ls: seq<Label>, l: Label, p: nat)
    requires Initial(s0) && Possible(s0, ls) && Throughout(s0, ls, ReclaimsUnowned)
    requires Enabled(Run(s0, ls), l) && ReclaimsUnowned(Run(s0, ls), l) && ActiveIn(Run(s0, ls), p)
    requires AtLock(Run(s0, ls).disk, Run(s0, ls).agents[p].holder.value.identity)
    ensures var s := Run(s0, ls); var identity := s.agents[p].holder.value.identity;
            && (AtLock(Next(s, l).disk, identity) <==> !LandsRestore(s, l))
            && (LandsRestore(s, l) ==> Destroyed(Next(s, l).disk, identity))
  {
    WhatDisplaces(s0, ls, l, p);
    InitialIsSound(s0);
    OwnedRun(s0, ls);
    var s := Run(s0, ls);
    assert AgentSound(s.agents[p], s.disk, s.nextClaim) && Owns(s.agents[p]);
  }
}
