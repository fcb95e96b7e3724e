/**
  The lock protocol: any number of agents, each running one acquisition with
  its heartbeat, release and retirement, interleave call by call on one lock
  path. A label names who moves; everything the environment decides (the clock,
  a failing call) is in the label, so a run is determined by its labels.
 */
module LockProtocol {
  import opened Wrappers
  import opened LockFiles
  import opened LockHolder

  /** What follows restoreClaim. */
  datatype After = AttemptEnds | CreateAgain | RemovalEnds(exit: Exit)

  /** Why removeLockIfCurrent runs. */
  datatype Exit = InitFailed | LockReleased

  /** Where an agent's main flow is; all but the last five await one call. */
  datatype Main =
    | Creating
    | Inspecting
    | Stealing(observed: Dir, claim: nat)
    | CheckingClaim(observed: Dir, claim: nat)
    | Discarding(observed: Dir, claim: nat)
    | Recreating
    | Identifying
    | Probing(identity: nat, probe: int)
    | Confirming(identity: nat)
    | Verifying(identity: nat, exit: Exit)
    | Claiming(identity: nat, claim: nat, exit: Exit)
    | Matching(identity: nat, claim: nat, exit: Exit)
    | Removing(identity: nat, claim: nat, exit: Exit)
    | Peeking(claim: nat, after: After)
    | Restoring(claim: nat, after: After)
    | RetireChecking
    | Retiring(retiredAt: int)
    | Sleeping
    | Holding
    | Draining(owned: bool)
    | Failed
    | Finished

  datatype Agent = Agent(
    main: Main, reply: Option<Outcome>,
    holder: Option<Holder>, pulse: Pulse, pulseReply: Option<Outcome>,
    staleMs: int, updateMs: int, retries: nat, preserve: bool)

  datatype Sys = Sys(disk: Disk, now: int, nextClaim: nat, agents: map<nat, Agent>)

  datatype Label =
    | Tick(now: int)
    | MainCall(agent: nat, fault: Fault)
    | MainResume(agent: nat)
    | Wake(agent: nat)
    | ReleaseLock(agent: nat)
    | Drain(agent: nat)
    | Fire(agent: nat)
    | PulseCall(agent: nat, fault: Fault)
    | PulseResume(agent: nat)

  // ----- one agent's code between two awaits -----

  function CallOf(main: Main): Option<Call> {
    match main
    case Creating => Some(Mkdir)
    case Recreating => Some(Mkdir)
    case Inspecting => Some(StatLock)
    case Identifying => Some(StatLock)
    case Confirming(_) => Some(StatLock)
    case Verifying(_, _) => Some(StatLock)
    case Peeking(_, _) => Some(StatLock)
    case RetireChecking => Some(StatLock)
    case Stealing(_, claim) => Some(RenameToClaim(claim))
    case Claiming(_, claim, _) => Some(RenameToClaim(claim))
    case CheckingClaim(_, claim) => Some(StatClaim(claim))
    case Matching(_, claim, _) => Some(StatClaim(claim))
    case Discarding(_, claim) => Some(RemoveClaim(claim))
    case Removing(_, claim, _) => Some(RemoveClaim(claim))
    case Restoring(claim, _) => Some(RenameToLock(claim))
    case Probing(_, probe) => Some(SetTimes(probe))
    case Retiring(retiredAt) => Some(SetTimes(retiredAt))
    case _ => None
  }

  function PulseCallOf(pulse: Pulse): Option<Call> {
    match pulse
    case Quiet => None
    case Reading => Some(StatLock)
    case Rereading(_) => Some(StatLock)
    case Writing(written) => Some(SetTimes(written))
  }

  /** The claim path a flow has named, if any. */
  function ClaimOf(main: Main): Option<nat> {
    match main
    case Stealing(_, claim) => Some(claim)
    case CheckingClaim(_, claim) => Some(claim)
    case Discarding(_, claim) => Some(claim)
    case Claiming(_, claim, _) => Some(claim)
    case Matching(_, claim, _) => Some(claim)
    case Removing(_, claim, _) => Some(claim)
    case Peeking(claim, _) => Some(claim)
    case Restoring(claim, _) => Some(claim)
    case _ => None
  }

  /** An attempt of acquireLockState failed: sleep and retry, or give up. */
  function AttemptFails(a: Agent): Agent {
    if a.retries == 0 then a.(main := Failed)
    else a.(main := Sleeping, retries := a.retries - 1)
  }

  /** removeLockIfCurrent is over, with or without an error. */
  function RemovalOver(a: Agent, exit: Exit): Agent {
    match exit
    case InitFailed => AttemptFails(a)
    case LockReleased => a.(main := Finished)
  }

  function Proceed(a: Agent, after: After, failed: bool): Agent {
    match after
    case AttemptEnds => AttemptFails(a)
    case CreateAgain => if failed then AttemptFails(a) else a.(main := Recreating)
    case RemovalEnds(exit) => RemovalOver(a, exit)
  }

  function ProbeTime(now: int): int {
    CeilSecond(now) + 5
  }

  function RetireTime(now: int, staleMs: int): int {
    now - staleMs - 1000
  }

  /** The contender's judgement that the directory it saw is stale. */
  predicate JudgesStale(a: Agent, now: int) {
    a.main == Inspecting && a.reply.Some? && a.reply.value.Seen?
    && a.reply.value.dir.mtime < now - a.staleMs
  }

  /** The main flow, resumed with the reply to its call; `claim` is a fresh claim path. */
  function Resumed(agent: Agent, now: int, claim: nat): Agent
    requires agent.reply.Some?
  {
    var out := agent.reply.value;
    var a := agent.(reply := None);
    match a.main
    case Creating =>
      if out == Done then a.(main := Identifying)
      else if out == AlreadyExists then a.(main := Inspecting)
      else AttemptFails(a)
    case Recreating =>
      if out == Done then a.(main := Identifying) else AttemptFails(a)
    case Inspecting =>
      if out == NotFound then a.(main := Recreating)
      else if out.Seen? && out.dir.mtime < now - a.staleMs then a.(main := Stealing(out.dir, claim))
      else AttemptFails(a)
    case Stealing(observed, c) =>
      if out == Done then a.(main := CheckingClaim(observed, c))
      else if out == NotFound then a.(main := Recreating)
      else AttemptFails(a)
    case CheckingClaim(observed, c) =>
      if out == NotFound then a.(main := Recreating)
      else if out.Seen? && out.dir == observed then a.(main := Discarding(observed, c))
      else a.(main := Peeking(c, AttemptEnds))
    case Discarding(observed, c) =>
      if out == Done then a.(main := Recreating)
      else a.(main := Peeking(c, if out == NotFound then CreateAgain else AttemptEnds))
    case Identifying =>
      if out.Seen? then a.(main := Probing(out.dir.identity, ProbeTime(now)))
      else AttemptFails(a)
    case Probing(identity, _) =>
      a.(main := if out == Done then Confirming(identity) else Verifying(identity, InitFailed))
    case Confirming(identity) =>
      if out.Seen? && out.dir.identity == identity
      then a.(main := Holding, holder := Some(Acquired(identity, a.staleMs, a.updateMs, out.dir, now)))
      else a.(main := Verifying(identity, InitFailed))
    case Verifying(identity, exit) =>
      if out.Seen? && out.dir.identity == identity then a.(main := Claiming(identity, claim, exit))
      else RemovalOver(a, exit)
    case Claiming(identity, c, exit) =>
      if out == Done then a.(main := Matching(identity, c, exit)) else RemovalOver(a, exit)
    case Matching(identity, c, exit) =>
      a.(main := if out.Seen? && out.dir.identity == identity
                 then Removing(identity, c, exit) else Peeking(c, RemovalEnds(exit)))
    case Removing(_, c, exit) =>
      if out == Done then RemovalOver(a, exit) else a.(main := Peeking(c, RemovalEnds(exit)))
    case Peeking(c, after) =>
      if out == NotFound then a.(main := Restoring(c, after)) else Proceed(a, after, !out.Seen?)
    case Restoring(_, after) =>
      Proceed(a, after, out == IoError)
    case RetireChecking =>
      if out.Seen? && a.holder.Some? && out.dir.identity == a.holder.value.identity
      then a.(main := Retiring(RetireTime(now, a.staleMs))) else a.(main := Finished)
    case Retiring(_) => a.(main := Finished)
    case _ => a
  }

  /** After release() has waited for the heartbeat: remove the directory, retire it, or stop. */
  function Drained(a: Agent): Agent
    requires a.main.Draining? && a.holder.Some?
  {
    if a.main.owned && !a.preserve then a.(main := Verifying(a.holder.value.identity, LockReleased))
    else if a.preserve && a.holder.value.alarms == 0 then a.(main := RetireChecking)
    else a.(main := Finished)
  }

  // ----- the transition system -----

  ghost predicate Enabled(s: Sys, l: Label) {
    l.Tick? || (l.agent in s.agents && AgentEnabled(s.agents[l.agent], l))
  }

  ghost predicate AgentEnabled(a: Agent, l: Label)
    requires !l.Tick?
  {
    match l
    case MainCall(_, _) => a.reply.None? && CallOf(a.main).Some?
    case MainResume(_) => a.reply.Some?
    case Wake(_) => a.main == Sleeping
    case ReleaseLock(_) => a.main == Holding && a.holder.Some?
    case Drain(_) => a.main.Draining? && a.holder.Some? && a.pulse == Quiet
    case Fire(_) => a.holder.Some? && a.holder.value.timer.Some? && a.pulse == Quiet
    case PulseCall(_, _) => a.pulseReply.None? && PulseCallOf(a.pulse).Some?
    case PulseResume(_) => a.pulseReply.Some? && a.holder.Some?
  }

  /** The agent after its own move; a call's outcome is passed in. */
  function Moved(a: Agent, l: Label, now: int, claim: nat, out: Outcome): Agent
    requires !l.Tick? && AgentEnabled(a, l)
  {
    match l
    case MainCall(_, _) => a.(reply := Some(out))
    case MainResume(_) => Resumed(a, now, claim)
    case Wake(_) => a.(main := Creating)
    case ReleaseLock(_) =>
      a.(main := Draining(a.holder.value.status == Active), holder := Some(Release(a.holder.value)))
    case Drain(_) => Drained(a)
    case Fire(_) =>
      var b := TimerFires(a.holder.value);
      a.(holder := Some(b.holder), pulse := b.pulse)
    case PulseCall(_, _) => a.(pulseReply := Some(out))
    case PulseResume(_) =>
      var b := Replied(a.holder.value, a.pulse, a.pulseReply.value, now);
      a.(holder := Some(b.holder), pulse := b.pulse, pulseReply := None)
  }

  function EffectOf(s: Sys, l: Label): Effect
    requires Enabled(s, l)
  {
    match l
    case MainCall(p, fault) => Perform(s.disk, CallOf(s.agents[p].main).value, s.now, fault)
    case PulseCall(p, fault) => Perform(s.disk, PulseCallOf(s.agents[p].pulse).value, s.now, fault)
    case _ => Effect(s.disk, Done)
  }

  function Next(s: Sys, l: Label): Sys
    requires Enabled(s, l)
  {
    match l
    case Tick(now) => s.(now := now)
    case _ =>
      var e := EffectOf(s, l);
      var a := Moved(s.agents[l.agent], l, s.now, s.nextClaim, e.outcome);
      Sys(e.disk, s.now, s.nextClaim + 1, s.agents[l.agent := a])
  }

  ghost predicate Initial(s: Sys) {
    && DistinctIdentities(s.disk)
    && s.disk.claims == map[]
    && forall p <- s.agents :: Fresh(s.agents[p])
  }

  ghost predicate Fresh(a: Agent) {
    a.main == Creating && a.reply.None? && a.holder.None? && a.pulse == Quiet && a.pulseReply.None?
  }

  ghost predicate Possible(s: Sys, ls: seq<Label>)
    decreases |ls|
  {
    ls == [] || (Enabled(s, ls[0]) && Possible(Next(s, ls[0]), ls[1..]))
  }

  ghost function Run(s: Sys, ls: seq<Label>): Sys
    requires Possible(s, ls)
    decreases |ls|
  {
    if ls == [] then s else Run(Next(s, ls[0]), ls[1..])
  }

  /** The property `P` of a state and its next label holds at every step of a run. */
  ghost predicate Throughout(s: Sys, ls: seq<Label>, P: (Sys, Label) -> bool)
    requires Possible(s, ls)
    decreases |ls|
  {
    ls == [] || (P(s, ls[0]) && Throughout(Next(s, ls[0]), ls[1..], P))
  }
}
