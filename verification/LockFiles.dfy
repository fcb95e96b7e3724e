/**
  The part of a file system that the lock protocol touches: one lock path and
  the private claim paths that directories are renamed to. Each call is one
  atomic step. A directory's identity stands for its (dev, ino, birthtimeMs).
 */
module LockFiles {
  import opened Wrappers

  datatype Dir = Dir(identity: nat, mtime: int)

  datatype Call =
    | Mkdir
    | StatLock
    | SetTimes(mtime: int)
    | RenameToClaim(claim: nat)
    | StatClaim(claim: nat)
    | RemoveClaim(claim: nat)
    | RenameToLock(claim: nat)

  /** What a call reports: NotFound is ENOENT, AlreadyExists EEXIST, NotEmpty ENOTEMPTY. */
  datatype Outcome = Done | Seen(dir: Dir) | NotFound | AlreadyExists | NotEmpty | IoError

  /** A failure injected by the environment; the call then has no effect. */
  datatype Fault = NoFault | FailsEmptyCheck | FailsIo

  datatype Disk = Disk(lock: Option<Dir>, claims: map<nat, Dir>, nextIdentity: nat, wholeSeconds: bool)

  datatype Effect = Effect(disk: Disk, outcome: Outcome)

  /** Modification times are kept in milliseconds, or truncated to whole seconds. */
  function Stored(wholeSeconds: bool, time: int): int {
    if wholeSeconds then time - time % 1000 else time
  }

  function Perform(disk: Disk, call: Call, now: int, fault: Fault): Effect {
    match fault
    case FailsIo => Effect(disk, IoError)
    case FailsEmptyCheck => Effect(disk, NotEmpty)
    case NoFault => Execute(disk, call, now)
  }

  function Execute(disk: Disk, call: Call, now: int): Effect {
    match call
    case Mkdir =>
      if disk.lock.Some? then Effect(disk, AlreadyExists)
      else
        var made := Dir(disk.nextIdentity, Stored(disk.wholeSeconds, now));
        Effect(disk.(lock := Some(made), nextIdentity := disk.nextIdentity + 1), Done)
    case StatLock =>
      Effect(disk, if disk.lock.Some? then Seen(disk.lock.value) else NotFound)
    case SetTimes(mtime) =>
      if disk.lock.None? then Effect(disk, NotFound)
      else
        var touched := disk.lock.value.(mtime := Stored(disk.wholeSeconds, mtime));
        Effect(disk.(lock := Some(touched)), Done)
    case RenameToClaim(claim) =>
      if disk.lock.None? then Effect(disk, NotFound)
      else Effect(disk.(lock := None, claims := disk.claims[claim := disk.lock.value]), Done)
    case StatClaim(claim) =>
      Effect(disk, if claim in disk.claims then Seen(disk.claims[claim]) else NotFound)
    case RemoveClaim(claim) =>
      if claim in disk.claims then Effect(disk.(claims := disk.claims - {claim}), Done)
      else Effect(disk, NotFound)
    case RenameToLock(claim) =>
      // Renaming one empty directory over another replaces the target.
      if claim in disk.claims
      then Effect(disk.(lock := Some(disk.claims[claim]), claims := disk.claims - {claim}), Done)
      else Effect(disk, NotFound)
  }

  /** No two directories share an identity, and identities are handed out in order. */
  ghost predicate DistinctIdentities(disk: Disk) {
    && (disk.lock.Some? ==> disk.lock.value.identity < disk.nextIdentity)
    && (forall c <- disk.claims :: disk.claims[c].identity < disk.nextIdentity)
    && (forall c <- disk.claims :: disk.lock.Some? ==> disk.claims[c].identity != disk.lock.value.identity)
    && (forall c <- disk.claims, d <- disk.claims ::
          disk.claims[c].identity == disk.claims[d].identity ==> c == d)
  }

  /** The identity was handed out and no directory carries it any more. */
  ghost predicate Destroyed(disk: Disk, identity: nat) {
    && identity < disk.nextIdentity
    && (disk.lock.Some? ==> disk.lock.value.identity != identity)
    && (forall c <- disk.claims :: disk.claims[c].identity != identity)
  }

  predicate AtLock(disk: Disk, identity: nat) {
    disk.lock.Some? && disk.lock.value.identity == identity
  }

  lemma PerformKeepsIdentities(disk: Disk, call: Call, now: int, fault: Fault)
    requires DistinctIdentities(disk)
    requires call.RenameToClaim? ==> call.claim !in disk.claims
    ensures DistinctIdentities(Perform(disk, call, now, fault).disk)
  {
  }

  lemma DestroyedStays(disk: Disk, call: Call, now: int, fault: Fault, identity: nat)
    requires Destroyed(disk, identity)
    ensures Destroyed(Perform(disk, call, now, fault).disk, identity)
  {
  }
}
