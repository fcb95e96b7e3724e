# Verified models of felan's state machines

Felan keeps several small protocols and algorithms whose promises cannot be read off a single
function. This project models them in Dafny, in the form the source gives them (objects whose
methods update fields, loops over buffers, pure functions), and proves what they promise over all
inputs, all runs and all interleavings.

| files | source component |
|---|---|
| `LockFiles`, `LockHolder`, `LockProtocol`, `LockSafety`, `LockExclusion`, `LockProgress`, `LockWitness` | the directory lock of the daemon: any number of processes on one lock path, each system call one atomic step |
| `Attachment`, `AttachmentSafety`, `AttachmentVerdicts` | browser attachments: attempts, leases, cleanup and quarantine, each step the code between two awaits |
| `PathHeap`, `GlobMatcher`, `Regex`, `FileListing` | bounded file listing: the heap, the compiled glob, the walk |
| `OutputBuffer`, `ForegroundText`, `Foreground` | the output of a process kept by offset, bounded capture, the foreground loop with its spill file |
| `Coordinator`, `CoordinatorSafety`, `CoordinatorVerdicts`, `CoordinatorSerial`, `BoundedTail` | serialized reads of background processes with retried persistence |
| `JobQuery`, `JobStatus` | paging through job identifiers, and the two files that hold a job's status |
| `ProcessLog` | cutting a log into view chunks with an exact JSON byte bound |
| `Json`, `CanonicalJson`, `SessionPages`, `Transcript` | session history: canonical JSON, byte-budgeted pages with cursors, transcripts, checkpoints, inventory order |
| `CommandSuggestions`, `Threading`, `ThreadForest`, `JsonWriter`, `JsonWriterVerdicts` | edit distance, the session picker's forest, the headless FIFO writer |
| `Utf8`, `Utf16`, `TextDecoding`, `JsonString`, `Order`, `StringOrder`, `Sequences`, `Wrappers` | text, sorting and sequences, shared by the above |

## How it is modelled

Concurrency is a transition system wherever the source awaits: a label is one system call or the
code between two awaits, a run is any sequence of possible labels, and the theorems quantify over
all runs. Objects the source updates in place are classes; each method is proved to change the
object exactly as a function on values says, and the theorems are about those functions. What the
functions compute is stated once more on the fields, labels and replies alone: by verdicts on what
each event does in any run, and by runs that end well. Calls that
can fail take their outcome as a parameter. Time is arbitrary; identities and random names are
fresh values. Bytes, UTF-8 and UTF-16 are modelled exactly, with the decoder of the WHATWG Encoding
Standard as a byte machine; JSON strings are printed with the escapes of section 7 of RFC 8259.

## What does not hold as stated

* **Lock.** Two processes never own the lock together while reclaims move only directories that
  nobody owns, failing calls included (`LockExclusion.ExclusionAcrossHandOvers`); in general a second
  owner arises exactly when somebody makes the directory while the owner's is away
  (`LockExclusion.SecondOwnerArises`), as in a run without failing calls that ends with two active
  holders (`LockWitness.TwoHoldersAtOnce`). That the directory stays with its holder needs one more
  condition: exactly a landing rename of `restoreClaim` then takes it away
  (`LockExclusion.DirectoryStaysWithHolder`, `LockExclusion.OnlyRestoreDisplaces`), which one failing
  `rmdir` in a release is enough to cause (`LockWitness.HolderCanBeDisplaced`). Whatever takes it
  away in whatever run, a stat of the holder's heartbeat made while it is away costs the holder the
  lock (`LockSafety.DisplacedHeartbeatLosesLock`); a directory that is renamed back before that stat
  goes unnoticed.
* **Retirement.** `retire` checks the identity and then writes the time of whatever stands at the
  lock path. When it stalls in between until its directory is stale, the write strikes the directory
  of the next holder, which raises a false alarm (`LockWitness.LateRetireCompromises`). In the
  interleavings in which the directory stays with its holder, no other false alarm is raised while
  the calls of heartbeats work (`LockExclusion.UndisturbedHolderIsNeverCompromised`).
* **Background log.** A stored terminal status means a complete log when `#persistInteractiveSnapshot`
  has stored it; whoever else stores one, the log holds all that was read exactly when no text waits
  to be appended (`CoordinatorSafety.StatusMeansComplete`). A promotion whose first append fails
  stores `failed` over an incomplete log (`CoordinatorSafety.FailedPromotionLosesOutput`).
* **Job status.** A crash between the two writes of `markStatus` is invisible exactly when the new
  status is terminal, as in every call of the source, or the patch says nothing new
  (`JobStatus.CrashIsInvisible`, `JobStatus.RunningPatchShowsCrash`); and what `updatePid` returns is
  what later readers see exactly when a terminal completion file does not override it
  (`JobStatus.ReadsWhatWasReturned`, `JobStatus.LateUpdatePidIsUnheard`).
* **Session pages.** The pages of a walk concatenate to the list exactly when every value fits a page
  alone (`SessionPages.WalkSucceedsIffAllFit`).
* **Bounded tail.** Cutting a growing text piece by piece equals cutting it once, except exactly when
  a cut drops a byte order mark that another one follows (`BoundedTail.BoundedIncrementally`,
  `BoundedTail.TwoMarksDiffer`).
* **Headless writer.** A `flush` made after `close()` resolves although lines were never
  acknowledged; while open, never (`JsonWriter.FlushAfterClose`, `JsonWriter.CloseThenFlushResolves`).

## Model

| member | source | states |
|---|---|---|
| LockFiles.PerformKeepsIdentities | apps/daemon/src/lock.ts:151-208 | every directory that exists, at the lock path or under a claim path, keeps a distinct identity below the next fresh one, whichever call is made and whether or not it fails |
| LockFiles.DestroyedStays | apps/daemon/src/lock.ts:199-208 | an identity that no directory carries any more is never carried again |
| LockHolder.RepliedKeepsHolder | apps/daemon/src/lock.ts:288-349 | every reply to a heartbeat keeps the holder's invariant: a timer only while active and between heartbeats, the compromise callback at most once and exactly on losing the lock; a lock that is no longer active is left alone |
| LockHolder.RefreshNeedsConfirmation | apps/daemon/src/lock.ts:324-348 | lastUpdateMs is refreshed exactly when the second stat saw the holder's own identity with the time it had just written |
| LockHolder.HeartbeatVerdict | apps/daemon/src/lock.ts:288-349 | after a heartbeat step the lock is still active iff the stat confirmed it, or the call failed for another reason than ENOENT and the last confirmation is within the stale threshold; otherwise it is compromised with one alarm and no timer |
| LockHolder.WrittenTimeIsStored | apps/daemon/src/lock.ts:239-259 | the probe tells whole-second file systems apart, and a time written afterwards is stored as written, so an untouched directory always confirms |
| LockHolder.LockState.ScheduleHeartbeat | apps/daemon/src/lock.ts:274-286 | arms the timer with the pending delay only when active and unarmed, changing nothing else |
| LockHolder.LockState.FireTimer | apps/daemon/src/lock.ts:276-289 | a timer that fires is no longer armed, and a heartbeat begins with its first stat |
| LockHolder.LockState.FailHeartbeat | apps/daemon/src/lock.ts:293-302 | a failed heartbeat call compromises the lock on ENOENT or when overdue, and otherwise reschedules with the minimum delay |
| LockHolder.LockState.UpdateHeartbeat | apps/daemon/src/lock.ts:288-349 | the fields after a reply of stat, utimes or the second stat are those the holder function gives, early returns and retries with the minimum delay included |
| LockHolder.LockState.CompromiseLock | apps/daemon/src/lock.ts:355-366 | an active lock becomes compromised, its timer is cleared and the callback raised; any other is left as it is |
| LockHolder.LockState.ReleaseLock | apps/daemon/src/lock.ts:114-123 | releasing reports whether the lock was owned and leaves status, timer and heartbeat as the holder function says |
| LockSafety.SoundStep | apps/daemon/src/lock.ts:77-272 | every step of every process keeps the protocol invariant: claims are private to the process that made them, what a process knows of a directory it has seen, holders keep their invariant |
| LockSafety.HoldersInEveryRun | apps/daemon/src/lock.ts:274-366 | in every run every holder keeps its invariant, and a process with an active lock is not acquiring, releasing or removing |
| LockSafety.OnlyRecordedDirectoriesVanish | apps/daemon/src/lock.ts:176-208 | in every run a directory vanishes only through an rmdir of the directory a reclaim observed, unchanged in identity and time, an rmdir of the identity a removal recorded, or a restoring rename that lands on it |
| LockSafety.FencedStep | apps/daemon/src/lock.ts:288-349 | a holder whose directory no longer exists stays so at every step, its lastUpdateMs is not refreshed, and its status only worsens |
| LockSafety.FencedForever | apps/daemon/src/lock.ts:288-349 | the same for whole runs: once fenced, a holder never refreshes again |
| LockSafety.FencedHeartbeatCompromises | apps/daemon/src/lock.ts:288-366 | a heartbeat of a fenced holder that ends leaves the lock compromised with one alarm, unless its last call failed for a reason other than ENOENT while the last confirmation is recent |
| LockSafety.DisplacedHeartbeatLosesLock | apps/daemon/src/lock.ts:288-366 | in every run, reclaims, restores and failures included: once a stat of a heartbeat is made while the holder's directory is not at the lock path (destroyed, claimed or parked), the lock is lost when that heartbeat resumes, with an alarm unless it was released, even if the directory is back by then; until then lastUpdateMs is not refreshed |
| LockSafety.ReclaimDestroys | apps/daemon/src/lock.ts:176-208 | a successful reclaim destroys exactly the directory it observed and leaves the lock path as it is |
| LockSafety.ReclaimFencesHolder | apps/daemon/src/lock.ts:176-208 | from the moment of a successful reclaim, in every continuation, the holder of that directory never refreshes again |
| LockSafety.CompromisedForever | apps/daemon/src/lock.ts:355-360 | in every run a compromised lock is never active again and raises no second alarm |
| LockExclusion.ExclusionWithoutReclaim | apps/daemon/src/lock.ts:77-174 | in every interleaving in which no contender judges the directory stale, failing calls included, while one process is active no other holds, initializes or removes the lock |
| LockExclusion.ExclusionAcrossHandOvers | apps/daemon/src/lock.ts:57-174 | in every interleaving in which a reclaim's rename moves only a directory that nobody owns, such as one retired by withLocalFileLock, while one process is active no other holds, initializes, drains or removes the lock |
| LockExclusion.NoReclaimIsUnowned | apps/daemon/src/lock.ts:170-174 | whatever else is asked of them, runs in which no contender judges the directory stale are among these, and nobody in them retires the directory of another |
| LockExclusion.SecondOwnerArises | apps/daemon/src/lock.ts:156-174 | in every run a step gives the lock a second owner iff it makes the directory while the owner's is away from the lock path |
| LockExclusion.DirectoryStaysWithHolder | apps/daemon/src/lock.ts:57-272 | in every interleaving in which reclaims move only what nobody owns (hand-overs of withLocalFileLock included) and no restoring rename lands, the directory at the lock path carries an active holder's identity for as long as it is active |
| LockExclusion.UndisturbedHolderIsNeverCompromised | apps/daemon/src/lock.ts:57-349 | in those interleavings, while moreover no retirement writes on the directory of another and no heartbeat call fails, no holder is ever compromised, however late its heartbeats run |
| LockExclusion.WhatDisplaces | apps/daemon/src/lock.ts:176-444 | in every run a step takes the directory from an active holder iff it is the rename of a reclaim, the rename of a removal, or a restoring rename that lands, and then the directory is destroyed |
| LockExclusion.OnlyRestoreDisplaces | apps/daemon/src/lock.ts:431-444 | in every run whose reclaims move only unowned directories, before and after any restores: a step takes the directory from an active holder iff it is a restoring rename that lands, and then the directory is destroyed |
| LockWitness.HolderCanBeDisplaced | apps/daemon/src/lock.ts:399-444 | a concrete run without stale reclaim after which an active holder's directory is gone, because the rmdir of an earlier release failed |
| LockWitness.RetiredIsStale | apps/daemon/src/lock.ts:109-113 | the time written by retire makes any contender with no larger threshold judge the directory stale at once, on both kinds of file system |
| LockWitness.RetiredLockIsHandedOver | apps/daemon/src/lock.ts:57-75 | a concrete run without failing calls in which the first holder retires its lock and the second reclaims it, owned by nobody, and becomes the active holder |
| LockWitness.LateRetireCompromises | apps/daemon/src/lock.ts:109-113 | a concrete run without failing calls, landing restores or reclaims of owned directories in which the utimes of a stalled retire strikes the next holder's directory and compromises that holder |
| LockWitness.TwoHoldersAtOnce | apps/daemon/src/lock.ts:109-113 | a concrete run without failing calls after which two holders are active at once, the first of them confirmed at this very time: after the same late utimes a third contender takes the fresh directory away |
| LockProgress.GivesUpAfterRetries | apps/daemon/src/lock.ts:127-149 | in every run a process that has given up has woken up exactly as often as it had retries, one that has not no more often, and a sleeping one less often |
| LockProgress.FreePathIsAcquired | apps/daemon/src/lock.ts:151-272 | a contender that finds the lock path free, at whichever of its calls, makes the directory and becomes the active holder in this attempt: confirmed now, the heartbeat armed, the precision of the file system told by the time it wrote |
| LockProgress.FreshDirectoryIsLeftAlone | apps/daemon/src/lock.ts:156-171 | a directory touched within the stale threshold ends the attempt and nothing changes |
| LockProgress.SecondMkdirDoesNotReclaim | apps/daemon/src/lock.ts:173-221 | the mkdir after a reclaim does not judge what it finds, however old: the attempt ends and nothing changes |
| LockProgress.StaleDirectoryIsReplaced | apps/daemon/src/lock.ts:156-272 | an older directory is destroyed and the contender holds a new one in its place |
| LockProgress.SleeperReplacesStale | apps/daemon/src/lock.ts:136-149 | a contender that wakes up begins again from the first mkdir, so that it may reclaim what is stale by then |
| LockProgress.FailedCallEndsAttempt | apps/daemon/src/lock.ts:151-237 | a failing call before the directory is identified ends the attempt, with a sleep if retries are left, and changes nothing |
| LockProgress.FailedInitializationCleansUp | apps/daemon/src/lock.ts:231-272 | a failing call after that ends it too and removes the directory that was made |
| LockProgress.FailedReclaimPutsBack | apps/daemon/src/lock.ts:184-208 | a reclaim that took another directory than it observed, or that cannot remove or inspect it, puts it back when the path is free and leaves it under the claim path when not; the attempt ends |
| LockProgress.VanishedClaimIsRecreated | apps/daemon/src/lock.ts:187-206 | a reclaim whose claim is gone when it inspects or removes it goes on to make the lock |
| LockProgress.FailedRestoreEnds | apps/daemon/src/lock.ts:431-444 | a failing call of restoreClaim ends the attempt, or the release, and moves nothing |
| LockProgress.RemovalStopsAtOnce | apps/daemon/src/lock.ts:399-411 | a removal that does not find its own directory, or whose first calls fail, changes nothing |
| LockProgress.FailedRemovalPutsBack | apps/daemon/src/lock.ts:412-429 | a removal that took another directory than its own, or that cannot remove or inspect it, puts it back when the path is free and leaves it under the claim path when not |
| LockProgress.ReleaseFreesPath | apps/daemon/src/lock.ts:114-123 | the release of an active lock whose directory is in place removes it and leaves the path free |
| LockProgress.ReleaseRetires | apps/daemon/src/lock.ts:109-123 | where the path is kept, it instead makes the time of the directory older than the stale threshold by a second |
| LockProgress.ReleaseLeavesOthersAlone | apps/daemon/src/lock.ts:109-123 | a release changes nothing on disk once the lock was compromised, or once another directory or none is there |
| LockWitness.PatienceIsRewarded | apps/daemon/src/lock.ts:127-149 | a concrete run in which a contender with one retry meets a held directory, sleeps, the holder releases, and the contender wakes once and becomes the active holder |
| Attachment.BrowserAttachments.Authorize | packages/ext-browser/src/attachment.ts:81-121 | a new attempt is registered exactly when the instance is open and no attempt on the root is pending, authorized or unclean |
| Attachment.BrowserAttachments.HasUnclean | packages/ext-browser/src/attachment.ts:342-345 | true iff another attempt on the root in the history has not been verified clean |
| Attachment.BrowserAttachments.Invalidate | packages/ext-browser/src/attachment.ts:239-243 | blocks the attempt unless revoked, aborts it and starts a cleanup run unless one is memoised |
| Attachment.BrowserAttachments.Attach | packages/ext-browser/src/attachment.ts:158-176 | which leases are rejected, which is taken, and the attempt's fields afterwards, for every order of attach calls and aborts |
| Attachment.BrowserAttachments.ResolveInvocation | packages/ext-browser/src/attachment.ts:179-196 | after the invocation is known the native operation starts only if the attempt is still current, and otherwise the attempt is invalidated |
| Attachment.BrowserAttachments.FinishObservation | packages/ext-browser/src/attachment.ts:188-196 | the attempt is verified iff the observation succeeded while it is still current, and is invalidated otherwise |
| Attachment.BrowserAttachments.SettleHost | packages/ext-browser/src/attachment.ts:137-151 | the attempt becomes authorized iff the host says so, it was verified and is still current, and is invalidated otherwise |
| Attachment.BrowserAttachments.RejectLease | packages/ext-browser/src/attachment.ts:267-272 | records the lease, withdraws the verification, aborts the attempt and retries its cleanup |
| Attachment.BrowserAttachments.ResumeRetry | packages/ext-browser/src/attachment.ts:258-265 | after the awaited run, a failed cleanup is dropped and a new one started only if it is still the memoised one |
| Attachment.BrowserAttachments.Quarantine | packages/ext-browser/src/attachment.ts:273-276 | while the rejected lease leaves its attempt unclean, the attempt now registered for the root is invalidated |
| Attachment.BrowserAttachments.Revoke | packages/ext-browser/src/attachment.ts:245-256 | every attempt of the root, old ones included, is revoked, aborted and its cleanup retried, and no other |
| Attachment.BrowserAttachments.Close | packages/ext-browser/src/attachment.ts:325-333 | closes the instance and blocks, aborts and retries every attempt |
| Attachment.BrowserAttachments.FinishCleanup | packages/ext-browser/src/attachment.ts:319-321 | a run ends verified iff every step was clean and no rejected lease is left |
| AttachmentSafety.StepKeepsBook | packages/ext-browser/src/attachment.ts:81-346 | every step keeps the invariant of all attempts; an abort and a lost authorization are never undone |
| AttachmentSafety.VerifiedMeansClean | packages/ext-browser/src/attachment.ts:279-323 | in every run cleanupVerified implies the attempt is aborted, its lease and every lease ever rejected were closed, the native operation settled and a started session was seen inactive, late leases and overlapping retries included |
| AttachmentSafety.OneLiveAttemptPerRoot | packages/ext-browser/src/attachment.ts:81-121 | in every run at most one attempt per root is not aborted, and none once closed |
| AttachmentSafety.ActiveMeansAlone | packages/ext-browser/src/attachment.ts:60-66 | an attempt passes assertActive only if it was started and verified on a live lease and every other attempt on its root is completely cleaned up |
| AttachmentSafety.AbortIsFinal | packages/ext-browser/src/attachment.ts:123-156 | an aborted attempt stays aborted, never passes assertActive and never becomes authorized later |
| AttachmentSafety.LateLeaseQuarantines | packages/ext-browser/src/attachment.ts:158-167 | a lease delivered late is recorded and the root blocked at once, and in every continuation nothing on the root is active and no new attempt may be authorized before that lease has been closed |
| AttachmentSafety.UncleanBlocks | packages/ext-browser/src/attachment.ts:342-345 | an unclean attempt blocks assertActive of every other attempt and new authorizations on its root |
| AttachmentSafety.RevokeRetries | packages/ext-browser/src/attachment.ts:245-265 | revoking after a failed cleanup leads to a new run, later than the failed one |
| AttachmentSafety.Live | packages/ext-browser/src/attachment.ts:27-346 | an object to which the events of any run happen, its methods called in turn, ends in the state of that run, and its verified attempts are clean |
| AttachmentVerdicts.RequestVerdict | packages/ext-browser/src/attachment.ts:81-121 | in every run a request makes a new pending attempt, registered for its root, iff the instance is open and every attempt on the root is cleaned up; otherwise nothing changes |
| AttachmentVerdicts.HostVerdict | packages/ext-browser/src/attachment.ts:137-156 | in every run, when the host settles, the attempt passes assertActive afterwards iff the host authorized it, it was verified and not aborted, its lease is alive and every other attempt on its root is cleaned up; otherwise it is blocked, aborted and cleaned up |
| AttachmentVerdicts.AttachVerdict | packages/ext-browser/src/attachment.ts:158-178 | in every run the first usable living lease of an unhindered attempt is taken; any other is rejected, which blocks and aborts the attempt, withdraws its verification and has its cleanup retried; an attempt with an invalid connection is stopped |
| AttachmentVerdicts.ResolveVerdict | packages/ext-browser/src/attachment.ts:179-187 | in every run the native operation starts iff the invocation is known and the attempt is unhindered; otherwise the attempt is stopped |
| AttachmentVerdicts.OpenVerdict | packages/ext-browser/src/attachment.ts:183-197 | in every run a session that has opened is observed next, and one that has not stops the attempt |
| AttachmentVerdicts.ObserveVerdict | packages/ext-browser/src/attachment.ts:188-197 | in every run a session is verified iff it was observed while the attempt is unhindered; otherwise the attempt is stopped |
| AttachmentVerdicts.LeaseEndVerdict | packages/ext-browser/src/attachment.ts:173-176 | in every run a lease that ends aborts at once the attempt that has it, and no other |
| AttachmentVerdicts.QuarantineVerdict | packages/ext-browser/src/attachment.ts:267-276 | in every run, once the cleanup for a rejected lease is over, the attempt now in charge of the root is stopped iff the rejecting attempt is still unclean, and no other is |
| AttachmentVerdicts.RevokeVerdict | packages/ext-browser/src/attachment.ts:245-256 | in every run revoking revokes and aborts every attempt on the root and retries its cleanup, and touches no other |
| AttachmentVerdicts.CloseVerdict | packages/ext-browser/src/attachment.ts:325-333 | in every run closing blocks, aborts and retries every attempt there is |
| AttachmentVerdicts.RetryVerdict | packages/ext-browser/src/attachment.ts:258-265 | in every run a retry that has waited for a cleanup run starts the next iff there is none, or that run is still the memoised one and unverified |
| AttachmentVerdicts.CleanupVerdict | packages/ext-browser/src/attachment.ts:279-323 | a cleanup run that nothing interrupts ends verified iff its lease has closed, its native operation has settled in time, and a started session has closed and was then seen inactive |
| AttachmentVerdicts.CleanupWaits | packages/ext-browser/src/attachment.ts:281-316 | in every run a session that is still closing is polled again, and a rejected lease is dropped iff it has closed, without which the run cannot end clean |
| AttachmentVerdicts.SessionBecomesActive | packages/ext-browser/src/attachment.ts:81-156 | a concrete run from the request to an authorized attempt that passes assertActive |
| AttachmentVerdicts.RevokedSessionMakesRoom | packages/ext-browser/src/attachment.ts:81-323 | its continuation: revoked, its lease closed and the session seen inactive, the attempt is clean and its root gets a new one |
| PathHeap.BoundedPathHeap.Push | packages/agent-core/src/host-agent-runtime.ts:1023-1038 | keeps the entries a max-heap of the `limit` smallest paths ever pushed |
| PathHeap.BoundedPathHeap.SiftUp | packages/agent-core/src/host-agent-runtime.ts:1030-1037 | restores the heap above an appended entry, keeping the same entries |
| PathHeap.BoundedPathHeap.SiftDown | packages/agent-core/src/host-agent-runtime.ts:1044-1056 | restores the heap below a replaced root, keeping the same entries |
| PathHeap.BoundedPathHeap.ValuesAreSmallest | packages/agent-core/src/host-agent-runtime.ts:1040-1042 | sorting the entries gives the first `limit` of sorting everything pushed |
| GlobMatcher.Compile | packages/agent-core/src/file-listing.ts:5-26 | the compiled text, read as a regular expression, accepts exactly the paths the glob means, for every pattern and path |
| GlobMatcher.CompiledMeans | packages/agent-core/src/file-listing.ts:5-26 | the same for one path, through reading the text back and matching it |
| GlobMatcher.ReadBody | packages/agent-core/src/file-listing.ts:18-25 | the generated text parses, with escapes, groups and quantifiers, into the intended expression and nothing else |
| GlobMatcher.SingleStarsStayInSegment | packages/agent-core/src/file-listing.ts:17-20 | a glob without a double star matches only paths with as many slashes as it has |
| FileListing.ListHostFiles | packages/agent-core/src/host-agent-runtime.ts:921-994 | for every tree and option set: the first `limit` of the sorted paths within depth, matching the pattern and with no ignored ancestor-or-self, or the error of a bad bound |
| FileListing.WalkFindsQualifying | packages/agent-core/src/host-agent-runtime.ts:960-988 | what the recursive walk collects is exactly the entries that qualify by depth, kind, pattern and ignores of all their ancestors |
| FileListing.VisitDirectory | packages/agent-core/src/host-agent-runtime.ts:960-988 | visiting a directory adds exactly what the walk below it finds to the heap or the list |
| FileListing.ListingIgnoresOrder | packages/agent-core/src/host-agent-runtime.ts:960-994 | two trees that differ only in the order in which directories yield their entries, at any level, have the same listing |
| FileListing.PermutedTrees | packages/agent-core/src/host-agent-runtime.ts:967-968 | a directory that yields its entries in any other order is such a tree |
| FileListing.ListedIffWanted | packages/agent-core/src/host-agent-runtime.ts:921-994 | without a limit a path is listed iff an entry with this path is of a wanted kind, within the depth, meant by the pattern with backslashes turned, and it and no directory above it is meant by an ignore; a depth that is no safe natural number is an error |
| FileListing.LimitKeepsFirst | packages/agent-core/src/host-agent-runtime.ts:921-994 | a limit keeps the first of these paths, and must itself be a safe natural number |
| FileListing.PathsAreNames | packages/agent-core/src/host-agent-runtime.ts:960-988 | the path of an entry is the names that lead to it joined by slashes, its depth is their number, and the directories above have the paths of the shorter ones |
| OutputBuffer.HostProcessOutput.Append | packages/agent-core/src/host-agent-runtime.ts:837-846 | the buffer is the last eight mebibytes of the stream and its offset the number of bytes dropped; nothing is added once disposed |
| OutputBuffer.HostProcessOutput.Read | packages/agent-core/src/host-agent-runtime.ts:814-835 | returns the bytes of the stream from the later of the asked offset and the retained start, the last `maxBytes` of them, and the length of the stream as next offset |
| OutputBuffer.HostProcessOutput.Dispose | packages/agent-core/src/host-agent-runtime.ts:855-860 | disposing drops the buffer and keeps offsets consistent with the stream |
| OutputBuffer.ReadIsSlice | packages/agent-core/src/host-agent-runtime.ts:814-835 | what is read is the stream from the asked offset on, less what is no longer kept, cut to its last `maxBytes` |
| OutputBuffer.GapMeansLoss | packages/agent-core/src/host-agent-runtime.ts:814-835 | a reader continuing from its last offset sees a gap iff it misses a byte |
| OutputBuffer.OutputCapture.CaptureOutput | packages/agent-core/src/host-agent-runtime.ts:466-478 | what both streams hold are the first bytes to arrive up to the limit, even though chunks after the buffer overflow are ignored; truncation is reported iff something is missing |
| OutputBuffer.CaptureExtends | packages/agent-core/src/host-agent-runtime.ts:1313-1328 | capturing the retained part of a chunk is capturing the first bytes of everything that arrived |
| Foreground.RunForegroundCommand | packages/ext-background-bash/src/foreground.ts:34-114 | over any course of output, exits, aborts, deadlines and storage faults the loop ends as the course does: cancelled, timed out, or with an exit once the process has stopped and nothing is left to read; it reports the text shown for exactly the bytes it could read, sets truncated iff these are not all or are more than 50 KiB or 2000 lines, and a spill file has them all; the process is disposed of iff it exited or the command was cancelled |
| Foreground.Receive | packages/ext-background-bash/src/foreground.ts:43-94 | after a snapshot the tail is the last 2*MAX bytes received, pending or the spill file holds all of them unless spilling failed, and truncated is set iff bytes were lost or the output is too long |
| Foreground.RetainTail | packages/ext-background-bash/src/foreground.ts:80-93 | appending a piece and dropping from the front leaves exactly the last 2*MAX bytes |
| Foreground.SpillOutput | packages/ext-background-bash/src/foreground.ts:52-76 | the file holds everything received after a spill; a failed storage call gives up the file and clears what was pending |
| Foreground.LinesMonotone | packages/ext-background-bash/src/foreground.ts:47-51 | more output never has fewer lines, so once spilled the loop keeps spilling |
| Foreground.BurstsThatFitAreReceived | packages/ext-background-bash/src/foreground.ts:34-46 | while the process never puts out more than eight mebibytes between two reads, what is received at an exit or a timeout is its whole output |
| Foreground.WhenCourseEnds | packages/ext-background-bash/src/foreground.ts:34-114 | the loop ends in the first turn that does not let it go on: cancelled if the caller has, with an exit if the process has stopped and nothing was put out since the last read, timed out if it runs past its deadline |
| Foreground.UntruncatedIsWhole | packages/ext-background-bash/src/foreground.ts:46-94 | the result is marked as truncated iff bytes were lost or there are more than 50 KiB or 2000 lines; only then can there be a spill file, and it holds everything received |
| Foreground.LinesAsTold | packages/ext-background-bash/src/foreground.ts:47-51 | a byte begins a line iff it is the first or follows a line feed |
| ForegroundText.DecodeTail | packages/ext-background-bash/src/foreground.ts:117-136 | the text shown is the last 2000 lines of the decoded pieces and of these the last whole characters within 50 KiB |
| ForegroundText.ShownIsExact | packages/ext-background-bash/src/foreground.ts:117-136 | decoding only the last 2*MAX bytes shows the same text as decoding everything received, wherever the cut falls |
| ForegroundText.JoinLastLines | packages/ext-background-bash/src/foreground.ts:124 | split, slice and join take the longest suffix with at most that many lines |
| ForegroundText.ShownIsLongestEnd | packages/ext-background-bash/src/foreground.ts:117-136 | what is shown is the longest end of the text, without its final line break, that has at most 2000 lines and 50 KiB |
| TextDecoding.PieceExtends | packages/ext-background-bash/src/coordinator.ts:266-267 | streaming decode of a piece yields exactly what decoding the longer stream adds, byte order mark included |
| TextDecoding.DecodedEndsAgree | packages/ext-background-bash/src/foreground.ts:117-124 | decoding from the middle of a byte string agrees with decoding all of it but for what the first three bytes contribute |
| BoundedTail.BoundText | packages/ext-background-bash/src/coordinator.ts:314-320 | the result is the longest suffix of whole characters within the limit, less one byte order mark at the cut |
| BoundedTail.BoundedIncrementally | packages/ext-background-bash/src/coordinator.ts:314-320 | cutting after each piece equals cutting the whole text iff no cut falls between two byte order marks with less than three bytes to spare |
| BoundedTail.TwoMarksDiffer | packages/ext-background-bash/src/coordinator.ts:314-320 | for every limit of at least six bytes, the source's eight mebibytes included, a text on which the two differ |
| Coordinator.BackgroundProcess.Read | packages/ext-background-bash/src/coordinator.ts:260-300 | one serialized read changes offset, decoder, snapshot and pending snapshot as the step function says, and answers or fails accordingly, failing calls of storage and of dispose included |
| Coordinator.BackgroundProcess.PersistInteractiveSnapshot | packages/ext-background-bash/src/process-manager.ts:346-365 | appends a snapshot of an attached process unless its object was appended before, rewrites the log of a terminal, and stores a terminal status last, for each failing call |
| Coordinator.BackgroundProcess.Adopt | packages/ext-background-bash/src/process-manager.ts:44-68 | the first read of a promoted process; when it fails the entry is given up and the job marked failed, if storage allows |
| CoordinatorSafety.AttachedStep | packages/ext-background-bash/src/coordinator.ts:260-300 | every read of an attached process keeps: log plus the text still pending is the encoded decoded stream |
| CoordinatorSafety.PersistAppends | packages/ext-background-bash/src/process-manager.ts:346-353 | persisting a snapshot, again or for the first time and with any call failing, appends its text at most once, and has appended it when it succeeds |
| CoordinatorSafety.LogIsDecodedStream | packages/ext-background-bash/src/coordinator.ts:239-300 | in every run of reads, failures and retries, of entries given up and of statuses stored elsewhere, the log is the decoded text of the bytes read, in order and once, but for a snapshot still to be appended; without gaps the bytes are the stream |
| CoordinatorSafety.StatusMeansComplete | packages/ext-background-bash/src/process-manager.ts:346-365 | in every such run a terminal status that #persistInteractiveSnapshot has stored means that the process has ended and its whole decoded output is in the log; with a status stored elsewhere, as with none, the log holds all that was read iff no snapshot with text waits to be appended |
| CoordinatorSafety.FailedPromotionLosesOutput | packages/ext-background-bash/src/process-manager.ts:44-68 | a concrete run in which promote stores `failed` while the output read is not in the log |
| CoordinatorSafety.RetryCompletes | packages/ext-background-bash/src/coordinator.ts:260-291 | after any failures, one read whose storage calls work leaves nothing pending and the log complete |
| CoordinatorSafety.TerminalLogIsBoundedEnd | packages/ext-background-bash/src/coordinator.ts:260-300 | in every run the log of a terminal, once its latest state is delivered, is the bounded end of all decoded text, given that no two byte order marks adjoin |
| CoordinatorVerdicts.AttachedStatusTells | packages/ext-background-bash/src/process-manager.ts:354-365 | in every run the status that #persistInteractiveSnapshot has stored for an attached process is killed by a signal iff its only ending reply had that signal, and else unknown iff that reply had no exit code, completed iff the code was 0, and failed with the code iff it was another |
| CoordinatorVerdicts.TerminalStatusTells | packages/ext-background-bash/src/process-manager.ts:354-365 | the same of a terminal and one of the replies that said it had ended |
| CoordinatorVerdicts.FirstStatusStands | packages/ext-background-bash/src/process-manager.ts:346-365 | in every run the first terminal status stored stands, whoever stores others later |
| CoordinatorVerdicts.FreshAnswerVerdict | packages/ext-background-bash/src/coordinator.ts:260-300 | a read that asks the process, and does not fail, answers the running state, offset, exit code and signal of the reply, with the text it adds for an attached process and the text kept for a terminal |
| CoordinatorVerdicts.UnansweredReadVerdict | packages/ext-background-bash/src/coordinator.ts:260-264 | when the process does not answer, the read fails and leaves everything as it is; a terminal that has ended is still asked |
| CoordinatorVerdicts.NoNewsVerdict | packages/ext-background-bash/src/coordinator.ts:281-291 | a reply that repeats offset, running state, exit code and signal of the last delivered snapshot does not touch storage |
| CoordinatorVerdicts.NewsVerdict | packages/ext-background-bash/src/coordinator.ts:281-291 | any other reply is delivered: the log gets the text, appended or as a whole, and the snapshot says what the reply said |
| CoordinatorVerdicts.FailedReadVerdict | packages/ext-background-bash/src/coordinator.ts:260-300 | which fresh reads of an attached process fail, for each failing call of storage and of dispose, and what is then left to be retried |
| CoordinatorVerdicts.RepeatedReadVerdict | packages/ext-background-bash/src/coordinator.ts:260-300 | a pending snapshot is offered again as it is, without asking the process, and a delivered end is answered from memory |
| CoordinatorSerial.StepIsSerial | packages/ext-background-bash/src/coordinator.ts:239-300 | whenever a request comes in, an await of the operation in flight returns, a status is stored elsewhere or the entry is given up, the completed operations and these events amount to ones that follow one another, and the operation in flight to part of the next |
| CoordinatorSerial.InterleavedReadsKeepLog | packages/ext-background-bash/src/coordinator.ts:239-300 | however requests, awaits and other events interleave, the effect is that of reads and events in order; between operations a log without pending snapshot is the decoded stream, and a status stored by #persistInteractiveSnapshot means that it is complete |
| JobQuery.RunQuery | packages/ext-background-bash/src/job-store.ts:232-270 | rejects exactly the invalid limits, cursors and searches, and otherwise returns the page of the newest identifiers below the cursor |
| JobQuery.NextQueryIsAccepted | packages/ext-background-bash/src/job-store.ts:232-270 | a cursor that is handed out is an identifier below the last cursor, so the query that carries it is not rejected |
| JobQuery.ScanPage | packages/ext-background-bash/src/job-store.ts:255-270 | a page holds the matches of the scanned identifiers in order and stops at the first of: limit reached, one hundred scanned, nothing left |
| JobQuery.ListIds | packages/ext-background-bash/src/job-store.ts:272-276 | exactly the well-formed identifiers of the directory, each once, in strictly descending order |
| JobQuery.WalkDescends | packages/ext-background-bash/src/job-store.ts:232-276 | along a walk over a changing store, cursors and scanned identifiers strictly decrease |
| JobQuery.WalkCovers | packages/ext-background-bash/src/job-store.ts:232-276 | an identifier that is there whenever a page is read is scanned by some page |
| JobQuery.EachScannedOnce | packages/ext-background-bash/src/job-store.ts:232-276 | an identifier present whenever a page is read is scanned exactly once in the whole walk, and no identifier twice |
| JobQuery.WalkIsComplete | packages/ext-background-bash/src/job-store.ts:232-276 | on a fixed store the pages concatenate to all matches in descending order |
| JobQuery.WalkEnds | packages/ext-background-bash/src/job-store.ts:243-270 | following cursors of a fixed store comes to an end |
| JobQuery.RequestVerdict | packages/ext-background-bash/src/job-store.ts:232-254 | which queries are rejected and with which error: a limit outside 1 to 100 first, then a cursor that is no identifier, then a search of more than 256 characters |
| JobQuery.PageVerdict | packages/ext-background-bash/src/job-store.ts:243-276 | a job is on the page iff it is found under a scanned identifier, has the status asked for, and its identifier or command contains the search; candidates are the identifiers below the cursor |
| JobQuery.JobIdVerdict | packages/ext-background-bash/src/job-store.ts:110-136 | an identifier is `bash-`, fourteen digits, a hyphen and six lower-case hexadecimal digits |
| JobStatus.JobFiles.Update | packages/ext-background-bash/src/job-store.ts:278-349 | markStatus, markRunning and updatePid write the files in the order of the source; with only the first n writes succeeding, exactly those are applied |
| JobStatus.JobFiles.ReadStoredJob | packages/ext-background-bash/src/job-store.ts:363-378 | reports the info merged with a terminal completion and completes an info that still says running |
| JobStatus.CrashIsInvisible | packages/ext-background-bash/src/job-store.ts:300-329 | a reader after a crash between the two writes sees the same job as after both iff the status is terminal or the patch changes nothing |
| JobStatus.RunningPatchShowsCrash | packages/ext-background-bash/src/job-store.ts:300-329 | a concrete patch that keeps a job running for which the crash is visible; no call of markStatus in process-manager.ts makes one |
| JobStatus.ReadsWhatWasReturned | packages/ext-background-bash/src/job-store.ts:278-349 | later readers see what an operation returned iff it is not an updatePid overridden by a terminal completion file |
| JobStatus.LateUpdatePidIsUnheard | packages/ext-background-bash/src/job-store.ts:278-298 | a concrete job whose completion file hides the process id that updatePid has stored and returned |
| JobStatus.TerminalIsFinal | packages/ext-background-bash/src/job-store.ts:278-378 | once a terminal status is reported its status, exit code, signal, times and error never change, whatever operations follow and wherever they are cut short |
| JobStatus.HealKeepsReport | packages/ext-background-bash/src/job-store.ts:367-377 | completing info.json changes nothing a reader can see |
| JobStatus.MarkedJob | packages/ext-background-bash/src/job-store.ts:300-329 | after markStatus of a running job readers see the patch where it says something and the job elsewhere, with the moment of completion set exactly when the status is terminal and the patch gives none; completion.json says the same |
| JobStatus.RunningJob | packages/ext-background-bash/src/job-store.ts:331-349 | after markRunning only mode, promotion and time have changed, and nothing of a job that is over |
| JobStatus.PiddedJob | packages/ext-background-bash/src/job-store.ts:278-298 | after updatePid the info has the process id, group, mode and promotion given, and a new time only while the job runs |
| JobStatus.ReportedJob | packages/ext-background-bash/src/job-store.ts:363-378 | readers see a terminal completion over the info, field by field, and the info alone otherwise |
| JobStatus.ReadCompletesInfo | packages/ext-background-bash/src/job-store.ts:367-377 | a reader writes exactly when the info still says running of a job that is over, and then makes it what it reports |
| ProcessLog.SplitProcessLog | packages/ext-background-bash/src/data.ts:69-82 | the chunks concatenate to the retained end of the log, are at most 33, and each meets the text, JSON size and count limits of the detail check |
| ProcessLog.ChunkLog | packages/ext-background-bash/src/data.ts:74-81 | the counted size of a chunk is its real JSON-encoded size, and a closed chunk had no room for another character |
| ProcessLog.RetainedEnd | packages/ext-background-bash/src/data.ts:70-73 | slicing by UTF-16 units first does not change the last 128 KiB of whole characters |
| ProcessLog.ClipProcessText | packages/ext-background-bash/src/data.ts:43-53 | the longest prefix whose JSON encoding fits, lone surrogates replaced |
| ProcessLog.CountedSizeIsEscapedSize | packages/ext-background-bash/src/data.ts:55-60 | the counted bytes of a character are the bytes JSON.stringify prints for it |
| ProcessLog.FewChunks | packages/ext-background-bash/src/data.ts:74-81 | thirty-three closed chunks would exceed what 128 KiB can escape to |
| ProcessLog.RetainedVerdict | packages/ext-background-bash/src/data.ts:69-73 | what is shown of a log is the longest end of its characters within 128 KiB, less a byte order mark in front |
| Utf16.SliceKeepsTail | packages/ext-background-bash/src/data.ts:70-71 | dropping all but the last n units, even inside a surrogate pair, keeps the last n bytes of whole characters |
| CanonicalJson.CanonicalTextDecides | apps/daemon/src/session-history.ts:357-362 | two JSON values print the same canonical text iff they are equal up to the order of object keys |
| CanonicalJson.NormalIffSame | apps/daemon/src/session-history.ts:357-362 | putting keys in order identifies exactly the values that are equal as JSON |
| CanonicalJson.KeysAscend | apps/daemon/src/session-history.ts:359-361 | keys come in the order of their units: each after those it extends, or exceeds where they first differ |
| Json.PrintPrefixFree | apps/daemon/src/session-history.ts:357-362 | a printed value followed by a delimiter determines the value and what follows |
| Json.EscapedPrefixFree | apps/daemon/src/session-history.ts:359-361 | an escaped string ends at its first unescaped quote and determines its characters |
| SessionPages.PackPage | apps/daemon/src/session-history.ts:194-215 | a page takes values as long as each page so far fits the byte budget, refuses a start beyond the end as stale and a single value that does not fit as oversize, and names the next offset iff values are left |
| SessionPages.PageSizeIsSum | apps/daemon/src/session-history.ts:202-212 | the real JSON size of a page is the overhead plus the item sizes plus the commas |
| SessionPages.ServePage | apps/daemon/src/session-history.ts:147-215 | a request fails as invalid iff its limit or its cursor is bad, as stale when its cursor belongs to another kind, target, revision or branch or lies beyond the end, as oversize iff the value it begins with does not fit a page alone, and is answered with the page at its offset otherwise |
| SessionPages.CursorContinues | apps/daemon/src/session-history.ts:186-215 | a handed-out cursor is accepted for its scope and leads just behind its non-empty page |
| SessionPages.WalkCollectsAll | apps/daemon/src/session-history.ts:186-215 | with an unchanged revision the pages of a walk without failure concatenate to exactly the values |
| SessionPages.WalkEnds | apps/daemon/src/session-history.ts:186-215 | following cursors comes to an end |
| SessionPages.FollowCursors | apps/daemon/src/session-history.ts:186-215 | following cursors from any valid start always ends, after at most one answer more than values left |
| SessionPages.WalkSucceedsIffAllFit | apps/daemon/src/session-history.ts:186-215 | with an unchanged revision following cursors succeeds iff every value left fits a page alone, and the pages are then together exactly the values |
| SessionPages.WalkStopsAtOversize | apps/daemon/src/session-history.ts:207-208 | otherwise it fails as oversize, having delivered exactly the values before the first that does not fit |
| SessionPages.ServedVerdict | apps/daemon/src/session-history.ts:186-215 | with a valid limit and a readable cursor a request fails as stale iff its cursor is of another kind, target, revision or branch or beyond the end, as oversize iff its first value alone exceeds twelve mebibytes, and else gets as many values as limit and budget allow |
| Transcript.ParseTranscript | apps/daemon/src/session-history.ts:237-273 | a file is accepted iff it is a header and a forest of entries, each with a new identifier and an earlier parent; otherwise its first fault is reported |
| Transcript.ForestGrows | apps/daemon/src/session-history.ts:259-262 | the loop's check accepts an entry iff the entries with it are still such a forest |
| Transcript.Checkpoint | apps/daemon/src/session-history.ts:167-183 | for an accepted file the walk ends, finds every parent and gives the path from a root to the last entry |
| Transcript.RecordVerdict | apps/daemon/src/session-history.ts:237-262 | which record stops the parse and with which fault, as header and as entry |
| Transcript.RowsInOrder | apps/daemon/src/session-history.ts:116-118 | the inventory lists later updates first, and equal ones by identifier |
| Transcript.RevisionIgnoresOrder | apps/daemon/src/session-history.ts:116-118 | rows and revision do not depend on the order in which the inventory is enumerated |
| CommandSuggestions.EditDistance | apps/felan/src/cli-command-suggestions.ts:47-60 | the table filled by the loops holds the recursive optimal string alignment distance |
| CommandSuggestions.DistanceOne | apps/felan/src/cli-command-suggestions.ts:47-60 | the distance is 1 iff one insertion, deletion, substitution or swap of neighbours turns one word into the other |
| CommandSuggestions.SuggestionIsUnique | apps/felan/src/cli-command-suggestions.ts:5-10 | a word is suggested iff it is the only candidate of at least four letters one edit away from a lower-case input that is not itself a candidate |
| CommandSuggestions.TranspositionIsSwap | apps/felan/src/cli-command-suggestions.ts:40-45 | holds iff swapping one pair of different neighbours turns the input into the candidate |
| Threading.ThreadSessions | apps/felan/src/session-picker.ts:194-214 | ends for any parent links, cyclic ones included, and returns the sorted forest |
| Threading.Visit | apps/felan/src/session-picker.ts:208-212 | pushes a session and everything below it, depth first, and ends although parent links may form cycles elsewhere |
| Threading.Group | apps/felan/src/session-picker.ts:195-205 | the roots, and for each path its children, both in the order of the sessions |
| Threading.LevelBound | apps/felan/src/session-picker.ts:208-212 | a chain of parents that reaches a root is shorter than the list of sessions |
| ThreadForest.ThreadedIsForest | apps/felan/src/session-picker.ts:194-214 | the list holds exactly the sessions whose chain of parents ends at a root, each once with its level as depth, in preorder, siblings most recent first |
| ThreadForest.RootsAndSiblings | apps/felan/src/session-picker.ts:194-214 | the entries at depth zero are the sessions without a parent in the list, and of two roots or siblings the one listed first was modified no earlier |
| ThreadForest.RootIsListed | apps/felan/src/session-picker.ts:194-205 | a session that names no parent, an empty one or one that is not in the list is listed at depth zero |
| ThreadForest.ChildIsListed | apps/felan/src/session-picker.ts:206-214 | a session whose parent is listed is listed one level deeper |
| Order.SortIsStable | apps/felan/src/session-picker.ts:194-205 | sorting leaves sessions that were modified at the same time in their old order |
| JsonWriter.HeadlessJsonWriter.EnqueueLine | apps/felan/src/headless.ts:231-235 | appends and pumps, whatever `write` does: call back at once, throw, or both; nothing once closed |
| JsonWriter.HeadlessJsonWriter.PumpQueue | apps/felan/src/headless.ts:259-276 | hands over the first line unless a write is in flight, or resolves every waiter when the queue is empty |
| JsonWriter.HeadlessJsonWriter.FlushLines | apps/felan/src/headless.ts:246-250 | rejects after a failure, resolves at once on an empty queue, and waits otherwise |
| JsonWriter.HeadlessJsonWriter.CloseWriter | apps/felan/src/headless.ts:252-257 | closes, drops the queue and rejects every waiter once |
| JsonWriter.HeadlessJsonWriter.FailWith | apps/felan/src/headless.ts:237-244 | the first failure closes the writer, rejects every waiter with it and reports it once; later ones are ignored |
| JsonWriter.HeadlessJsonWriter.WriteDone | apps/felan/src/headless.ts:268-274 | an acknowledged line leaves the queue and a pump is scheduled; an error fails the writer; nothing once closed |
| JsonWriter.StepKeeps | apps/felan/src/headless.ts:222-277 | every call, callback and microtask keeps order, progress, the tally of waiters and honest flushes |
| JsonWriter.Live | apps/felan/src/headless.ts:222-277 | a writer to which the events of any run happen, its methods called in turn, ends in the state of that run |
| JsonWriter.LinesReachWriteInOrder | apps/felan/src/headless.ts:259-276 | in every run lines reach `write` one at a time in the order accepted, none lost or repeated |
| JsonWriter.NeverStuck | apps/felan/src/headless.ts:259-276 | an open writer with lines or waiters left has a write in flight or a pump due |
| JsonWriter.ResolvedMeansAcknowledged | apps/felan/src/headless.ts:246-250 | a flush made while open resolves only after every earlier line was acknowledged |
| JsonWriter.EachFlushSettlesOnce | apps/felan/src/headless.ts:222-277 | every flush is waiting or settled, settled once, and after closing none waits |
| JsonWriter.FlushAfterClose | apps/felan/src/headless.ts:246-257 | with unacknowledged lines a flush resolves at once iff the writer was closed without failure |
| JsonWriter.CloseThenFlushResolves | apps/felan/src/headless.ts:246-257 | a concrete run in which this happens |
| JsonWriterVerdicts.AcknowledgedMeansCalledBack | apps/felan/src/headless.ts:259-276 | in every run the lines counted as acknowledged are as many as the callbacks without an error that reached the open writer, counted on the labels alone |
| JsonWriterVerdicts.ErrorVerdict | apps/felan/src/headless.ts:237-276 | in every run a step in which an error, of a callback or thrown by `write`, reaches the open writer leaves it closed with that failure, an empty queue, every waiter rejected with it and one more error reported |
| JsonWriterVerdicts.DoneVerdict | apps/felan/src/headless.ts:268-274 | a callback without an error takes the first line off the queue and schedules a pump; with one it fails the writer; a closed writer ignores both |
| JsonWriterVerdicts.HandVerdict | apps/felan/src/headless.ts:259-276 | what handing over the first line leaves behind, for a `write` that calls back at once, throws, does both or neither |
| JsonWriterVerdicts.EnqueueVerdict | apps/felan/src/headless.ts:231-235 | a line is accepted iff the writer is open, and the first of the queue is then handed over iff no write is in flight; what `write` reports meanwhile counts as told |
| JsonWriterVerdicts.TickVerdict | apps/felan/src/headless.ts:259-276 | what a pump does: nothing while a write is in flight or once closed, hand over the first line, or resolve all waiters of an empty queue |
| JsonWriterVerdicts.StopVerdict | apps/felan/src/headless.ts:237-257 | what fail and close leave of an open and of a closed writer |
| JsonWriterVerdicts.FlushVerdict | apps/felan/src/headless.ts:246-250 | a flush is rejected with the failure, resolved at once on an empty queue, and waits otherwise |

## Left out

- Lock: unconditional exclusion. The reclaim of a directory that somebody owns overlaps that holder until its heartbeat notices, so exclusion is stated for reclaims of unowned directories and detection for all runs. A holder whose confirming reply was already under way may refresh once after its directory is gone.
- Lock: system calls without effect when they fail, identities never reused; retry delays, `isCurrent` and the abort signal wrapper are not modelled.
- Attachment: attempts are values in a history list, so aliasing of attempt objects is not captured; observation, command-line replies and endpoint checks are outcomes given to the step; timeouts are aborts that may come at any time; of the cleanup, the steps between starting and finishing a run are functions, not methods.
- AttachmentSafety: promises of waiting callers are not modelled, only the state they observe.
- FileListing: the tree is fixed during a listing: no lstat race, no abort signal; paths are joined with a slash; a character of a string stands for a code unit; what `validateListingBound` says of non-integers is left out.
- Regex: only the fragment that compiled globs use is read and matched.
- OutputBuffer: waiting for output and its listeners; the process and its signals.
- Foreground: `read` waits, clocks and random file names are parameters; a storage call that fails has no effect; `pruneSpills` is assumed to leave the command's own file alone.
- Coordinator: the other writers of statuses (a failed promotion or start, a stop or a refresh of an unattached job) are events that may come at any time, with the patches they pass; when they come is not modelled. Disposing of a process counts as part of the last await.
- CoordinatorSerial: the queue of `#serialize` is a number of waiting requests, all alike; which request gets which answer is not modelled. Adopting again after a failed first read would start a second entry and is not covered; starting, attaching and shutting down terminals are plumbing.
- JobQuery: job contents are what each read returned; `refresh` and trimming or lower-casing of the search text happen before the model; the check of the status filter is a type.
- JobStatus: files either parse completely or are absent; `readLegacyJob` and the normalisation of foreign JSON are not modelled; operations of one job run one after another, as `withJob` makes them within a process.
- ProcessLog: the rest of `parseProcessViewRequest` is field checks.
- SessionPages: HMAC seals are tokens that only the server can make, SHA-256 digests are injective, and an aborted request is not modelled.
- CanonicalJson: numbers are opaque tokens, distinct for distinct numbers; members whose value is undefined do not occur in parsed JSON.
- Transcript: the verdict of `validateEntry`, JSON parsing and the migration of old entries (which keeps id and parentId) are inputs; yielding to the event loop is left out.
- CommandSuggestions: the option checks of `suggestTopLevelCommand`.
- Threading: session paths are taken to be different, as session files have; the picker's selection and rendering are not modelled, and that equally recent siblings keep their order is stated of the sort (`Order.SortIsStable`) but not of the list.
- JsonWriter: `write` calls back at most once a line; waiters and `onError` do not call the writer while it settles them.
- Rotation and retention of files, PTYs, `ps` and `kill` inspection, command-line and terminal interfaces, installers, updates, diagrams and wire formats are not part of this model.
