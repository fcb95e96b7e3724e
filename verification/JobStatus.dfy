/**
  packages/ext-background-bash/src/job-store.ts: the status of a job lives in two
  files. Finishing a job writes completion.json and then info.json; a crash or a
  failed write between any two writes must not be seen by later readers.
 */
module JobStatus {
  import opened Wrappers

  datatype Status = Running | Completed | Failed | Killed | Unknown

  datatype Mode = Detached | Pty | Attached

  /** A JSON value that may be null. */
  datatype Nullable<T> = Null | Value(value: T)

  /** info.json; `fixed` stands for the fields no operation changes. */
  datatype Info = Info(
    fixed: string,
    startedAt: int,
    updatedAt: int,
    status: Status,
    pid: Option<int>,
    processGroupId: Option<int>,
    exitCode: Option<Nullable<int>>,
    signal: Option<Nullable<string>>,
    completedAt: Option<int>,
    error: Option<string>,
    executionMode: Mode,
    promotedAt: Option<int>,
    outputTruncated: Option<bool>)

  /** completion.json. */
  datatype StatusFile = StatusFile(
    status: Status,
    startedAt: int,
    updatedAt: int,
    pid: Option<int>,
    exitCode: Option<Nullable<int>>,
    signal: Option<Nullable<string>>,
    completedAt: Option<int>,
    error: Option<string>,
    executionMode: Option<Mode>,
    promotedAt: Option<int>,
    outputTruncated: Option<bool>)

  /** The partial status handed to markStatus. */
  datatype Patch = Patch(
    status: Status,
    pid: Option<int>,
    exitCode: Option<Nullable<int>>,
    signal: Option<Nullable<string>>,
    completedAt: Option<int>,
    error: Option<string>,
    executionMode: Option<Mode>,
    promotedAt: Option<int>,
    outputTruncated: Option<bool>)

  predicate IsTerminal(s: Status) {
    s != Running
  }

  function Or<T>(first: Option<T>, second: Option<T>): Option<T> {
    if first.Some? then first else second
  }

  function MergeStatus(i: Info, s: StatusFile): Info {
    i.(status := s.status, updatedAt := s.updatedAt,
       pid := Or(s.pid, i.pid), exitCode := Or(s.exitCode, i.exitCode), signal := Or(s.signal, i.signal),
       completedAt := Or(s.completedAt, i.completedAt), error := Or(s.error, i.error),
       executionMode := s.executionMode.GetOr(i.executionMode),
       promotedAt := Or(s.promotedAt, i.promotedAt), outputTruncated := Or(s.outputTruncated, i.outputTruncated))
  }

  /** The status a patch makes of a job's. */
  function Patched(i: Info, p: Patch, now: int): StatusFile {
    StatusFile(p.status, i.startedAt, now,
      Or(p.pid, i.pid), Or(p.exitCode, i.exitCode), Or(p.signal, i.signal),
      if p.completedAt.None? && IsTerminal(p.status) then Some(now) else Or(p.completedAt, i.completedAt),
      Or(p.error, i.error), Some(p.executionMode.GetOr(i.executionMode)),
      Or(p.promotedAt, i.promotedAt), Or(p.outputTruncated, i.outputTruncated))
  }

  // ----- files and operations -----

  /** What parses of the two files; no info stands for an unknown job. */
  datatype Files = Files(info: Option<Info>, completion: Option<StatusFile>)

  datatype Write = ToCompletion(status: StatusFile) | ToInfo(info: Info)

  datatype Operation =
    | ReadJob
    | MarkStatus(patch: Patch, now: int)
    | MarkRunning(mode: Mode, promotedAt: int, now: int)
    | UpdatePid(pid: int, processGroupId: Option<int>, newMode: Option<Mode>, promotion: Option<int>, now: int)

  function Apply(f: Files, w: Write): Files {
    match w
    case ToCompletion(s) => f.(completion := Some(s))
    case ToInfo(i) => f.(info := Some(i))
  }

  function ApplyAll(f: Files, writes: seq<Write>): Files
    decreases writes
  {
    if writes == [] then f else ApplyAll(Apply(f, writes[0]), writes[1..])
  }

  predicate TerminalCompletion(f: Files) {
    f.completion.Some? && IsTerminal(f.completion.value.status)
  }

  /** What a reader is told. */
  function Report(f: Files): Option<Info> {
    if f.info.None? then None
    else if TerminalCompletion(f) then Some(MergeStatus(f.info.value, f.completion.value))
    else f.info
  }

  predicate ReportsTerminal(f: Files) {
    Report(f).Some? && IsTerminal(Report(f).value.status)
  }

  /** A reader completes an info.json that still says running. */
  function Heal(f: Files): seq<Write> {
    if f.info.Some? && f.info.value.status == Running && TerminalCompletion(f) then [ToInfo(Report(f).value)] else []
  }

  function Repid(i: Info, op: Operation): Info
    requires op.UpdatePid?
  {
    i.(pid := Some(op.pid), processGroupId := Or(op.processGroupId, i.processGroupId),
       executionMode := op.newMode.GetOr(i.executionMode), promotedAt := Or(op.promotion, i.promotedAt),
       updatedAt := if IsTerminal(i.status) then i.updatedAt else op.now)
  }

  /** What an operation writes besides completing the info it has read. */
  function Effect(job: Info, op: Operation): seq<Write> {
    match op
    case ReadJob => []
    case MarkStatus(p, now) =>
      if IsTerminal(job.status) then []
      else [ToCompletion(Patched(job, p, now)), ToInfo(MergeStatus(job, Patched(job, p, now)))]
    case MarkRunning(mode, promotedAt, now) =>
      if IsTerminal(job.status) then []
      else [ToInfo(job.(status := Running, executionMode := mode, promotedAt := Some(promotedAt), updatedAt := now))]
    case UpdatePid(_, _, _, _, _) => [ToInfo(Repid(job, op))]
  }

  function Writes(f: Files, op: Operation): seq<Write> {
    if f.info.None? then [] else Heal(f) + Effect(Report(f).value, op)
  }

  /** An operation cut short after `n` writes. */
  function CutShort(f: Files, op: Operation, n: nat): Files {
    var writes := Writes(f, op);
    ApplyAll(f, if n < |writes| then writes[..n] else writes)
  }

  /** What an operation that is not cut short returns. */
  function Returned(f: Files, op: Operation): Option<Info> {
    if f.info.None? then None
    else
      var effect := Effect(Report(f).value, op);
      if effect != [] && effect[|effect| - 1].ToInfo? then Some(effect[|effect| - 1].info) else Report(f)
  }

  class JobFiles {
    var files: Files
    /** How many more writes succeed before the process dies or storage fails. */
    var writesLeft: nat

    constructor (files: Files, writesLeft: nat)
      ensures this.files == files && this.writesLeft == writesLeft
    {
      this.files, this.writesLeft := files, writesLeft;
    }

    method Put(w: Write) returns (ok: bool)
      modifies this
      ensures ok == (old(writesLeft) > 0)
      ensures files == (if ok then Apply(old(files), w) else old(files))
      ensures writesLeft == (if ok then old(writesLeft) - 1 else 0)
    {
      if writesLeft == 0 { return false; }
      files, writesLeft := Apply(files, w), writesLeft - 1;
      return true;
    }

    /** The stored job, and whether nothing failed. */
    method ReadStoredJob() returns (job: Option<Info>, ok: bool)
      modifies this
      ensures ok == (old(writesLeft) >= |Heal(old(files))|)
      ensures ok ==> job == Report(old(files)) && writesLeft == old(writesLeft) - |Heal(old(files))|
      ensures files == (if ok then ApplyAll(old(files), Heal(old(files))) else old(files))
    {
      if files.info.None? { return None, true; }
      if files.completion.Some? && IsTerminal(files.completion.value.status) {
        var completed := MergeStatus(files.info.value, files.completion.value);
        if files.info.value.status == Running {
          var done := Put(ToInfo(completed));
          if !done { return None, false; }
        }
        return Some(completed), true;
      }
      return files.info, true;
    }

    method Update(op: Operation) returns (job: Option<Info>, ok: bool)
      modifies this
      ensures files == CutShort(old(files), op, old(writesLeft))
      ensures ok == (old(writesLeft) >= |Writes(old(files), op)|)
      ensures ok ==> job == Returned(old(files), op)
    {
      ghost var before, budget := files, writesLeft;
      job, ok := ReadStoredJob();
      if !ok {
        HealFirst(before, op);
        return;
      }
      if job.None? { return; }
      ghost var effect := Effect(job.value, op);
      CutInEffect(before, op, budget);
      ApplyFew(files, effect);
      match op {
        case ReadJob => return;
        case MarkStatus(patch, now) =>
          if IsTerminal(job.value.status) { return; }
          var status := Patched(job.value, patch, now);
          var info := MergeStatus(job.value, status);
          ok := Put(ToCompletion(status));
          if !ok { return; }
          ok := Put(ToInfo(info));
          job := Some(info);
        case MarkRunning(mode, promotedAt, now) =>
          if IsTerminal(job.value.status) { return; }
          var info := job.value.(status := Running, executionMode := mode, promotedAt := Some(promotedAt), updatedAt := now);
          ok := Put(ToInfo(info));
          job := Some(info);
        case UpdatePid(_, _, _, _, _) =>
          var info := Repid(job.value, op);
          ok := Put(ToInfo(info));
          job := Some(info);
      }
    }
  }

  lemma ApplyOne(f: Files, w: Write)
    ensures ApplyAll(f, [w]) == Apply(f, w)
  {
  }

  lemma ApplyFew(f: Files, writes: seq<Write>)
    requires |writes| <= 2
    ensures |writes| > 0 ==> ApplyAll(f, writes[..0]) == f
    ensures |writes| == 1 ==> ApplyAll(f, writes) == Apply(f, writes[0])
    ensures |writes| == 2 ==> ApplyAll(f, writes[..1]) == Apply(f, writes[0])
    ensures |writes| == 2 ==> ApplyAll(f, writes) == Apply(Apply(f, writes[0]), writes[1])
  {
    if |writes| == 2 {
      assert writes[..1] == [writes[0]];
      assert writes[1..] == [writes[1]];
      ApplyOne(Apply(f, writes[0]), writes[1]);
    }
  }

  lemma HealFirst(f: Files, op: Operation)
    requires f.info.Some? && |Heal(f)| > 0
    ensures CutShort(f, op, 0) == f && |Writes(f, op)| > 0
  {
  }

  lemma {:induction false} ApplyConcat(f: Files, a: seq<Write>, b: seq<Write>)
    ensures ApplyAll(f, a + b) == ApplyAll(ApplyAll(f, a), b)
    decreases a
  {
    if a == [] {
      assert a + b == b;
    } else {
      assert (a + b)[1..] == a[1..] + b;
      ApplyConcat(Apply(f, a[0]), a[1..], b);
    }
  }

  /** Once the read has succeeded, what is cut short is the effect. */
  lemma CutInEffect(f: Files, op: Operation, n: nat)
    requires f.info.Some? && n >= |Heal(f)|
    ensures var effect := Effect(Report(f).value, op); var m := n - |Heal(f)|;
            CutShort(f, op, n) == ApplyAll(ApplyAll(f, Heal(f)), if m < |effect| then effect[..m] else effect)
  {
    var effect := Effect(Report(f).value, op);
    var m := n - |Heal(f)|;
    var part := if m < |effect| then effect[..m] else effect;
    assert n < |Heal(f) + effect| ==> (Heal(f) + effect)[..n] == Heal(f) + part;
    ApplyConcat(f, Heal(f), part);
  }

  // ----- a crash between two writes -----

  /** The patch says nothing a running job does not already have. */
  predicate NothingNew(i: Info, p: Patch, now: int) {
    && p.status == i.status && now == i.updatedAt
    && (p.pid.Some? ==> p.pid == i.pid) && (p.exitCode.Some? ==> p.exitCode == i.exitCode)
    && (p.signal.Some? ==> p.signal == i.signal) && (p.completedAt.Some? ==> p.completedAt == i.completedAt)
    && (p.error.Some? ==> p.error == i.error) && (p.executionMode.Some? ==> p.executionMode.value == i.executionMode)
    && (p.promotedAt.Some? ==> p.promotedAt == i.promotedAt)
    && (p.outputTruncated.Some? ==> p.outputTruncated == i.outputTruncated)
  }

  /**
    Whoever reads after a crash between the two writes of markStatus sees what it would see
    after both, exactly when the new status is terminal or the patch changes nothing.
   */
  lemma CrashIsInvisible(f: Files, p: Patch, now: int)
    requires f.info.Some? && !ReportsTerminal(f)
    ensures Report(CutShort(f, MarkStatus(p, now), 1)) == Report(CutShort(f, MarkStatus(p, now), 2))
            <==> IsTerminal(p.status) || NothingNew(f.info.value, p, now)
  {
    var i := f.info.value;
    var s := Patched(i, p, now);
    assert Heal(f) == [] && Report(f) == f.info;
    var writes := [ToCompletion(s), ToInfo(MergeStatus(i, s))];
    assert Writes(f, MarkStatus(p, now)) == writes;
    ApplyFew(f, writes);
    assert CutShort(f, MarkStatus(p, now), 1) == Files(Some(i), Some(s));
    assert CutShort(f, MarkStatus(p, now), 2) == Files(Some(MergeStatus(i, s)), Some(s));
  }

  const RUNNING_JOB := Info("job", 1, 1, Running, None, None, None, None, None, None, Detached, None, None)

  const FINISHED := StatusFile(Completed, 1, 2, Some(7), Some(Value(0)), None, Some(2), None, None, None, None)

  /**
    A patch that keeps the job running and adds a process id: after a crash between the writes a
    reader is told of a job without one. Nothing in process-manager.ts makes such a patch; each of
    its calls of markStatus passes a terminal status.
   */
  lemma RunningPatchShowsCrash()
    ensures var f := Files(Some(RUNNING_JOB), None);
            var op := MarkStatus(Patch(Running, Some(7), None, None, None, None, None, None, None), 2);
            var torn, whole := Report(CutShort(f, op, 1)), Report(CutShort(f, op, 2));
            torn.Some? && whole.Some? && torn.value.pid == None && whole.value.pid == Some(7)
  {
    var f := Files(Some(RUNNING_JOB), None);
    var p := Patch(Running, Some(7), None, None, None, None, None, None, None);
    ApplyFew(f, Writes(f, MarkStatus(p, 2)));
  }

  /** The file of a finished job wins over what updatePid stores. */
  predicate Overridden(s: StatusFile, op: Operation)
    requires op.UpdatePid?
  {
    || (s.pid.Some? && s.pid.value != op.pid)
    || (s.executionMode.Some? && op.newMode.Some? && s.executionMode != op.newMode)
    || (s.promotedAt.Some? && op.promotion.Some? && s.promotedAt != op.promotion)
  }

  /** A later reader sees what an operation returned, unless updatePid came too late to be heard. */
  lemma ReadsWhatWasReturned(f: Files, op: Operation)
    requires f.info.Some?
    ensures Report(CutShort(f, op, |Writes(f, op)|)) == Returned(f, op)
            <==> !(op.UpdatePid? && TerminalCompletion(f) && Overridden(f.completion.value, op))
  {
    var effect := Effect(Report(f).value, op);
    var healed := ApplyAll(f, Heal(f));
    HealKeepsReport(f);
    CutInEffect(f, op, |Writes(f, op)|);
    ApplyFew(healed, effect);
    if op.UpdatePid? && TerminalCompletion(f) {
      var job := MergeStatus(f.info.value, f.completion.value);
      assert CutShort(f, op, |Writes(f, op)|) == Files(Some(Repid(job, op)), f.completion);
    }
  }

  /** The file of a job that finished as process 7 hides that updatePid has stored and returned process 8. */
  lemma LateUpdatePidIsUnheard()
    ensures var f := Files(Some(RUNNING_JOB), Some(FINISHED));
            var op := UpdatePid(8, None, None, None, 3);
            var later := Report(CutShort(f, op, |Writes(f, op)|));
            && Returned(f, op).Some? && Returned(f, op).value.pid == Some(8)
            && later.Some? && later.value.pid == Some(7)
  {
    var f := Files(Some(RUNNING_JOB), Some(FINISHED));
    ApplyFew(f, Writes(f, UpdatePid(8, None, None, None, 3)));
  }

  /** Completing info.json changes nothing a reader can see. */
  lemma HealKeepsReport(f: Files)
    ensures Report(ApplyAll(f, Heal(f))) == Report(f)
    ensures ApplyAll(f, Heal(f)).completion == f.completion
  {
    if Heal(f) != [] {
      ApplyOne(f, Heal(f)[0]);
      assert Heal(f) == [ToInfo(Report(f).value)];
    }
  }

  // ----- terminal outcomes are final -----

  datatype Outcome = Outcome(
    status: Status,
    updatedAt: int,
    exitCode: Option<Nullable<int>>,
    signal: Option<Nullable<string>>,
    completedAt: Option<int>,
    error: Option<string>)

  function OutcomeOf(i: Info): Outcome {
    Outcome(i.status, i.updatedAt, i.exitCode, i.signal, i.completedAt, i.error)
  }

  /** An operation, cut short or not; or the runner storing how the process ended. */
  datatype Event = Attempt(op: Operation, writes: nat) | RunnerWrites(status: StatusFile)

  /** The runner writes completion.json once: never over a terminal status. */
  predicate Allowed(f: Files, e: Event) {
    e.RunnerWrites? ==> !ReportsTerminal(f)
  }

  function Next(f: Files, e: Event): Files {
    match e
    case Attempt(op, n) => CutShort(f, op, n)
    case RunnerWrites(s) => f.(completion := Some(s))
  }

  function Run(f: Files, events: seq<Event>): Files
    decreases events
  {
    if events == [] then f else Run(Next(f, events[0]), events[1..])
  }

  predicate AllAllowed(f: Files, events: seq<Event>)
    decreases events
  {
    events != [] ==> Allowed(f, events[0]) && AllAllowed(Next(f, events[0]), events[1..])
  }

  lemma RepidKeepsOutcome(f: Files, op: Operation)
    requires ReportsTerminal(f) && op.UpdatePid?
    ensures var later := f.(info := Some(Repid(Report(f).value, op)));
            ReportsTerminal(later) && OutcomeOf(Report(later).value) == OutcomeOf(Report(f).value)
  {
  }

  lemma AttemptKeepsOutcome(f: Files, op: Operation, n: nat)
    requires ReportsTerminal(f)
    ensures var later := CutShort(f, op, n);
            ReportsTerminal(later) && OutcomeOf(Report(later).value) == OutcomeOf(Report(f).value)
  {
    if n < |Heal(f)| {
      HealFirst(f, op);
    } else {
      var effect := Effect(Report(f).value, op);
      var healed := ApplyAll(f, Heal(f));
      HealKeepsReport(f);
      CutInEffect(f, op, n);
      ApplyFew(healed, effect);
      if op.UpdatePid? {
        RepidKeepsOutcome(healed, op);
      } else {
        assert effect == [];
      }
    }
  }

  /**
    Once a terminal status has been reported, its outcome never changes, whatever
    operations follow and wherever each of them is cut short.
   */
  lemma {:induction false} TerminalIsFinal(f: Files, events: seq<Event>)
    requires ReportsTerminal(f) && AllAllowed(f, events)
    ensures ReportsTerminal(Run(f, events))
    ensures OutcomeOf(Report(Run(f, events)).value) == OutcomeOf(Report(f).value)
    decreases events
  {
    if events != [] {
      AttemptKeepsOutcome(f, events[0].op, events[0].writes);
      TerminalIsFinal(Next(f, events[0]), events[1..]);
    }
  }

  // ----- what each operation leaves for readers -----

  /** A field that is replaced where something is given. */
  predicate Replaced<T(==)>(given: Option<T>, before: Option<T>, after: Option<T>) {
    (given.Some? ==> after == given) && (given.None? ==> after == before)
  }

  /**
    What readers see after markStatus has marked a running job: the patch where it says something,
    the job elsewhere, and the moment of completion exactly once it is over.
   */
  lemma MarkedJob(f: Files, p: Patch, now: int)
    requires f.info.Some? && !ReportsTerminal(f)
    ensures var later := CutShort(f, MarkStatus(p, now), 2); var i := f.info.value;
            && Report(later).Some? && Returned(f, MarkStatus(p, now)) == Report(later)
            && var j := Report(later).value;
            && j.status == p.status && j.updatedAt == now && j.startedAt == i.startedAt && j.fixed == i.fixed
            && j.processGroupId == i.processGroupId
            && later.completion == Some(StatusFile(j.status, j.startedAt, j.updatedAt, j.pid, j.exitCode, j.signal, j.completedAt,
                                                   j.error, Some(j.executionMode), j.promotedAt, j.outputTruncated))
            && (p.completedAt.Some? ==> j.completedAt == p.completedAt)
            && (p.completedAt.None? && p.status != Running ==> j.completedAt == Some(now))
            && (p.completedAt.None? && p.status == Running ==> j.completedAt == i.completedAt)
            && Replaced(p.pid, i.pid, j.pid) && Replaced(p.exitCode, i.exitCode, j.exitCode)
            && Replaced(p.signal, i.signal, j.signal) && Replaced(p.error, i.error, j.error)
            && Replaced(p.executionMode, Some(i.executionMode), Some(j.executionMode))
            && Replaced(p.promotedAt, i.promotedAt, j.promotedAt)
            && Replaced(p.outputTruncated, i.outputTruncated, j.outputTruncated)
  {
    var i := f.info.value;
    assert Heal(f) == [] && Report(f) == f.info;
    ApplyFew(f, Writes(f, MarkStatus(p, now)));
  }

  /** A reader writes exactly when the info still says running of a job that is over, and then makes the info what it reports. */
  lemma ReadCompletesInfo(f: Files)
    ensures var late := f.info.Some? && f.info.value.status == Running && f.completion.Some? && f.completion.value.status != Running;
            var later := CutShort(f, ReadJob, 1);
            && |Writes(f, ReadJob)| == (if late then 1 else 0)
            && later.completion == f.completion && later.info == (if late then Report(f) else f.info)
            && Returned(f, ReadJob) == Report(f)
  {
    ApplyFew(f, Writes(f, ReadJob));
  }

  /** What readers see after markRunning: only mode, promotion and time have changed, and nothing of a job that is over. */
  lemma RunningJob(f: Files, mode: Mode, promotedAt: int, now: int)
    requires f.info.Some?
    ensures var op := MarkRunning(mode, promotedAt, now);
            var later := Report(CutShort(f, op, |Writes(f, op)|));
            && (ReportsTerminal(f) ==> later == Report(f))
            && (!ReportsTerminal(f) ==>
                  && later.Some? && later.value.status == Running && later.value.executionMode == mode
                  && later.value.promotedAt == Some(promotedAt) && later.value.updatedAt == now
                  && var i := f.info.value;
                     later.value.(executionMode := i.executionMode, promotedAt := i.promotedAt, updatedAt := i.updatedAt) == i)
  {
    var op := MarkRunning(mode, promotedAt, now);
    HealKeepsReport(f);
    CutInEffect(f, op, |Writes(f, op)|);
    ApplyFew(ApplyAll(f, Heal(f)), Effect(Report(f).value, op));
  }

  /** What updatePid returns, and what readers see of it while no completion file says otherwise. */
  lemma PiddedJob(f: Files, pid: int, group: Option<int>, mode: Option<Mode>, promotion: Option<int>, now: int)
    requires f.info.Some?
    ensures var op := UpdatePid(pid, group, mode, promotion, now);
            var i, j := Report(f).value, Returned(f, op);
            && j.Some? && j.value.pid == Some(pid) && Replaced(group, i.processGroupId, j.value.processGroupId)
            && Replaced(mode, Some(i.executionMode), Some(j.value.executionMode))
            && Replaced(promotion, i.promotedAt, j.value.promotedAt)
            && j.value.updatedAt == (if i.status == Running then now else i.updatedAt)
            && OutcomeOf(j.value).(updatedAt := i.updatedAt) == OutcomeOf(i)
            && j.value.startedAt == i.startedAt && j.value.fixed == i.fixed && j.value.outputTruncated == i.outputTruncated
            && (!TerminalCompletion(f) ==> Report(CutShort(f, op, |Writes(f, op)|)) == j)
  {
    ReadsWhatWasReturned(f, UpdatePid(pid, group, mode, promotion, now));
  }

  /** What readers are told: of a job with a terminal completion file what that says, of any other its info. */
  lemma ReportedJob(f: Files)
    ensures f.info.None? ==> Report(f).None?
    ensures f.info.Some? && (f.completion.None? || f.completion.value.status == Running) ==> Report(f) == f.info
    ensures f.info.Some? && f.completion.Some? && f.completion.value.status != Running ==>
      var i, c, r := f.info.value, f.completion.value, Report(f);
      && r.Some? && var j := r.value;
      && j.status == c.status && j.updatedAt == c.updatedAt && j.startedAt == i.startedAt && j.fixed == i.fixed
      && j.processGroupId == i.processGroupId
      && Replaced(c.pid, i.pid, j.pid) && Replaced(c.exitCode, i.exitCode, j.exitCode)
      && Replaced(c.signal, i.signal, j.signal) && Replaced(c.error, i.error, j.error)
      && Replaced(c.completedAt, i.completedAt, j.completedAt)
      && Replaced(c.executionMode, Some(i.executionMode), Some(j.executionMode))
      && Replaced(c.promotedAt, i.promotedAt, j.promotedAt)
      && Replaced(c.outputTruncated, i.outputTruncated, j.outputTruncated)
  {
  }
}
