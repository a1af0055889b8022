/** The research bridge client as a step system: a claim marker, per-job files, a process lock and any number
    of clients that may crash between any two file or network operations. The server is not modelled: every
    answer it could give is a parameter of the step that asks. */
module Bridge {
  import opened Common

  type ClientId = nat
  type JobId = string
  type ClaimId = string

  /** The evidence package of a job: its input hash and the identifiers of its evidence items. */
  datatype Package = Package(inputHash: string, evidence: set<string>)

  datatype Lease = Lease(leaseId: ClaimId, package: Package)

  /** The content of a result file: not a research result at all, or its identity, its references, and the
      fields that the client overwrites after the model has run. */
  datatype File = Unparsable | Parsed(jobId: JobId, inputHash: string, refs: set<string>, producer: string)

  /** The model process of a job folder. */
  datatype Child = NotStarted | Running | Wrote | Ended

  datatype Folder = Folder(
    lease: Option<Lease>, evidence: bool, attempt: bool, result: Option<File>, child: Child)

  const EMPTY_FOLDER := Folder(None, false, false, None, NotStarted)

  /** Where a client is: the next operation it will perform. */
  datatype Pc =
    | Idle
    // claim
    | ClaimChosen(id: ClaimId) | ClaimMarked(id: ClaimId) | ClaimEmpty
    | ClaimLease(job: JobId, lease: Lease) | ClaimEvidence(job: JobId)
    // execute, under the lock
    | Entered(job: JobId, approved: bool) | Active(job: JobId, approved: bool) | Looking(job: JobId)
    | Absent(job: JobId) | Attempting(job: JobId) | Launching(job: JobId) | Waiting(job: JobId)
    | Storing(job: JobId, file: File) | Validating(job: JobId)
    | Failing(job: JobId) | FailAccepted(job: JobId)
    | Submitting(job: JobId) | Posting(job: JobId, file: File) | Accepted(job: JobId) | Receipted(job: JobId)
    // the submit command, without the lock
    | HandPosting(job: JobId, file: File) | HandAccepted(job: JobId) | HandReceipted(job: JobId)
    // release
    | Releasing(job: JobId) | Unlinking(job: JobId, id: ClaimId)

  predicate UnderLock(pc: Pc) {
    pc.Entered? || pc.Active? || pc.Looking? || pc.Absent? || pc.Attempting? || pc.Launching? || pc.Waiting?
    || pc.Storing? || pc.Validating? || pc.Failing? || pc.FailAccepted? || pc.Submitting? || pc.Posting?
    || pc.Accepted? || pc.Receipted?
  }

  datatype State = State(
    marker: Option<ClaimId>,
    jobs: map<JobId, Folder>,
    lock: Option<ClientId>,
    clients: map<ClientId, Pc>,
    validated: map<JobId, File>)

  function At(s: State, c: ClientId): Pc {
    if c in s.clients then s.clients[c] else Idle
  }

  function FolderOf(s: State, job: JobId): Folder {
    if job in s.jobs then s.jobs[job] else EMPTY_FOLDER
  }

  function Move(s: State, c: ClientId, pc: Pc): State {
    s.(clients := s.clients[c := pc])
  }

  /** Leave the locked section, by returning or by raising. */
  function Leave(s: State, c: ClientId): State {
    Move(s, c, Idle).(lock := None)
  }

  function Save(s: State, job: JobId, folder: Folder): State {
    s.(jobs := s.jobs[job := folder])
  }

  /** `validate_result`: the file parses, names this job and its input, and cites known evidence only. */
  predicate Passes(job: JobId, lease: Option<Lease>, result: Option<File>) {
    && lease.Some? && result.Some? && result.value.Parsed?
    && result.value.jobId == job
    && result.value.inputHash == lease.value.package.inputHash
    && result.value.refs <= lease.value.package.evidence
  }

  datatype ClaimAnswer = ClaimLost | NoJob | BadPackage | Job(job: JobId, lease: Lease)

  /** The end of the model process as its parent sees it. */
  datatype Exit = TimedOut | BadExit | GoodExit(producer: string)

  /** `claim`. */
  datatype ClaimOp =
    | ReadMarker(minted: ClaimId) | WriteMarker | PostClaim(id: ClaimId, answer: ClaimAnswer) | ClearEmpty
    | StoreLease | StoreEvidence

  /** `execute_job` up to the end of the model process. */
  datatype RunOp =
    | TakeLock(job: JobId, approved: bool) | AskStatus(running: bool) | CheckApproval
    | LookForOutput | LookForAttempt(ready: bool) | WriteAttempt(job: JobId) | AbortLaunch | Launch(job: JobId)
    | Collect(exit: Exit)

  /** `execute_job` from the model's output on: store, validate, then report or submit. */
  datatype ReportOp =
    | Store | Validate(job: JobId)
    | PostFailure(job: JobId, accepted: bool) | FailUnreported | ClearFailed
    | CheckAgain | PostResult(job: JobId, file: File, accepted: bool) | WriteReceipt | ClearSubmitted

  /** The `submit` and `release` commands, which do not take the lock. */
  datatype HandOp =
    | HandSubmit(job: JobId, file: File) | HandPost(accepted: bool) | HandReceipt | ClearHandSubmitted
    | AskClosed(job: JobId, closed: bool) | Release(job: JobId) | Unlink(job: JobId)

  datatype Action =
    | Claims(c: ClientId, claim: ClaimOp)
    | Runs(c: ClientId, run: RunOp)
    | Reports(c: ClientId, report: ReportOp)
    | Hands(c: ClientId, hand: HandOp)
    | Crash(c: ClientId)
    | ChildWrites(job: JobId, file: File)
    | ChildEnds(job: JobId)
    | Tamper(job: JobId, lease: Option<Lease>, evidence: bool, result: Option<File>)

  /** One step, or None when the action is not the client's next operation. */
  function Step(s: State, a: Action): Option<State> {
    match a
    case Claims(c, op) => ClaimStep(s, c, At(s, c), op)
    case Runs(c, op) => RunStep(s, c, At(s, c), op)
    case Reports(c, op) => ReportStep(s, c, At(s, c), op)
    case Hands(c, op) => HandStep(s, c, At(s, c), op)
    case Crash(c) => Some(Move(s, c, Idle).(lock := if s.lock == Some(c) then None else s.lock))
    case ChildWrites(job, file) =>
      if FolderOf(s, job).child != Running then None
      else Some(Save(s, job, FolderOf(s, job).(result := Some(file), child := Wrote)))
    case ChildEnds(job) =>
      if FolderOf(s, job).child != Running && FolderOf(s, job).child != Wrote then None
      else Some(Save(s, job, FolderOf(s, job).(child := Ended)))
    case Tamper(job, lease, evidence, result) =>
      Some(Save(s, job, FolderOf(s, job).(lease := lease, evidence := evidence, result := result)))
  }

  function ClaimStep(s: State, c: ClientId, pc: Pc, op: ClaimOp): Option<State> {
    match op
    case ReadMarker(minted) =>
      if pc != Idle then None
      else Some(Move(s, c, ClaimChosen(if s.marker.Some? then s.marker.value else minted)))
    case WriteMarker =>
      if !pc.ClaimChosen? then None else Some(Move(s, c, ClaimMarked(pc.id)).(marker := Some(pc.id)))
    case PostClaim(id, answer) =>
      if pc != ClaimMarked(id) then None
      else if answer.NoJob? then Some(Move(s, c, ClaimEmpty))
      else if answer.Job? then Some(Move(s, c, ClaimLease(answer.job, answer.lease)))
      else Some(Move(s, c, Idle))
    case ClearEmpty =>
      if pc != ClaimEmpty then None else Some(Move(s, c, Idle).(marker := None))
    case StoreLease =>
      if !pc.ClaimLease? then None
      else Some(Save(Move(s, c, ClaimEvidence(pc.job)), pc.job,
                     FolderOf(s, pc.job).(lease := Some(pc.lease))))
    case StoreEvidence =>
      if !pc.ClaimEvidence? then None
      else Some(Save(Move(s, c, Idle), pc.job, FolderOf(s, pc.job).(evidence := true)))
  }

  function RunStep(s: State, c: ClientId, pc: Pc, op: RunOp): Option<State> {
    match op
    case TakeLock(job, approved) =>
      if pc != Idle || s.lock.Some? then None
      else Some(Move(s, c, Entered(job, approved)).(lock := Some(c)))
    case AskStatus(running) =>
      if !pc.Entered? then None
      else if running then Some(Move(s, c, Active(pc.job, pc.approved)))
      else Some(Leave(s, c))
    case CheckApproval =>
      if !pc.Active? then None
      else if pc.job !in s.jobs || (s.jobs[pc.job].result.None? && !pc.approved) then Some(Leave(s, c))
      else Some(Move(s, c, Looking(pc.job)))
    case LookForOutput =>
      if !pc.Looking? then None
      else Some(Move(s, c, if FolderOf(s, pc.job).result.Some? then Validating(pc.job) else Absent(pc.job)))
    case LookForAttempt(ready) =>
      if !pc.Absent? then None
      else if FolderOf(s, pc.job).attempt || !FolderOf(s, pc.job).evidence || !ready
      then Some(Move(s, c, Failing(pc.job)))
      else Some(Move(s, c, Attempting(pc.job)))
    case WriteAttempt(job) =>
      if pc != Attempting(job) then None
      else Some(Save(Move(s, c, Launching(job)), job, FolderOf(s, job).(attempt := true)))
    case AbortLaunch =>
      if !pc.Launching? then None else Some(Move(s, c, Failing(pc.job)))
    case Launch(job) =>
      if pc != Launching(job) || FolderOf(s, job).result.Some? then None
      else Some(Save(Move(s, c, Waiting(job)), job, FolderOf(s, job).(child := Running)))
    case Collect(exit) =>
      if !pc.Waiting? then None
      else
        var folder := FolderOf(s, pc.job);
        if exit.TimedOut? then Some(Save(Move(s, c, Failing(pc.job)), pc.job, folder.(child := Ended)))
        else if folder.child != Ended then None
        else if exit.GoodExit? && folder.result.Some? && folder.result.value.Parsed?
        then Some(Move(s, c, Storing(pc.job, folder.result.value.(producer := exit.producer))))
        else Some(Move(s, c, Failing(pc.job)))
  }

  function ReportStep(s: State, c: ClientId, pc: Pc, op: ReportOp): Option<State> {
    match op
    case Store =>
      if !pc.Storing? then None
      else Some(Save(Move(s, c, Validating(pc.job)), pc.job, FolderOf(s, pc.job).(result := Some(pc.file))))
    case Validate(job) =>
      if pc != Validating(job) then None
      else
        var folder := FolderOf(s, job);
        if Passes(job, folder.lease, folder.result)
        then Some(Move(s, c, Submitting(job)).(validated := s.validated[job := folder.result.value]))
        else Some(Move(s, c, Failing(job)))
    case PostFailure(job, accepted) =>
      if pc != Failing(job) || FolderOf(s, job).lease.None? then None
      else if accepted then Some(Move(s, c, FailAccepted(job)))
      else Some(Leave(s, c))
    case FailUnreported =>
      if !pc.Failing? || FolderOf(s, pc.job).lease.Some? then None else Some(Leave(s, c))
    case ClearFailed =>
      if !pc.FailAccepted? then None else Some(Leave(s, c).(marker := None))
    case CheckAgain =>
      if !pc.Submitting? then None
      else
        var folder := FolderOf(s, pc.job);
        if Passes(pc.job, folder.lease, folder.result)
        then Some(Move(s, c, Posting(pc.job, folder.result.value)))
        else Some(Leave(s, c))
    case PostResult(job, file, accepted) =>
      if pc != Posting(job, file) then None
      else if accepted then Some(Move(s, c, Accepted(job)))
      else Some(Leave(s, c))
    case WriteReceipt =>
      if !pc.Accepted? then None else Some(Move(s, c, Receipted(pc.job)))
    case ClearSubmitted =>
      if !pc.Receipted? then None else Some(Leave(s, c).(marker := None))
  }

  function HandStep(s: State, c: ClientId, pc: Pc, op: HandOp): Option<State> {
    match op
    case HandSubmit(job, file) =>
      if pc != Idle || !Passes(job, FolderOf(s, job).lease, Some(file)) then None
      else Some(Move(s, c, HandPosting(job, file)))
    case HandPost(accepted) =>
      if !pc.HandPosting? then None
      else Some(Move(s, c, if accepted then HandAccepted(pc.job) else Idle))
    case HandReceipt =>
      if !pc.HandAccepted? then None else Some(Move(s, c, HandReceipted(pc.job)))
    case ClearHandSubmitted =>
      if !pc.HandReceipted? then None else Some(Move(s, c, Idle).(marker := None))
    case AskClosed(job, closed) =>
      if pc != Idle || job !in s.jobs then None
      else Some(Move(s, c, if closed then Releasing(job) else Idle))
    case Release(job) =>
      if pc != Releasing(job) then None
      else
        var lease := FolderOf(s, job).lease;
        if s.marker.Some? && lease.Some? && s.marker.value == lease.value.leaseId
        then Some(Move(s, c, Unlinking(job, s.marker.value)))
        else Some(Move(s, c, Idle))
    case Unlink(job) =>
      if !pc.Unlinking? || pc.job != job then None else Some(Move(s, c, Idle).(marker := None))
  }
}
