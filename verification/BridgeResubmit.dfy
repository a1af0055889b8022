/** Once a stored result has validated, later executions only submit it again. */
module BridgeResubmit {
  import opened Common
  import opened Bridge
  import opened BridgeRuns

  /** No file fault, and the server answers every claim of a job with the same package. */
  ghost predicate Faithful(packageOf: JobId -> Package, a: Action) {
    && !a.Tamper?
    && (a.Claims? && a.claim.PostClaim? && a.claim.answer.Job? ==>
          a.claim.answer.lease.package == packageOf(a.claim.answer.job))
  }

  /** What a result must be to be posted: it parses, names its job and the input of the job's package, and cites only
      evidence of that package. */
  ghost predicate Answers(packageOf: JobId -> Package, job: JobId, file: File) {
    && file.Parsed? && file.jobId == job
    && file.inputHash == packageOf(job).inputHash && file.refs <= packageOf(job).evidence
  }

  predicate Done(child: Child) { child == Wrote || child == Ended }

  ghost predicate FolderSound(packageOf: JobId -> Package, s: State, job: JobId) {
    var folder := FolderOf(s, job);
    && (folder.result.Some? ==> Done(folder.child))
    && (folder.lease.Some? ==> folder.lease.value.package == packageOf(job))
    && (job in s.validated ==>
          folder.result == Some(s.validated[job]) && folder.lease.Some?
          && Answers(packageOf, job, s.validated[job]))
  }

  /** Positions from which the model may still be launched or a failure reported. */
  predicate Undecided(pc: Pc) {
    pc.Absent? || pc.Attempting? || pc.Launching? || pc.Waiting? || pc.Storing? || pc.Failing?
    || pc.FailAccepted?
  }

  ghost predicate ClientSound(packageOf: JobId -> Package, s: State, c: ClientId) {
    var pc := At(s, c);
    && (UnderLock(pc) ==> s.lock == Some(c))
    && (pc.ClaimLease? ==> pc.lease.package == packageOf(pc.job))
    && (Undecided(pc) ==> pc.job !in s.validated)
    && (pc.Storing? ==> Done(FolderOf(s, pc.job).child))
    && (pc.Submitting? ==> pc.job in s.validated)
    && (pc.Posting? ==> pc.job in s.validated && s.validated[pc.job] == pc.file)
    && (pc.HandPosting? ==> Answers(packageOf, pc.job, pc.file))
  }

  ghost predicate Sound(packageOf: JobId -> Package, s: State) {
    && (forall c :: ClientSound(packageOf, s, c))
    && (forall job :: FolderSound(packageOf, s, job))
  }

  /** `validate_result` lets exactly the answers to leased jobs through. */
  lemma {:induction false} PassesIsAnswers(packageOf: JobId -> Package, s: State, job: JobId, result: Option<File>)
    requires Sound(packageOf, s)
    ensures Passes(job, FolderOf(s, job).lease, result) <==>
              FolderOf(s, job).lease.Some? && result.Some? && Answers(packageOf, job, result.value)
  {
    assert FolderSound(packageOf, s, job);
  }

  // ---------------------------------------------------------------- one client, one step

  lemma {:induction false} ClientClaims(packageOf: JobId -> Package, s: State, d: ClientId, op: ClaimOp, c: ClientId)
    requires ClientSound(packageOf, s, c) && ClaimStep(s, d, At(s, d), op).Some?
    requires Faithful(packageOf, Claims(d, op))
    ensures ClientSound(packageOf, ClaimStep(s, d, At(s, d), op).value, c)
  {
  }

  lemma {:induction false} ClientRuns(packageOf: JobId -> Package, s: State, d: ClientId, op: RunOp, c: ClientId)
    requires ClientSound(packageOf, s, c) && ClientSound(packageOf, s, d)
    requires RunStep(s, d, At(s, d), op).Some?
    requires At(s, d).Looking? ==> FolderSound(packageOf, s, At(s, d).job)
    requires At(s, d).Waiting? ==> FolderSound(packageOf, s, At(s, d).job)
    ensures ClientSound(packageOf, RunStep(s, d, At(s, d), op).value, c)
  {
  }

  lemma {:induction false} ClientReports(packageOf: JobId -> Package, s: State, d: ClientId, op: ReportOp, c: ClientId)
    requires ClientSound(packageOf, s, c) && ClientSound(packageOf, s, d)
    requires ReportStep(s, d, At(s, d), op).Some?
    requires At(s, d).Validating? || At(s, d).Submitting? ==> FolderSound(packageOf, s, At(s, d).job)
    ensures ClientSound(packageOf, ReportStep(s, d, At(s, d), op).value, c)
  {
  }

  lemma {:induction false} ClientHands(packageOf: JobId -> Package, s: State, d: ClientId, op: HandOp, c: ClientId)
    requires ClientSound(packageOf, s, c) && HandStep(s, d, At(s, d), op).Some?
    requires op.HandSubmit? ==> Answers(packageOf, op.job, op.file)
    ensures ClientSound(packageOf, HandStep(s, d, At(s, d), op).value, c)
  {
  }

  lemma {:induction false} ClientOther(packageOf: JobId -> Package, s: State, a: Action, c: ClientId)
    requires ClientSound(packageOf, s, c) && Step(s, a).Some?
    requires a.Crash? || a.ChildWrites? || a.ChildEnds?
    ensures ClientSound(packageOf, Step(s, a).value, c)
  {
  }

  // ---------------------------------------------------------------- one job folder, one step

  ghost predicate Keeps(packageOf: JobId -> Package, s: State, t: State, job: JobId) {
    && FolderSound(packageOf, t, job)
    && (job in s.validated ==> job in t.validated && t.validated[job] == s.validated[job])
  }

  lemma {:induction false} FolderClaims(packageOf: JobId -> Package, s: State, d: ClientId, op: ClaimOp, job: JobId)
    requires FolderSound(packageOf, s, job) && ClientSound(packageOf, s, d)
    requires ClaimStep(s, d, At(s, d), op).Some?
    ensures Keeps(packageOf, s, ClaimStep(s, d, At(s, d), op).value, job)
  {
  }

  lemma {:induction false} FolderRuns(packageOf: JobId -> Package, s: State, d: ClientId, op: RunOp, job: JobId)
    requires FolderSound(packageOf, s, job) && RunStep(s, d, At(s, d), op).Some?
    ensures Keeps(packageOf, s, RunStep(s, d, At(s, d), op).value, job)
  {
  }

  lemma {:induction false} FolderReports(packageOf: JobId -> Package, s: State, d: ClientId, op: ReportOp, job: JobId)
    requires FolderSound(packageOf, s, job) && ClientSound(packageOf, s, d)
    requires ReportStep(s, d, At(s, d), op).Some?
    ensures Keeps(packageOf, s, ReportStep(s, d, At(s, d), op).value, job)
  {
  }

  lemma {:induction false} FolderHands(packageOf: JobId -> Package, s: State, d: ClientId, op: HandOp, job: JobId)
    requires FolderSound(packageOf, s, job) && HandStep(s, d, At(s, d), op).Some?
    ensures Keeps(packageOf, s, HandStep(s, d, At(s, d), op).value, job)
  {
  }

  lemma {:induction false} FolderOther(packageOf: JobId -> Package, s: State, a: Action, job: JobId)
    requires FolderSound(packageOf, s, job) && Step(s, a).Some?
    requires a.Crash? || a.ChildWrites? || a.ChildEnds?
    ensures Keeps(packageOf, s, Step(s, a).value, job)
  {
  }

  // ---------------------------------------------------------------- all of them

  lemma {:induction false} SoundClients(packageOf: JobId -> Package, s: State, a: Action, c: ClientId)
    requires Sound(packageOf, s) && Faithful(packageOf, a) && Step(s, a).Some?
    ensures ClientSound(packageOf, Step(s, a).value, c)
  {
    assert ClientSound(packageOf, s, c);
    match a
    case Claims(d, op) => ClientClaims(packageOf, s, d, op, c);
    case Runs(d, op) =>
      assert ClientSound(packageOf, s, d);
      assert At(s, d).Looking? || At(s, d).Waiting? ==> FolderSound(packageOf, s, At(s, d).job);
      ClientRuns(packageOf, s, d, op, c);
    case Reports(d, op) =>
      assert ClientSound(packageOf, s, d);
      assert At(s, d).Validating? || At(s, d).Submitting? ==> FolderSound(packageOf, s, At(s, d).job);
      ClientReports(packageOf, s, d, op, c);
    case Hands(d, op) =>
      if op.HandSubmit? {
        PassesIsAnswers(packageOf, s, op.job, Some(op.file));
      }
      ClientHands(packageOf, s, d, op, c);
    case _ => ClientOther(packageOf, s, a, c);
  }

  lemma {:induction false} SoundFolders(packageOf: JobId -> Package, s: State, a: Action, job: JobId)
    requires Sound(packageOf, s) && Faithful(packageOf, a) && Step(s, a).Some?
    ensures Keeps(packageOf, s, Step(s, a).value, job)
  {
    assert FolderSound(packageOf, s, job);
    match a
    case Claims(d, op) =>
      assert ClientSound(packageOf, s, d);
      FolderClaims(packageOf, s, d, op, job);
    case Runs(d, op) => FolderRuns(packageOf, s, d, op, job);
    case Reports(d, op) =>
      assert ClientSound(packageOf, s, d);
      FolderReports(packageOf, s, d, op, job);
    case Hands(d, op) => FolderHands(packageOf, s, d, op, job);
    case _ => FolderOther(packageOf, s, a, job);
  }

  /** Every faithful step keeps the invariant and never changes or forgets a validated result. */
  lemma {:induction false} SoundStep(packageOf: JobId -> Package, s: State, a: Action)
    requires Sound(packageOf, s) && Faithful(packageOf, a) && Step(s, a).Some?
    ensures Sound(packageOf, Step(s, a).value)
    ensures forall job :: Keeps(packageOf, s, Step(s, a).value, job)
  {
    var t := Step(s, a).value;
    forall c
      ensures ClientSound(packageOf, t, c)
    {
      SoundClients(packageOf, s, a, c);
    }
    forall job
      ensures Keeps(packageOf, s, t, job)
    {
      SoundFolders(packageOf, s, a, job);
    }
    assert forall job :: Keeps(packageOf, s, t, job) ==> FolderSound(packageOf, t, job);
  }

  ghost predicate FaithfulRun(packageOf: JobId -> Package, acts: seq<Action>) {
    forall i :: 0 <= i < |acts| ==> Faithful(packageOf, acts[i])
  }

  lemma {:induction false} SoundAfter(packageOf: JobId -> Package, s: State, acts: seq<Action>, i: nat)
    requires Init(s) && IsRun(s, acts) && FaithfulRun(packageOf, acts) && i <= |acts|
    ensures Sound(packageOf, After(s, acts, i))
  {
    if i > 0 {
      SoundAfter(packageOf, s, acts, i - 1);
      AfterStep(s, acts, i - 1);
      SoundStep(packageOf, After(s, acts, i - 1), acts[i - 1]);
    }
  }

  lemma {:induction false} ValidatedStays(
    packageOf: JobId -> Package, s: State, acts: seq<Action>, i: nat, j: nat, job: JobId)
    requires Init(s) && IsRun(s, acts) && FaithfulRun(packageOf, acts) && i <= j <= |acts|
    requires job in After(s, acts, i).validated
    ensures job in After(s, acts, j).validated
    ensures After(s, acts, j).validated[job] == After(s, acts, i).validated[job]
    decreases j
  {
    if i < j {
      ValidatedStays(packageOf, s, acts, i, j - 1, job);
      AfterStep(s, acts, j - 1);
      SoundAfter(packageOf, s, acts, j - 1);
      SoundStep(packageOf, After(s, acts, j - 1), acts[j - 1]);
      assert Keeps(packageOf, After(s, acts, j - 1), After(s, acts, j), job);
    }
  }

  /** The action decides the job afresh: a new attempt, a launch, or a report of failure. */
  predicate Restarts(a: Action, job: JobId) {
    || (a.Runs? && a.run == WriteAttempt(job))
    || (a.Runs? && a.run == Launch(job))
    || (a.Reports? && a.report.PostFailure? && a.report.job == job)
  }

  /** With no local file faults, once a stored result has validated, no later execution attempts, launches or
      reports failure for that job, and every result that a later execution posts for it is that result. */
  lemma {:induction false} OnlyResubmitted(
    packageOf: JobId -> Package, s: State, acts: seq<Action>, i: nat, j: nat, job: JobId)
    requires Init(s) && IsRun(s, acts) && FaithfulRun(packageOf, acts) && i <= j < |acts|
    requires job in After(s, acts, i).validated
    ensures !Restarts(acts[j], job)
    ensures acts[j].Reports? && acts[j].report.PostResult? && acts[j].report.job == job ==>
              acts[j].report.file == After(s, acts, i).validated[job]
  {
    ValidatedStays(packageOf, s, acts, i, j, job);
    SoundAfter(packageOf, s, acts, j);
    AfterStep(s, acts, j);
    if acts[j].Runs? || acts[j].Reports? {
      assert ClientSound(packageOf, After(s, acts, j), acts[j].c);
    }
  }

  /** Every result that is posted, by an execution or by the submit command, is an answer to its job. */
  lemma {:induction false} PostedResultsAnswer(packageOf: JobId -> Package, s: State, acts: seq<Action>, j: nat)
    requires Init(s) && IsRun(s, acts) && FaithfulRun(packageOf, acts) && j < |acts|
    ensures acts[j].Reports? && acts[j].report.PostResult? ==>
              Answers(packageOf, acts[j].report.job, acts[j].report.file)
    ensures acts[j].Hands? && acts[j].hand.HandPost? ==>
              var pc := At(After(s, acts, j), acts[j].c);
              pc.HandPosting? && Answers(packageOf, pc.job, pc.file)
  {
    SoundAfter(packageOf, s, acts, j);
    AfterStep(s, acts, j);
    if acts[j].Reports? || acts[j].Hands? {
      assert ClientSound(packageOf, After(s, acts, j), acts[j].c);
    }
    if acts[j].Reports? && acts[j].report.PostResult? {
      assert FolderSound(packageOf, After(s, acts, j), acts[j].report.job);
    }
  }

  /** And validation decides exactly by that: the stored result of a leased job is submitted if it is an answer and
      reported as a failure otherwise. */
  lemma {:induction false} ValidationDecides(
    packageOf: JobId -> Package, s: State, acts: seq<Action>, j: nat, c: ClientId, job: JobId)
    requires Init(s) && IsRun(s, acts) && FaithfulRun(packageOf, acts) && j < |acts|
    requires acts[j] == Reports(c, Validate(job))
    ensures var folder := FolderOf(After(s, acts, j), job);
            At(After(s, acts, j + 1), c) ==
              if folder.lease.Some? && folder.result.Some? && Answers(packageOf, job, folder.result.value)
              then Submitting(job) else Failing(job)
  {
    SoundAfter(packageOf, s, acts, j);
    AfterStep(s, acts, j);
    PassesIsAnswers(packageOf, After(s, acts, j), job, FolderOf(After(s, acts, j), job).result);
  }

  /** The submit command takes exactly the answers to leased jobs. */
  lemma {:induction false} HandSubmissionDecides(
    packageOf: JobId -> Package, s: State, acts: seq<Action>, c: ClientId, job: JobId, file: File)
    requires Init(s) && IsRun(s, acts) && FaithfulRun(packageOf, acts) && At(After(s, acts, |acts|), c) == Idle
    ensures Step(After(s, acts, |acts|), Hands(c, HandSubmit(job, file))).Some? <==>
              FolderOf(After(s, acts, |acts|), job).lease.Some? && Answers(packageOf, job, file)
  {
    SoundAfter(packageOf, s, acts, |acts|);
    PassesIsAnswers(packageOf, After(s, acts, |acts|), job, Some(file));
  }
}
