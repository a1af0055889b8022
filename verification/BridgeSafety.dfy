/** Safety of the bridge client over every run: one execution at a time, and one launch per job folder. */
module BridgeSafety {
  import opened Common
  import opened Bridge
  import opened BridgeRuns

  // ---------------------------------------------------------------- one launch per job folder

  ghost predicate Launched(s: State, job: JobId) {
    FolderOf(s, job).child != NotStarted
  }

  /** What one client's position says about the files, given that it may be relied on. */
  ghost predicate LaunchSafe(s: State, c: ClientId) {
    var pc := At(s, c);
    && (UnderLock(pc) ==> s.lock == Some(c))
    && (pc.Attempting? ==> !FolderOf(s, pc.job).attempt)
    && (pc.Launching? ==> FolderOf(s, pc.job).attempt && !Launched(s, pc.job))
    && (pc.Waiting? ==> Launched(s, pc.job))
  }

  ghost predicate JobSafe(s: State, job: JobId) {
    Launched(s, job) ==> FolderOf(s, job).attempt
  }

  ghost predicate LaunchInv(s: State) {
    && (forall c :: LaunchSafe(s, c))
    && (forall job :: JobSafe(s, job))
  }

  /** The client that takes the step, if one does. */
  ghost predicate ActorSafe(s: State, a: Action) {
    a.Claims? || a.Runs? || a.Reports? || a.Hands? || a.Crash? ==> LaunchSafe(s, a.c)
  }

  lemma {:induction false} LaunchClientRuns(s: State, d: ClientId, op: RunOp, c: ClientId)
    requires RunStep(s, d, At(s, d), op).Some? && LaunchSafe(s, c) && LaunchSafe(s, d)
    requires op.WriteAttempt? ==> JobSafe(s, op.job)
    ensures LaunchSafe(RunStep(s, d, At(s, d), op).value, c)
  {
  }

  lemma {:induction false} LaunchClientReports(s: State, d: ClientId, op: ReportOp, c: ClientId)
    requires ReportStep(s, d, At(s, d), op).Some? && LaunchSafe(s, c) && LaunchSafe(s, d)
    ensures LaunchSafe(ReportStep(s, d, At(s, d), op).value, c)
  {
  }

  lemma {:induction false} LaunchClientClaims(s: State, d: ClientId, op: ClaimOp, c: ClientId)
    requires ClaimStep(s, d, At(s, d), op).Some? && LaunchSafe(s, c)
    ensures LaunchSafe(ClaimStep(s, d, At(s, d), op).value, c)
  {
  }

  lemma {:induction false} LaunchClientHands(s: State, d: ClientId, op: HandOp, c: ClientId)
    requires HandStep(s, d, At(s, d), op).Some? && LaunchSafe(s, c)
    ensures LaunchSafe(HandStep(s, d, At(s, d), op).value, c)
  {
  }

  lemma {:induction false} LaunchClientCrash(s: State, d: ClientId, c: ClientId)
    requires LaunchSafe(s, c)
    ensures LaunchSafe(Step(s, Crash(d)).value, c)
  {
  }

  lemma {:induction false} LaunchClientFiles(s: State, a: Action, c: ClientId)
    requires (a.ChildWrites? || a.ChildEnds? || a.Tamper?) && Step(s, a).Some? && LaunchSafe(s, c)
    ensures LaunchSafe(Step(s, a).value, c)
  {
  }

  lemma {:induction false} LaunchClientStep(s: State, a: Action, c: ClientId)
    requires Step(s, a).Some? && LaunchSafe(s, c) && ActorSafe(s, a)
    requires a.Runs? && a.run.WriteAttempt? ==> JobSafe(s, a.run.job)
    ensures LaunchSafe(Step(s, a).value, c)
  {
    match a
    case Claims(d, op) => LaunchClientClaims(s, d, op, c);
    case Runs(d, op) => LaunchClientRuns(s, d, op, c);
    case Reports(d, op) => LaunchClientReports(s, d, op, c);
    case Hands(d, op) => LaunchClientHands(s, d, op, c);
    case Crash(d) => LaunchClientCrash(s, d, c);
    case _ => LaunchClientFiles(s, a, c);
  }

  lemma {:induction false} LaunchJobStep(s: State, a: Action, job: JobId)
    requires Step(s, a).Some? && JobSafe(s, job) && ActorSafe(s, a)
    ensures JobSafe(Step(s, a).value, job)
    ensures Launched(s, job) ==> Launched(Step(s, a).value, job)
  {
  }

  /** Every step keeps the invariant, file faults and crashes included, and no launch is forgotten. */
  lemma {:induction false} LaunchInvStep(s: State, a: Action)
    requires LaunchInv(s) && Step(s, a).Some?
    ensures LaunchInv(Step(s, a).value)
    ensures forall job :: Launched(s, job) ==> Launched(Step(s, a).value, job)
  {
    var t := Step(s, a).value;
    forall c
      ensures LaunchSafe(t, c)
    {
      LaunchClientStep(s, a, c);
    }
    forall job
      ensures JobSafe(t, job)
      ensures Launched(s, job) ==> Launched(t, job)
    {
      LaunchJobStep(s, a, job);
    }
  }

  lemma {:induction false} LaunchInvAfter(s: State, acts: seq<Action>, i: nat)
    requires Init(s) && IsRun(s, acts) && i <= |acts|
    ensures LaunchInv(After(s, acts, i))
  {
    if i > 0 {
      LaunchInvAfter(s, acts, i - 1);
      AfterStep(s, acts, i - 1);
      LaunchInvStep(After(s, acts, i - 1), acts[i - 1]);
    }
  }

  lemma {:induction false} LaunchedStays(s: State, acts: seq<Action>, i: nat, j: nat, job: JobId)
    requires Init(s) && IsRun(s, acts) && i <= j <= |acts| && Launched(After(s, acts, i), job)
    ensures Launched(After(s, acts, j), job)
    decreases j
  {
    if i < j {
      LaunchedStays(s, acts, i, j - 1, job);
      AfterStep(s, acts, j - 1);
      LaunchInvAfter(s, acts, j - 1);
      LaunchInvStep(After(s, acts, j - 1), acts[j - 1]);
    }
  }

  /** Over every interleaving of clients, crashes, restarts, failed uploads and file faults (other than the
      loss of the attempt file), the model is launched at most once per job folder. */
  lemma {:induction false} LaunchedAtMostOnce(
    s: State, acts: seq<Action>, i: nat, j: nat, c: ClientId, d: ClientId, job: JobId)
    requires Init(s) && IsRun(s, acts) && i < j < |acts|
    requires acts[i] == Runs(c, Launch(job))
    ensures acts[j] != Runs(d, Launch(job))
  {
    AfterStep(s, acts, i);
    LaunchStep(After(s, acts, i), After(s, acts, i + 1), c, job);
    LaunchedStays(s, acts, i + 1, j, job);
    if acts[j] == Runs(d, Launch(job)) {
      AfterStep(s, acts, j);
      LaunchStep(After(s, acts, j), After(s, acts, j + 1), d, job);
      LaunchInvAfter(s, acts, j);
      NotBeforeLaunch(After(s, acts, j), d, job);
    }
  }

  lemma {:induction false} LaunchStep(s: State, t: State, c: ClientId, job: JobId)
    requires Step(s, Runs(c, Launch(job))) == Some(t)
    ensures At(s, c) == Launching(job) && Launched(t, job)
  {
  }

  lemma {:induction false} NotBeforeLaunch(s: State, c: ClientId, job: JobId)
    requires LaunchInv(s) && At(s, c) == Launching(job)
    ensures !Launched(s, job)
  {
    assert LaunchSafe(s, c);
  }

  /** At most one client is inside `execute_job` at a time. */
  lemma {:induction false} ExecutionIsExclusive(s: State, acts: seq<Action>, i: nat, c: ClientId, d: ClientId)
    requires Init(s) && IsRun(s, acts) && i <= |acts|
    requires UnderLock(At(After(s, acts, i), c)) && UnderLock(At(After(s, acts, i), d))
    ensures c == d
  {
    LaunchInvAfter(s, acts, i);
    assert LaunchSafe(After(s, acts, i), c) && LaunchSafe(After(s, acts, i), d);
  }
}
