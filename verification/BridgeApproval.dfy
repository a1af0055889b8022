/** A model is only launched with approval and for a job that the server calls active. */
module BridgeApproval {
  import opened Common
  import opened Bridge
  import opened BridgeRuns
  import opened BridgePinned
  import opened BridgeResubmit

  /** Before step `k` the client has taken the lock for the job, with this approval. */
  ghost predicate Took(acts: seq<Action>, k: nat, c: ClientId, job: JobId, approved: bool) {
    exists i :: 0 <= i < k && i < |acts| && acts[i] == Runs(c, TakeLock(job, approved))
  }

  /** And after that the server has called the job active. */
  ghost predicate TookActive(acts: seq<Action>, k: nat, c: ClientId, job: JobId, approved: bool) {
    exists i, j :: TookActiveAt(acts, k, c, job, approved, i, j)
  }

  ghost predicate TookActiveAt(
    acts: seq<Action>, k: nat, c: ClientId, job: JobId, approved: bool, i: int, j: int)
  {
    0 <= i < j < k && j < |acts| && acts[i] == Runs(c, TakeLock(job, approved)) && acts[j] == Runs(c, AskStatus(true))
  }

  /** What a client's position says about its steps before `k`. */
  ghost predicate Cleared(s: State, acts: seq<Action>, k: nat, c: ClientId) {
    var pc := At(s, c);
    && (pc.Entered? ==> Took(acts, k, c, pc.job, pc.approved))
    && (pc.Active? ==> TookActive(acts, k, c, pc.job, pc.approved))
    && (pc.Looking? ==>
          TookActive(acts, k, c, pc.job, true)
          || (TookActive(acts, k, c, pc.job, false) && FolderOf(s, pc.job).result.Some?))
    && (pc.Absent? || pc.Attempting? || pc.Launching? ==> TookActive(acts, k, c, pc.job, true))
  }

  lemma {:induction false} TookLater(acts: seq<Action>, k: nat, c: ClientId, job: JobId, approved: bool)
    ensures Took(acts, k, c, job, approved) ==> Took(acts, k + 1, c, job, approved)
    ensures TookActive(acts, k, c, job, approved) ==> TookActive(acts, k + 1, c, job, approved)
    ensures k < |acts| && acts[k] == Runs(c, TakeLock(job, approved)) ==> Took(acts, k + 1, c, job, approved)
    ensures k < |acts| && Took(acts, k, c, job, approved) && acts[k] == Runs(c, AskStatus(true)) ==>
              TookActive(acts, k + 1, c, job, approved)
  {
    if i, j :| TookActiveAt(acts, k, c, job, approved, i, j) {
      assert TookActiveAt(acts, k + 1, c, job, approved, i, j);
    }
    if k < |acts| && Took(acts, k, c, job, approved) && acts[k] == Runs(c, AskStatus(true)) {
      var i :| 0 <= i < k && i < |acts| && acts[i] == Runs(c, TakeLock(job, approved));
      assert TookActiveAt(acts, k + 1, c, job, approved, i, k);
    }
  }

  /** The positions up to the launch are reached one from the other, by these steps. */
  ghost predicate Advances(s: State, a: Action, before: Pc, after: Pc) {
    match after
    case Entered(job, approved) => a.Runs? && a.run == TakeLock(job, approved)
    case Active(job, approved) => before == Entered(job, approved) && a.Runs? && a.run == AskStatus(true)
    case Looking(job) =>
      before.Active? && before.job == job && (before.approved || FolderOf(s, job).result.Some?)
    case Absent(job) => before == Looking(job) && FolderOf(s, job).result.None?
    case Attempting(job) => before == Absent(job)
    case Launching(job) => before == Attempting(job)
    case _ => true
  }

  predicate TowardsLaunch(pc: Pc) {
    pc.Entered? || pc.Active? || pc.Looking? || pc.Absent? || pc.Attempting? || pc.Launching?
  }

  lemma {:induction false} AdvancesRuns(s: State, c: ClientId, op: RunOp)
    requires RunStep(s, c, At(s, c), op).Some? && TowardsLaunch(At(RunStep(s, c, At(s, c), op).value, c))
    ensures Advances(s, Runs(c, op), At(s, c), At(RunStep(s, c, At(s, c), op).value, c))
  {
  }

  lemma {:induction false} ClaimsLeave(s: State, c: ClientId, op: ClaimOp)
    requires ClaimStep(s, c, At(s, c), op).Some?
    ensures !TowardsLaunch(At(ClaimStep(s, c, At(s, c), op).value, c))
  {
  }

  lemma {:induction false} ReportsLeave(s: State, c: ClientId, op: ReportOp)
    requires ReportStep(s, c, At(s, c), op).Some?
    ensures !TowardsLaunch(At(ReportStep(s, c, At(s, c), op).value, c))
  {
  }

  lemma {:induction false} HandsLeave(s: State, c: ClientId, op: HandOp)
    requires HandStep(s, c, At(s, c), op).Some?
    ensures !TowardsLaunch(At(HandStep(s, c, At(s, c), op).value, c))
  {
  }

  lemma {:induction false} OnlyRunsAdvance(s: State, a: Action, c: ClientId)
    requires Step(s, a).Some? && TowardsLaunch(At(Step(s, a).value, c))
    ensures At(Step(s, a).value, c) == At(s, c)
            || (a.Runs? && a.c == c && Advances(s, a, At(s, c), At(Step(s, a).value, c)))
  {
    if a.Claims? || a.Runs? || a.Reports? || a.Hands? || a.Crash? ==> a.c != c {
      OthersUnmoved(s, a, c);
    } else {
      match a
      case Claims(_, op) => ClaimsLeave(s, c, op);
      case Runs(_, op) => AdvancesRuns(s, c, op);
      case Reports(_, op) => ReportsLeave(s, c, op);
      case Hands(_, op) => HandsLeave(s, c, op);
      case Crash(_) =>
    }
  }

  /** No step without a file fault removes a stored result. */
  lemma {:induction false} ResultStays(s: State, a: Action, job: JobId)
    requires Step(s, a).Some? && !a.Tamper? && FolderOf(s, job).result.Some?
    ensures FolderOf(Step(s, a).value, job).result.Some?
  {
    match a
    case Claims(_, _) =>
    case Runs(_, _) =>
    case Reports(_, _) =>
    case Hands(_, _) =>
    case _ =>
  }

  lemma {:induction false} ClearedStep(s: State, t: State, acts: seq<Action>, k: nat, c: ClientId)
    requires k < |acts| && !acts[k].Tamper? && Step(s, acts[k]) == Some(t) && Cleared(s, acts, k, c)
    ensures Cleared(t, acts, k + 1, c)
  {
    var before, after := At(s, c), At(t, c);
    if TowardsLaunch(after) {
      OnlyRunsAdvance(s, acts[k], c);
      TookLater(acts, k, c, after.job, true);
      TookLater(acts, k, c, after.job, false);
      if after.Looking? && FolderOf(s, after.job).result.Some? {
        ResultStays(s, acts[k], after.job);
      }
    }
  }

  ghost predicate NoFault(acts: seq<Action>) {
    forall i :: 0 <= i < |acts| ==> !acts[i].Tamper?
  }

  lemma {:induction false} ClearedNext(s: State, acts: seq<Action>, k: nat, c: ClientId)
    requires IsRun(s, acts) && NoFault(acts) && k < |acts| && Cleared(After(s, acts, k), acts, k, c)
    ensures Cleared(After(s, acts, k + 1), acts, k + 1, c)
  {
    AfterStep(s, acts, k);
    ClearedStep(After(s, acts, k), After(s, acts, k + 1), acts, k, c);
  }

  lemma {:induction false} ClearedAfter(s: State, acts: seq<Action>, k: nat, c: ClientId)
    requires Init(s) && IsRun(s, acts) && NoFault(acts) && k <= |acts|
    ensures Cleared(After(s, acts, k), acts, k, c)
  {
    if k > 0 {
      ClearedAfter(s, acts, k - 1, c);
      ClearedNext(s, acts, k - 1, c);
    }
  }

  /** With no file fault, every launch follows an approved execution of the same client for the same job, and the
      server's answer that the job is active. */
  lemma {:induction false} LaunchNeedsApproval(s: State, acts: seq<Action>, k: nat, c: ClientId, job: JobId)
    returns (i: nat, j: nat)
    requires Init(s) && IsRun(s, acts) && NoFault(acts) && k < |acts|
    requires acts[k] == Runs(c, Launch(job))
    ensures i < j < k && acts[i] == Runs(c, TakeLock(job, true)) && acts[j] == Runs(c, AskStatus(true))
  {
    ClearedAfter(s, acts, k, c);
    AfterStep(s, acts, k);
    i, j :| TookActiveAt(acts, k, c, job, true, i, j);
  }
}
