/** What an execution does when nothing interrupts it: the whole path from the lock to the receipt, the path of a stored
    result, and the path of a failed attempt. */
module BridgePaths {
  import opened Common
  import opened Bridge
  import opened BridgeRuns

  /** The client is free to act on the job, whose folder is as given. */
  ghost predicate Ready(s: State, c: ClientId, job: JobId, folder: Folder) {
    At(s, c) == Idle && s.lock == None && job in s.jobs && s.jobs[job] == folder
  }

  /** The client is at this position inside the lock. */
  ghost predicate Inside(s: State, c: ClientId, pc: Pc, job: JobId, folder: Folder) {
    At(s, c) == pc && s.lock == Some(c) && job in s.jobs && s.jobs[job] == folder
  }

  /** The path ends there. */
  ghost predicate Leads(s: State, acts: seq<Action>, t: State) {
    IsRun(s, acts) && After(s, acts, |acts|) == t
  }

  lemma {:induction false} LeadsOn(s: State, a: seq<Action>, t: State, b: seq<Action>, u: State)
    requires Leads(s, a, t) && Leads(t, b, u)
    ensures Leads(s, a + b, u)
  {
    Joined(s, a, b);
  }

  // ---------------------------------------------------------------- a claim

  /** A claim is answered under the identifier in the marker, and writes it there when there is none. */
  lemma {:induction false} ClaimIsAnswered(s: State, c: ClientId, minted: ClaimId, job: JobId, lease: Lease)
    returns (t: State)
    requires At(s, c) == Idle
    ensures var id := if s.marker.Some? then s.marker.value else minted;
            && Leads(s, [Claims(c, ReadMarker(minted)), Claims(c, WriteMarker),
                         Claims(c, PostClaim(id, Job(job, lease)))], t)
            && t.marker == Some(id)
    ensures At(t, c) == ClaimLease(job, lease) && t.jobs == s.jobs
  {
    var id := if s.marker.Some? then s.marker.value else minted;
    ThreeSteps(s, Claims(c, ReadMarker(minted)), Claims(c, WriteMarker), Claims(c, PostClaim(id, Job(job, lease))));
    t := After(s, [Claims(c, ReadMarker(minted)), Claims(c, WriteMarker),
                   Claims(c, PostClaim(id, Job(job, lease)))], 3);
  }

  /** The answer's lease and evidence are stored in the job's folder, and in no other. */
  lemma {:induction false} AnswerIsStored(s: State, c: ClientId, job: JobId, lease: Lease) returns (t: State)
    requires At(s, c) == ClaimLease(job, lease)
    ensures Leads(s, [Claims(c, StoreLease), Claims(c, StoreEvidence)], t) && t.marker == s.marker
    ensures At(t, c) == Idle && t.jobs == s.jobs[job := FolderOf(s, job).(lease := Some(lease), evidence := true)]
  {
    TwoSteps(s, Claims(c, StoreLease), Claims(c, StoreEvidence));
    t := After(s, [Claims(c, StoreLease), Claims(c, StoreEvidence)], 2);
  }

  lemma {:induction false} TwoSteps(s: State, a: Action, b: Action)
    requires Step(s, a).Some? && Step(Step(s, a).value, b).Some?
    ensures Leads(s, [a, b], Step(Step(s, a).value, b).value)
  {
    RunCons(Step(s, a).value, b, []);
    RunCons(s, a, [b]);
    assert [a, b] == [a] + [b];
    AfterStep(s, [a, b], 0);
    AfterStep(s, [a, b], 1);
  }

  // ---------------------------------------------------------------- a launch

  /** An approved execution of an active job with evidence and neither result nor attempt launches the model, after
      writing the attempt. */
  lemma {:induction false} ApprovedLaunch(s: State, c: ClientId, job: JobId, folder: Folder) returns (t: State)
    requires Ready(s, c, job, folder) && folder.evidence && !folder.attempt && folder.result == None
    ensures Leads(s, [Runs(c, TakeLock(job, true)), Runs(c, AskStatus(true)), Runs(c, CheckApproval)]
                     + ([Runs(c, LookForOutput), Runs(c, LookForAttempt(true))]
                        + [Runs(c, WriteAttempt(job)), Runs(c, Launch(job))]), t)
    ensures Inside(t, c, Waiting(job), job, folder.(attempt := true, child := Running)) && t.marker == s.marker
  {
    var a := [Runs(c, TakeLock(job, true)), Runs(c, AskStatus(true)), Runs(c, CheckApproval)];
    var b := [Runs(c, LookForOutput), Runs(c, LookForAttempt(true))];
    var d := [Runs(c, WriteAttempt(job)), Runs(c, Launch(job))];
    var u := Enters(s, c, job, true, folder);
    TwoSteps(u, b[0], b[1]);
    var v := After(u, b, 2);
    TwoSteps(v, d[0], d[1]);
    t := After(v, d, 2);
    LeadsOn(u, b, v, d, t);
    LeadsOn(s, a, u, b + d, t);
  }

  /** Taking the lock of an active job and passing the approval test. */
  lemma {:induction false} Enters(s: State, c: ClientId, job: JobId, approved: bool, folder: Folder) returns (t: State)
    requires Ready(s, c, job, folder) && (approved || folder.result.Some?)
    ensures Leads(s, [Runs(c, TakeLock(job, approved)), Runs(c, AskStatus(true)), Runs(c, CheckApproval)], t)
    ensures Inside(t, c, Looking(job), job, folder) && t.marker == s.marker
  {
    ThreeSteps(s, Runs(c, TakeLock(job, approved)), Runs(c, AskStatus(true)), Runs(c, CheckApproval));
    t := After(s, [Runs(c, TakeLock(job, approved)), Runs(c, AskStatus(true)), Runs(c, CheckApproval)], 3);
  }

  /** Without approval and without a result, the execution ends with nothing written and nothing launched. */
  lemma {:induction false} UnapprovedEnds(s: State, c: ClientId, job: JobId, folder: Folder) returns (t: State)
    requires Ready(s, c, job, folder) && folder.result == None
    ensures Leads(s, [Runs(c, TakeLock(job, false)), Runs(c, AskStatus(true)), Runs(c, CheckApproval)], t)
    ensures Ready(t, c, job, folder) && t.marker == s.marker
  {
    ThreeSteps(s, Runs(c, TakeLock(job, false)), Runs(c, AskStatus(true)), Runs(c, CheckApproval));
    t := After(s, [Runs(c, TakeLock(job, false)), Runs(c, AskStatus(true)), Runs(c, CheckApproval)], 3);
  }

  // ---------------------------------------------------------------- a result

  /** The output of a model that ends well is stored under its producer and then validated. */
  lemma {:induction false} OutputIsStored(
    s: State, c: ClientId, job: JobId, folder: Folder, file: File, producer: string) returns (t: State)
    requires Inside(s, c, Waiting(job), job, folder) && folder.child == Running && file.Parsed?
    ensures Leads(s, [ChildWrites(job, file), ChildEnds(job)]
                     + [Runs(c, Collect(GoodExit(producer))), Reports(c, Store)], t)
    ensures Inside(t, c, Validating(job), job, folder.(result := Some(file.(producer := producer)), child := Ended))
    ensures t.marker == s.marker
  {
    TwoSteps(s, ChildWrites(job, file), ChildEnds(job));
    var u := After(s, [ChildWrites(job, file), ChildEnds(job)], 2);
    TwoSteps(u, Runs(c, Collect(GoodExit(producer))), Reports(c, Store));
    t := After(u, [Runs(c, Collect(GoodExit(producer))), Reports(c, Store)], 2);
    LeadsOn(s, [ChildWrites(job, file), ChildEnds(job)], u,
            [Runs(c, Collect(GoodExit(producer))), Reports(c, Store)], t);
  }

  /** A stored result is found again, without approval and without a launch. */
  lemma {:induction false} StoredResultIsFound(s: State, c: ClientId, job: JobId, folder: Folder) returns (t: State)
    requires Ready(s, c, job, folder) && folder.result.Some?
    ensures Leads(s, [Runs(c, TakeLock(job, false)), Runs(c, AskStatus(true)), Runs(c, CheckApproval)]
                     + [Runs(c, LookForOutput)], t)
    ensures Inside(t, c, Validating(job), job, folder) && t.marker == s.marker
  {
    var u := Enters(s, c, job, false, folder);
    RunCons(u, Runs(c, LookForOutput), []);
    AfterStep(u, [Runs(c, LookForOutput)], 0);
    t := After(u, [Runs(c, LookForOutput)], 1);
    LeadsOn(s, [Runs(c, TakeLock(job, false)), Runs(c, AskStatus(true)), Runs(c, CheckApproval)], u,
            [Runs(c, LookForOutput)], t);
  }

  /** A result that passes is posted, and when it is accepted the marker is cleared and the lock released. */
  lemma {:induction false} AcceptedResult(s: State, c: ClientId, job: JobId, folder: Folder) returns (t: State)
    requires Inside(s, c, Validating(job), job, folder) && folder.result.Some?
    requires Passes(job, folder.lease, folder.result)
    ensures Leads(s, [Reports(c, Validate(job)), Reports(c, CheckAgain),
                      Reports(c, PostResult(job, folder.result.value, true))]
                     + [Reports(c, WriteReceipt), Reports(c, ClearSubmitted)], t)
    ensures Ready(t, c, job, folder) && t.marker == None && job in t.validated
    ensures t.validated[job] == folder.result.value
  {
    var file := folder.result.value;
    ThreeSteps(s, Reports(c, Validate(job)), Reports(c, CheckAgain), Reports(c, PostResult(job, file, true)));
    var a := [Reports(c, Validate(job)), Reports(c, CheckAgain), Reports(c, PostResult(job, file, true))];
    var u := After(s, a, 3);
    TwoSteps(u, Reports(c, WriteReceipt), Reports(c, ClearSubmitted));
    t := After(u, [Reports(c, WriteReceipt), Reports(c, ClearSubmitted)], 2);
    LeadsOn(s, a, u, [Reports(c, WriteReceipt), Reports(c, ClearSubmitted)], t);
  }

  /** When the post is refused or lost, the result stays stored and the marker stays. */
  lemma {:induction false} RefusedResult(s: State, c: ClientId, job: JobId, folder: Folder) returns (t: State)
    requires Inside(s, c, Validating(job), job, folder) && folder.result.Some?
    requires Passes(job, folder.lease, folder.result)
    ensures Leads(s, [Reports(c, Validate(job)), Reports(c, CheckAgain),
                      Reports(c, PostResult(job, folder.result.value, false))], t)
    ensures Ready(t, c, job, folder) && t.marker == s.marker
  {
    var file := folder.result.value;
    ThreeSteps(s, Reports(c, Validate(job)), Reports(c, CheckAgain), Reports(c, PostResult(job, file, false)));
    t := After(s, [Reports(c, Validate(job)), Reports(c, CheckAgain), Reports(c, PostResult(job, file, false))], 3);
  }

  // ---------------------------------------------------------------- a failure

  /** A result that does not pass is reported; when the report is accepted the marker is cleared. */
  lemma {:induction false} FailureIsReported(s: State, c: ClientId, job: JobId, folder: Folder) returns (t: State)
    requires Inside(s, c, Validating(job), job, folder) && folder.lease.Some?
    requires !Passes(job, folder.lease, folder.result)
    ensures Leads(s, [Reports(c, Validate(job)), Reports(c, PostFailure(job, true)), Reports(c, ClearFailed)], t)
    ensures Ready(t, c, job, folder) && t.marker == None
  {
    ThreeSteps(s, Reports(c, Validate(job)), Reports(c, PostFailure(job, true)), Reports(c, ClearFailed));
    t := After(s, [Reports(c, Validate(job)), Reports(c, PostFailure(job, true)), Reports(c, ClearFailed)], 3);
  }

  /** An attempt without a result is never repeated, and without evidence or a valid budget none is made: the execution
      ends in a report of failure. */
  lemma {:induction false} NoAttemptPossible(s: State, c: ClientId, job: JobId, folder: Folder, ready: bool)
    returns (t: State)
    requires Ready(s, c, job, folder) && folder.result == None && (folder.attempt || !folder.evidence || !ready)
    ensures Leads(s, [Runs(c, TakeLock(job, true)), Runs(c, AskStatus(true)), Runs(c, CheckApproval)]
                     + [Runs(c, LookForOutput), Runs(c, LookForAttempt(ready))], t)
    ensures Inside(t, c, Failing(job), job, folder) && t.marker == s.marker
  {
    var u := Enters(s, c, job, true, folder);
    TwoSteps(u, Runs(c, LookForOutput), Runs(c, LookForAttempt(ready)));
    t := After(u, [Runs(c, LookForOutput), Runs(c, LookForAttempt(ready))], 2);
    LeadsOn(s, [Runs(c, TakeLock(job, true)), Runs(c, AskStatus(true)), Runs(c, CheckApproval)], u,
            [Runs(c, LookForOutput), Runs(c, LookForAttempt(ready))], t);
  }

  /** A model that times out, and is then killed, or that ends badly leads to a report of failure. */
  lemma {:induction false} BadEndFails(s: State, c: ClientId, job: JobId, folder: Folder, exit: Exit)
    requires Inside(s, c, Waiting(job), job, folder) && Done(folder, exit)
    ensures var t := Step(s, Runs(c, Collect(exit)));
            t.Some? && Inside(t.value, c, Failing(job), job, folder.(child := Ended)) && t.value.marker == s.marker
  {
  }

  /** A launch that is called off after the attempt was written leads there too; the attempt stays spent. */
  lemma {:induction false} LaunchCalledOff(s: State, c: ClientId, job: JobId, folder: Folder)
    requires Inside(s, c, Launching(job), job, folder)
    ensures var t := Step(s, Runs(c, AbortLaunch));
            t.Some? && Inside(t.value, c, Failing(job), job, folder) && t.value.marker == s.marker
  {
  }

  /** A failure is reported under the job's lease; without one the execution ends unreported. A report that is not
      accepted changes nothing. */
  lemma {:induction false} FailureEnds(s: State, c: ClientId, job: JobId, folder: Folder)
    requires Inside(s, c, Failing(job), job, folder)
    ensures var silent, refused := Step(s, Reports(c, FailUnreported)), Step(s, Reports(c, PostFailure(job, false)));
            && (silent.Some? <==> folder.lease == None) && (refused.Some? <==> folder.lease.Some?)
            && (silent.Some? ==> Ready(silent.value, c, job, folder) && silent.value.marker == s.marker)
            && (refused.Some? ==> Ready(refused.value, c, job, folder) && refused.value.marker == s.marker)
  {
  }

  /** It timed out, or it ended without a good exit or without a result that parses. */
  ghost predicate Done(folder: Folder, exit: Exit) {
    exit.TimedOut?
    || (folder.child == Ended
        && (exit.BadExit? || folder.result == None || folder.result.value.Unparsable?))
  }

  // ---------------------------------------------------------------- the other commands

  /** A result submitted by hand that is accepted clears the marker too; one that is refused changes nothing. */
  lemma {:induction false} HandSubmission(s: State, c: ClientId, job: JobId, file: File) returns (t: State)
    requires At(s, c) == Idle && Passes(job, FolderOf(s, job).lease, Some(file))
    ensures Leads(s, [Hands(c, HandSubmit(job, file)), Hands(c, HandPost(true))]
                     + [Hands(c, HandReceipt), Hands(c, ClearHandSubmitted)], t)
    ensures At(t, c) == Idle && t.marker == None && t.jobs == s.jobs && t.lock == s.lock
    ensures var refused := Step(Step(s, Hands(c, HandSubmit(job, file))).value, Hands(c, HandPost(false)));
            refused.Some? && refused.value == Move(Move(s, c, HandPosting(job, file)), c, Idle)
  {
    TwoSteps(s, Hands(c, HandSubmit(job, file)), Hands(c, HandPost(true)));
    var u := After(s, [Hands(c, HandSubmit(job, file)), Hands(c, HandPost(true))], 2);
    TwoSteps(u, Hands(c, HandReceipt), Hands(c, ClearHandSubmitted));
    t := After(u, [Hands(c, HandReceipt), Hands(c, ClearHandSubmitted)], 2);
    LeadsOn(s, [Hands(c, HandSubmit(job, file)), Hands(c, HandPost(true))], u,
            [Hands(c, HandReceipt), Hands(c, ClearHandSubmitted)], t);
  }

  /** The release of a closed job clears the marker that carries the job's lease. */
  lemma {:induction false} ReleaseClears(s: State, c: ClientId, job: JobId) returns (t: State)
    requires At(s, c) == Idle && job in s.jobs && s.jobs[job].lease.Some?
    requires s.marker == Some(s.jobs[job].lease.value.leaseId)
    ensures Leads(s, [Hands(c, AskClosed(job, true)), Hands(c, Release(job)), Hands(c, Unlink(job))], t)
    ensures At(t, c) == Idle && t.marker == None && t.jobs == s.jobs && t.lock == s.lock
  {
    ThreeSteps(s, Hands(c, AskClosed(job, true)), Hands(c, Release(job)), Hands(c, Unlink(job)));
    t := After(s, [Hands(c, AskClosed(job, true)), Hands(c, Release(job)), Hands(c, Unlink(job))], 3);
  }

  /** The release of an open job, or of one whose lease is not in the marker, clears nothing. */
  lemma {:induction false} ReleaseRefused(s: State, c: ClientId, job: JobId, closed: bool)
    requires At(s, c) == Idle && job in s.jobs
    requires !closed || s.jobs[job].lease == None || s.marker != Some(s.jobs[job].lease.value.leaseId)
    ensures var asked := Step(s, Hands(c, AskClosed(job, closed)));
            && asked.Some? && asked.value.marker == s.marker
            && (!closed ==> At(asked.value, c) == Idle)
            && (closed ==>
                  var released := Step(asked.value, Hands(c, Release(job)));
                  released.Some? && released.value.marker == s.marker && At(released.value, c) == Idle)
  {
  }

  /** Nothing is asked about a job that has no folder. */
  lemma {:induction false} NoFolderNoRelease(s: State, c: ClientId, job: JobId, closed: bool)
    requires job !in s.jobs
    ensures Step(s, Hands(c, AskClosed(job, closed))) == None
  {
  }

  /** A crash frees the lock of the client, if it holds it, and leaves every file as it is. */
  lemma {:induction false} CrashKeepsFiles(s: State, c: ClientId)
    ensures var t := Step(s, Crash(c));
            && t.Some? && At(t.value, c) == Idle && t.value.marker == s.marker && t.value.jobs == s.jobs
            && (forall d :: t.value.lock == Some(d) <==> s.lock == Some(d) && d != c)
            && (forall d :: d != c ==> At(t.value, d) == At(s, d))
  {
  }

  /** The lock is given to one client at a time. */
  lemma {:induction false} LockIsExclusive(s: State, c: ClientId, job: JobId, approved: bool)
    requires At(s, c) == Idle
    ensures var t := Step(s, Runs(c, TakeLock(job, approved)));
            (t.Some? <==> s.lock == None) && (t.Some? ==> t.value.lock == Some(c) && t.value.jobs == s.jobs)
  {
  }
}
