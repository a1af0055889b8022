/** The claim identifier survives crashes and lost replies: with one client per root every request pins its
    identifier, so a new one is only sent after the marker has been cleared, and an answer of the server has allowed
    that. */
module BridgeClaims {
  import opened Common
  import opened Bridge
  import opened BridgeRuns
  import opened BridgePinned

  /** The steps of client `c`, and those of the model processes, which no client takes. */
  predicate OnlyClient(c: ClientId, a: Action) {
    a.Claims? || a.Runs? || a.Reports? || a.Hands? || a.Crash? ==> a.c == c
  }

  ghost predicate SoloRun(c: ClientId, acts: seq<Action>) {
    forall i :: 0 <= i < |acts| ==> OnlyClient(c, acts[i])
  }

  /** While a claim is under way the marker holds its identifier; while a release is under way, the one that the
      release has compared. */
  ghost predicate MarkerHeld(s: State, c: ClientId) {
    At(s, c).ClaimMarked? || At(s, c).Unlinking? ==> s.marker == Some(At(s, c).id)
  }

  ghost predicate Solo(s: State, c: ClientId) {
    MarkerHeld(s, c) && forall d :: d != c ==> At(s, d) == Idle
  }

  lemma {:induction false} MarkerStep(s: State, a: Action, c: ClientId)
    requires OnlyClient(c, a) && Step(s, a).Some? && MarkerHeld(s, c)
    ensures MarkerHeld(Step(s, a).value, c)
  {
    match a
    case Claims(_, _) =>
    case Runs(_, _) =>
    case Reports(_, _) =>
    case Hands(_, _) =>
    case _ =>
  }

  lemma {:induction false} SoloAfter(s: State, acts: seq<Action>, c: ClientId, i: nat)
    requires Init(s) && IsRun(s, acts) && SoloRun(c, acts) && i <= |acts|
    ensures Solo(After(s, acts, i), c)
  {
    if i > 0 {
      SoloAfter(s, acts, c, i - 1);
      AfterStep(s, acts, i - 1);
      MarkerStep(After(s, acts, i - 1), acts[i - 1], c);
      forall d | d != c
        ensures At(After(s, acts, i), d) == Idle
      {
        OthersUnmoved(After(s, acts, i - 1), acts[i - 1], d);
      }
    }
  }

  /** With one client per root every claim request pins its identifier. */
  lemma {:induction false} RequestPins(s: State, acts: seq<Action>, c: ClientId, i: nat, id: ClaimId)
    requires Init(s) && IsRun(s, acts) && SoloRun(c, acts) && i <= |acts|
    requires At(After(s, acts, i), c) == ClaimMarked(id)
    ensures Pinned(After(s, acts, i), id)
  {
    SoloAfter(s, acts, c, i);
  }

  /** And the release of a closed job unlinks the very marker whose identifier it found in the job's lease. */
  lemma {:induction false} ReleaseUnlinksWhatItCompared(
    s: State, acts: seq<Action>, c: ClientId, k: nat, job: JobId) returns (r: nat)
    requires Init(s) && IsRun(s, acts) && SoloRun(c, acts) && k < |acts| && acts[k] == Hands(c, Unlink(job))
    ensures r < k && acts[r] == Hands(c, Release(job))
    ensures var lease := FolderOf(After(s, acts, r), job).lease;
            lease.Some? && After(s, acts, k).marker == After(s, acts, r).marker == Some(lease.value.leaseId)
  {
    SoloAfter(s, acts, c, k);
    AfterStep(s, acts, k);
    r := ComparedAt(s, acts, c, k, job, At(After(s, acts, k), c).id);
  }

  /** The step compares the marker with the lease of the job and finds `id` in both. */
  ghost predicate Compares(s: State, a: Action, c: ClientId, job: JobId, id: ClaimId) {
    var lease := FolderOf(s, job).lease;
    a == Hands(c, Release(job)) && s.marker == Some(id) && lease.Some? && lease.value.leaseId == id
  }

  lemma {:induction false} ComparedAt(
    s: State, acts: seq<Action>, c: ClientId, k: nat, job: JobId, id: ClaimId) returns (r: nat)
    requires Init(s) && IsRun(s, acts) && k <= |acts| && At(After(s, acts, k), c) == Unlinking(job, id)
    ensures r < k && Compares(After(s, acts, r), acts[r], c, job, id)
  {
    ComparedOrStill(s, acts, c, k, job, id);
    if Compares(After(s, acts, k - 1), acts[k - 1], c, job, id) {
      r := k - 1;
    } else {
      r := ComparedAt(s, acts, c, k - 1, job, id);
    }
  }

  lemma {:induction false} ComparedOrStill(
    s: State, acts: seq<Action>, c: ClientId, k: nat, job: JobId, id: ClaimId)
    requires IsRun(s, acts) && 0 < k <= |acts| && At(After(s, acts, k), c) == Unlinking(job, id)
    ensures Compares(After(s, acts, k - 1), acts[k - 1], c, job, id)
            || At(After(s, acts, k - 1), c) == Unlinking(job, id)
  {
    AfterStep(s, acts, k - 1);
    if acts[k - 1] != Hands(c, Release(job)) {
      UnlinkingStays(After(s, acts, k - 1), acts[k - 1], c, job, id);
    }
  }

  lemma {:induction false} UnlinkingStays(s: State, a: Action, c: ClientId, job: JobId, id: ClaimId)
    requires Step(s, a).Some? && At(Step(s, a).value, c) == Unlinking(job, id) && a != Hands(c, Release(job))
    ensures At(s, c) == Unlinking(job, id)
  {
    if a.Claims? || a.Runs? || a.Reports? || a.Hands? || a.Crash? ==> a.c != c {
      OthersUnmoved(s, a, c);
    }
  }

  // ---------------------------------------------------------------- what a clearing rests on

  /** Positions that an answer of the server has allowed, up to the clearing of the marker. */
  predicate Allowed(pc: Pc) {
    pc.ClaimEmpty? || pc.Accepted? || pc.Receipted? || pc.FailAccepted? || pc.HandAccepted? || pc.HandReceipted?
    || pc.Releasing? || pc.Unlinking?
  }

  /** The answer that allows a position: no job, an accepted result, an accepted failure report, or a closed
      job. */
  predicate Allows(a: Action, c: ClientId, pc: Pc) {
    match pc
    case ClaimEmpty => a.Claims? && a.c == c && a.claim.PostClaim? && a.claim.answer.NoJob?
    case Accepted(job) => AcceptsResult(a, c, job)
    case Receipted(job) => AcceptsResult(a, c, job)
    case FailAccepted(job) => a == Reports(c, PostFailure(job, true))
    case HandAccepted(_) => a == Hands(c, HandPost(true))
    case HandReceipted(_) => a == Hands(c, HandPost(true))
    case Releasing(job) => a == Hands(c, AskClosed(job, true))
    case Unlinking(job, _) => a == Hands(c, AskClosed(job, true))
    case _ => false
  }

  predicate AcceptsResult(a: Action, c: ClientId, job: JobId) {
    a.Reports? && a.c == c && a.report.PostResult? && a.report.job == job && a.report.accepted
  }

  /** The client has not moved, has written the receipt of what was accepted, or has compared the marker with the
      lease of a closed job. */
  predicate Continues(before: Pc, after: Pc) {
    || after == before
    || (before.Accepted? && after == Receipted(before.job))
    || (before.HandAccepted? && after == HandReceipted(before.job))
    || (before.Releasing? && after.Unlinking? && after.job == before.job)
  }

  /** A step into an allowed position of `c` is the answer that allows it, or only continues. */
  ghost predicate StepAllows(s: State, t: State, a: Action, c: ClientId) {
    Allowed(At(t, c)) ==> Allows(a, c, At(t, c)) || Continues(At(s, c), At(t, c))
  }

  lemma {:induction false} AllowedClaims(s: State, d: ClientId, op: ClaimOp, c: ClientId)
    requires ClaimStep(s, d, At(s, d), op).Some?
    ensures StepAllows(s, ClaimStep(s, d, At(s, d), op).value, Claims(d, op), c)
  {
  }

  lemma {:induction false} AllowedRuns(s: State, d: ClientId, op: RunOp, c: ClientId)
    requires RunStep(s, d, At(s, d), op).Some?
    ensures StepAllows(s, RunStep(s, d, At(s, d), op).value, Runs(d, op), c)
  {
  }

  lemma {:induction false} AllowedReports(s: State, d: ClientId, op: ReportOp, c: ClientId)
    requires ReportStep(s, d, At(s, d), op).Some?
    ensures StepAllows(s, ReportStep(s, d, At(s, d), op).value, Reports(d, op), c)
  {
  }

  lemma {:induction false} AllowedHands(s: State, d: ClientId, op: HandOp, c: ClientId)
    requires HandStep(s, d, At(s, d), op).Some?
    ensures StepAllows(s, HandStep(s, d, At(s, d), op).value, Hands(d, op), c)
  {
  }

  lemma {:induction false} AllowedStep(s: State, a: Action, c: ClientId)
    requires Step(s, a).Some?
    ensures StepAllows(s, Step(s, a).value, a, c)
  {
    match a
    case Claims(d, op) => AllowedClaims(s, d, op, c);
    case Runs(d, op) => AllowedRuns(s, d, op, c);
    case Reports(d, op) => AllowedReports(s, d, op, c);
    case Hands(d, op) => AllowedHands(s, d, op, c);
    case _ =>
  }

  lemma {:induction false} AllowedSince(s: State, acts: seq<Action>, c: ClientId, i: nat, k: nat) returns (g: nat)
    requires IsRun(s, acts) && i <= k <= |acts|
    requires !Allowed(At(After(s, acts, i), c)) && Allowed(At(After(s, acts, k), c))
    ensures i <= g < k && Allows(acts[g], c, At(After(s, acts, k), c))
    decreases k
  {
    var before, after := At(After(s, acts, k - 1), c), At(After(s, acts, k), c);
    AllowedAt(s, acts, c, k);
    if Allows(acts[k - 1], c, after) {
      g := k - 1;
    } else {
      ContinuesAllowed(c, before, after);
      g := AllowedSince(s, acts, c, i, k - 1);
      assert Allows(acts[g], c, after);
    }
  }

  lemma {:induction false} ContinuesAllowed(c: ClientId, before: Pc, after: Pc)
    requires Continues(before, after) && Allowed(after)
    ensures Allowed(before) && forall a :: Allows(a, c, before) ==> Allows(a, c, after)
  {
  }

  lemma {:induction false} AllowedAt(s: State, acts: seq<Action>, c: ClientId, k: nat)
    requires IsRun(s, acts) && 0 < k <= |acts|
    ensures StepAllows(After(s, acts, k - 1), After(s, acts, k), acts[k - 1], c)
  {
    AfterStep(s, acts, k - 1);
    AllowedStep(After(s, acts, k - 1), acts[k - 1], c);
  }

  lemma {:induction false} ClearedWhenAllowed(s: State, a: Action, c: ClientId)
    requires OnlyClient(c, a) && Step(s, a).Some? && ClearsMarker(a)
    ensures Allowed(At(s, c))
  {
  }

  /** With one client per root, two claim requests with different identifiers are separated by a step that cleared
      the marker, whatever crashes and lost replies lie between them, and an answer of the server since the first
      request allowed that step. */
  lemma {:induction false} NewIdentifierOnlyAfterClearing(
    s: State, acts: seq<Action>, c: ClientId, i: nat, j: nat,
    id: ClaimId, other: ClaimId, answer: ClaimAnswer, later: ClaimAnswer) returns (g: nat, k: nat)
    requires Init(s) && IsRun(s, acts) && SoloRun(c, acts) && i < j < |acts|
    requires acts[i] == Claims(c, PostClaim(id, answer)) && acts[j] == Claims(c, PostClaim(other, later))
    requires id != other
    ensures i <= g < k < j && ClearsMarker(acts[k])
    ensures Allows(acts[g], c, At(After(s, acts, k), c))
  {
    AfterStep(s, acts, i);
    assert At(After(s, acts, i), c) == ClaimMarked(id);
    RequestPins(s, acts, c, i, id);
    k := PinnedUntilCleared(s, acts, id, i, j);
    AfterStep(s, acts, k);
    ClearedWhenAllowed(After(s, acts, k), acts[k], c);
    g := AllowedSince(s, acts, c, i, k);
  }
}
