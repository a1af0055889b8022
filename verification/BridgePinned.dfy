/** Claim identifiers with any number of clients: an identifier cannot be followed by another one without a clearing
    of the marker exactly while it is pinned. */
module BridgePinned {
  import opened Common
  import opened Bridge
  import opened BridgeRuns

  /** The marker is cleared on account of a no-job answer, an accepted submission, an accepted failure report,
      or the release of a closed job. */
  predicate ClearsMarker(a: Action) {
    || (a.Claims? && a.claim.ClearEmpty?)
    || (a.Reports? && (a.report.ClearSubmitted? || a.report.ClearFailed?))
    || (a.Hands? && (a.hand.ClearHandSubmitted? || a.hand.Unlink?))
  }

  /** No other identifier than `id` is about to be sent by the client. */
  ghost predicate CarriesOnly(s: State, c: ClientId, id: ClaimId) {
    At(s, c).ClaimChosen? || At(s, c).ClaimMarked? ==> At(s, c).id == id
  }

  /** The identifier is pinned: it is in the marker, and no client is about to send another one. */
  ghost predicate Pinned(s: State, id: ClaimId) {
    s.marker == Some(id) && forall c :: CarriesOnly(s, c, id)
  }

  lemma {:induction false} ClaimsMoveOne(s: State, d: ClientId, op: ClaimOp, c: ClientId)
    requires c != d && ClaimStep(s, d, At(s, d), op).Some?
    ensures At(ClaimStep(s, d, At(s, d), op).value, c) == At(s, c)
  {
  }

  lemma {:induction false} RunsMoveOne(s: State, d: ClientId, op: RunOp, c: ClientId)
    requires c != d && RunStep(s, d, At(s, d), op).Some?
    ensures At(RunStep(s, d, At(s, d), op).value, c) == At(s, c)
  {
  }

  lemma {:induction false} ReportsMoveOne(s: State, d: ClientId, op: ReportOp, c: ClientId)
    requires c != d && ReportStep(s, d, At(s, d), op).Some?
    ensures At(ReportStep(s, d, At(s, d), op).value, c) == At(s, c)
  {
  }

  lemma {:induction false} HandsMoveOne(s: State, d: ClientId, op: HandOp, c: ClientId)
    requires c != d && HandStep(s, d, At(s, d), op).Some?
    ensures At(HandStep(s, d, At(s, d), op).value, c) == At(s, c)
  {
  }

  /** A step moves only the client that takes it. */
  lemma {:induction false} OthersUnmoved(s: State, a: Action, c: ClientId)
    requires Step(s, a).Some? && (a.Claims? || a.Runs? || a.Reports? || a.Hands? || a.Crash? ==> a.c != c)
    ensures At(Step(s, a).value, c) == At(s, c)
  {
    match a
    case Claims(d, op) => ClaimsMoveOne(s, d, op, c);
    case Runs(d, op) => RunsMoveOne(s, d, op, c);
    case Reports(d, op) => ReportsMoveOne(s, d, op, c);
    case Hands(d, op) => HandsMoveOne(s, d, op, c);
    case _ =>
  }

  lemma {:induction false} CarriesStep(s: State, a: Action, c: ClientId, id: ClaimId)
    requires Step(s, a).Some? && s.marker == Some(id) && CarriesOnly(s, c, id)
    ensures CarriesOnly(Step(s, a).value, c, id)
  {
    if a.Claims? || a.Runs? || a.Reports? || a.Hands? || a.Crash? ==> a.c != c {
      OthersUnmoved(s, a, c);
    }
  }

  /** Every step that does not clear the marker keeps the identifier pinned, crashes included. */
  lemma {:induction false} PinnedStep(s: State, a: Action, id: ClaimId)
    requires Step(s, a).Some? && Pinned(s, id) && !ClearsMarker(a)
    ensures Pinned(Step(s, a).value, id)
  {
    assert a.Claims? ==> CarriesOnly(s, a.c, id);
    forall c
      ensures CarriesOnly(Step(s, a).value, c, id)
    {
      assert CarriesOnly(s, c, id);
      CarriesStep(s, a, c, id);
    }
  }

  lemma {:induction false} PinnedAfter(s: State, acts: seq<Action>, id: ClaimId, i: nat, j: nat)
    requires IsRun(s, acts) && i <= j <= |acts| && Pinned(After(s, acts, i), id)
    requires forall k :: i <= k < j ==> !ClearsMarker(acts[k])
    ensures Pinned(After(s, acts, j), id)
    decreases j
  {
    if i < j {
      PinnedAfter(s, acts, id, i, j - 1);
      AfterStep(s, acts, j - 1);
      PinnedStep(After(s, acts, j - 1), acts[j - 1], id);
    }
  }

  /** The action requests a claim under another identifier. */
  predicate RequestsOther(a: Action, id: ClaimId) {
    a.Claims? && a.claim.PostClaim? && a.claim.id != id
  }

  lemma {:induction false} OnlyPinnedRequested(s: State, a: Action, id: ClaimId)
    requires Step(s, a).Some? && Pinned(s, id)
    ensures !RequestsOther(a, id)
  {
    assert a.Claims? ==> CarriesOnly(s, a.c, id);
  }

  /** With any number of clients: once an identifier is pinned, a request under another one comes only after a
      clearing of the marker. */
  lemma {:induction false} PinnedUntilCleared(s: State, acts: seq<Action>, id: ClaimId, i: nat, j: nat)
    returns (k: nat)
    requires IsRun(s, acts) && i <= j < |acts| && Pinned(After(s, acts, i), id) && RequestsOther(acts[j], id)
    ensures i <= k < j && ClearsMarker(acts[k])
  {
    if forall k :: i <= k < j ==> !ClearsMarker(acts[k]) {
      PinnedAfter(s, acts, id, i, j);
      AfterStep(s, acts, j);
      OnlyPinnedRequested(After(s, acts, j), acts[j], id);
      assert false;
    }
    k :| i <= k < j && ClearsMarker(acts[k]);
  }

  /** The run ends with a request under another identifier, and nothing in it clears the marker. */
  ghost predicate Escapes(acts: seq<Action>, id: ClaimId) {
    && acts != [] && RequestsOther(acts[|acts| - 1], id)
    && forall k :: 0 <= k < |acts| - 1 ==> !ClearsMarker(acts[k])
  }

  ghost predicate NoEscape(s: State, id: ClaimId) {
    forall acts :: IsRun(s, acts) ==> !Escapes(acts, id)
  }

  /** From a state where the identifier is not pinned, some run sends another one with no clearing. */
  lemma {:induction false} UnpinnedEscapes(s: State, id: ClaimId) returns (acts: seq<Action>)
    requires !Pinned(s, id)
    ensures IsRun(s, acts) && Escapes(acts, id)
  {
    if c :| !CarriesOnly(s, c, id) {
      var other := At(s, c).id;
      var post := Claims(c, PostClaim(other, ClaimLost));
      if At(s, c).ClaimMarked? {
        acts := [post];
        RunCons(s, post, []);
      } else {
        acts := [Claims(c, WriteMarker), post];
      }
    } else {
      var c := Fresh(s.clients.Keys);
      var other := if s.marker.Some? then s.marker.value else id + "+";
      var read := Claims(c, ReadMarker(other));
      acts := [read] + [Claims(c, WriteMarker), Claims(c, PostClaim(other, ClaimLost))];
      RunCons(s, read, [Claims(c, WriteMarker), Claims(c, PostClaim(other, ClaimLost))]);
    }
  }

  /** A client that has done nothing yet. */
  lemma {:induction false} Fresh(used: set<ClientId>) returns (c: ClientId)
    ensures c !in used
  {
    if used == {} {
      c := 0;
    } else {
      var top := Top(used);
      c := top + 1;
    }
  }

  lemma {:induction false} Top(used: set<ClientId>) returns (top: ClientId)
    requires used != {}
    ensures top in used && forall d :: d in used ==> d <= top
  {
    var some :| some in used;
    var rest := used - {some};
    top := some;
    if rest != {} {
      var t := Top(rest);
      top := if t > some then t else some;
    }
    assert forall d :: d in used ==> d == some || d in rest;
  }

  /** The exact condition: a request under another identifier is impossible without a clearing of the marker, in
      every run of any number of clients, if and only if the identifier is pinned. */
  lemma {:induction false} PinnedIffNoEscape(s: State, id: ClaimId)
    ensures Pinned(s, id) <==> NoEscape(s, id)
  {
    if Pinned(s, id) {
      forall acts | IsRun(s, acts)
        ensures !Escapes(acts, id)
      {
        if Escapes(acts, id) {
          var k := PinnedUntilCleared(s, acts, id, 0, |acts| - 1);
          assert false;
        }
      }
    } else {
      var acts := UnpinnedEscapes(s, id);
    }
  }
}
