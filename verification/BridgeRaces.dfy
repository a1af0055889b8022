/** Two clients on one root: the runs in which a claim identifier is followed by another one with no clearing of the
    marker between the two requests. */
module BridgeRaces {
  import opened Common
  import opened Bridge
  import opened BridgeRuns
  import opened BridgePinned

  /** With two clients on one root the promise fails in two ways. First, both read "no marker" before either
      writes it. */
  lemma {:induction false} TwoClientsMaySendTwoIdentifiers(s: State, id: ClaimId, other: ClaimId)
    requires Init(s) && id != other
    ensures var acts := [Claims(0, ReadMarker(id)), Claims(1, ReadMarker(other)), Claims(0, WriteMarker)]
                        + [Claims(0, PostClaim(id, ClaimLost)), Claims(1, WriteMarker),
                           Claims(1, PostClaim(other, ClaimLost))];
            IsRun(s, acts) && forall k :: 3 <= k < 5 ==> !ClearsMarker(acts[k])
  {
    var first := [Claims(0, ReadMarker(id)), Claims(1, ReadMarker(other)), Claims(0, WriteMarker)];
    var t := BothRead(s, id, other);
    BothSend(t, id, other);
    Joined(s, first,
           [Claims(0, PostClaim(id, ClaimLost)), Claims(1, WriteMarker), Claims(1, PostClaim(other, ClaimLost))]);
  }

  lemma {:induction false} BothRead(s: State, id: ClaimId, other: ClaimId) returns (t: State)
    requires Init(s)
    ensures var acts := [Claims(0, ReadMarker(id)), Claims(1, ReadMarker(other)), Claims(0, WriteMarker)];
            IsRun(s, acts) && After(s, acts, 3) == t
    ensures At(t, 0) == ClaimMarked(id) && At(t, 1) == ClaimChosen(other)
  {
    ThreeSteps(s, Claims(0, ReadMarker(id)), Claims(1, ReadMarker(other)), Claims(0, WriteMarker));
    t := After(s, [Claims(0, ReadMarker(id)), Claims(1, ReadMarker(other)), Claims(0, WriteMarker)], 3);
  }

  lemma {:induction false} BothSend(s: State, id: ClaimId, other: ClaimId)
    requires At(s, 0) == ClaimMarked(id) && At(s, 1) == ClaimChosen(other)
    ensures IsRun(s, [Claims(0, PostClaim(id, ClaimLost)), Claims(1, WriteMarker),
                      Claims(1, PostClaim(other, ClaimLost))])
  {
    ThreeSteps(s, Claims(0, PostClaim(id, ClaimLost)), Claims(1, WriteMarker),
               Claims(1, PostClaim(other, ClaimLost)));
  }

  /** Second, a client sends the identifier it has read and written after another client has cleared the marker;
      the next client finds no marker. Here nobody reads "no marker" while it is there. */
  lemma {:induction false} ClearedBeforeTheRequest(s: State, id: ClaimId, other: ClaimId)
    requires Init(s) && id != other
    ensures var acts := [Claims(1, ReadMarker(id)), Claims(1, WriteMarker), Claims(1, PostClaim(id, NoJob))]
                        + ([Claims(0, ReadMarker(other)), Claims(0, WriteMarker), Claims(1, ClearEmpty)]
                        + ([Claims(0, PostClaim(id, ClaimLost)), Claims(1, ReadMarker(other)), Claims(1, WriteMarker)]
                        + [Claims(1, PostClaim(other, ClaimLost))]));
            IsRun(s, acts) && forall k :: 6 <= k < 9 ==> !ClearsMarker(acts[k])
  {
    var a := [Claims(1, ReadMarker(id)), Claims(1, WriteMarker), Claims(1, PostClaim(id, NoJob))];
    var b := [Claims(0, ReadMarker(other)), Claims(0, WriteMarker), Claims(1, ClearEmpty)];
    var c := [Claims(0, PostClaim(id, ClaimLost)), Claims(1, ReadMarker(other)), Claims(1, WriteMarker)];
    var d := [Claims(1, PostClaim(other, ClaimLost))];
    var t := FindsNoJob(s, id);
    SendsAfterClearing(t, id, other, b, c, d);
    Joined(s, a, b + (c + d));
  }

  lemma {:induction false} SendsAfterClearing(
    s: State, id: ClaimId, other: ClaimId, b: seq<Action>, c: seq<Action>, d: seq<Action>)
    requires s.marker == Some(id) && At(s, 0) == Idle && At(s, 1) == ClaimEmpty
    requires b == [Claims(0, ReadMarker(other)), Claims(0, WriteMarker), Claims(1, ClearEmpty)]
    requires c == [Claims(0, PostClaim(id, ClaimLost)), Claims(1, ReadMarker(other)), Claims(1, WriteMarker)]
    requires d == [Claims(1, PostClaim(other, ClaimLost))]
    ensures IsRun(s, b + (c + d))
  {
    var t := ClearsUnderway(s, id, other);
    SendsTwo(t, id, other, c, d);
    Joined(s, b, c + d);
  }

  lemma {:induction false} SendsTwo(s: State, id: ClaimId, other: ClaimId, c: seq<Action>, d: seq<Action>)
    requires s.marker == None && At(s, 0) == ClaimMarked(id) && At(s, 1) == Idle
    requires c == [Claims(0, PostClaim(id, ClaimLost)), Claims(1, ReadMarker(other)), Claims(1, WriteMarker)]
    requires d == [Claims(1, PostClaim(other, ClaimLost))]
    ensures IsRun(s, c + d)
  {
    var t := ReadsNothing(s, id, other);
    RunCons(t, d[0], []);
    Joined(s, c, d);
  }

  lemma {:induction false} FindsNoJob(s: State, id: ClaimId) returns (t: State)
    requires Init(s)
    ensures var acts := [Claims(1, ReadMarker(id)), Claims(1, WriteMarker), Claims(1, PostClaim(id, NoJob))];
            IsRun(s, acts) && After(s, acts, 3) == t
    ensures t.marker == Some(id) && At(t, 0) == Idle && At(t, 1) == ClaimEmpty
  {
    ThreeSteps(s, Claims(1, ReadMarker(id)), Claims(1, WriteMarker), Claims(1, PostClaim(id, NoJob)));
    t := After(s, [Claims(1, ReadMarker(id)), Claims(1, WriteMarker), Claims(1, PostClaim(id, NoJob))], 3);
  }

  lemma {:induction false} ClearsUnderway(s: State, id: ClaimId, other: ClaimId) returns (t: State)
    requires s.marker == Some(id) && At(s, 0) == Idle && At(s, 1) == ClaimEmpty
    ensures var acts := [Claims(0, ReadMarker(other)), Claims(0, WriteMarker), Claims(1, ClearEmpty)];
            IsRun(s, acts) && After(s, acts, 3) == t
    ensures t.marker == None && At(t, 0) == ClaimMarked(id) && At(t, 1) == Idle
  {
    ThreeSteps(s, Claims(0, ReadMarker(other)), Claims(0, WriteMarker), Claims(1, ClearEmpty));
    t := After(s, [Claims(0, ReadMarker(other)), Claims(0, WriteMarker), Claims(1, ClearEmpty)], 3);
  }

  lemma {:induction false} ReadsNothing(s: State, id: ClaimId, other: ClaimId) returns (t: State)
    requires s.marker == None && At(s, 0) == ClaimMarked(id) && At(s, 1) == Idle
    ensures var acts := [Claims(0, PostClaim(id, ClaimLost)), Claims(1, ReadMarker(other)), Claims(1, WriteMarker)];
            IsRun(s, acts) && After(s, acts, 3) == t
    ensures At(t, 1) == ClaimMarked(other)
  {
    ThreeSteps(s, Claims(0, PostClaim(id, ClaimLost)), Claims(1, ReadMarker(other)), Claims(1, WriteMarker));
    t := After(s, [Claims(0, PostClaim(id, ClaimLost)), Claims(1, ReadMarker(other)), Claims(1, WriteMarker)], 3);
  }
}
