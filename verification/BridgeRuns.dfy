/** Runs of the bridge clients: any interleaving of steps from the empty root. */
module BridgeRuns {
  import opened Common
  import opened Bridge

  ghost predicate Init(s: State) {
    s == State(None, map[], None, map[], map[])
  }

  ghost predicate IsRun(s: State, acts: seq<Action>)
    decreases |acts|
  {
    acts == [] || (Step(s, acts[0]).Some? && IsRun(Step(s, acts[0]).value, acts[1..]))
  }

  /** The state reached after the first `i` actions. */
  ghost function After(s: State, acts: seq<Action>, i: nat): State
    requires IsRun(s, acts) && i <= |acts|
    decreases i
  {
    if i == 0 then s else After(Step(s, acts[0]).value, acts[1..], i - 1)
  }

  lemma {:induction false} AfterStep(s: State, acts: seq<Action>, i: nat)
    requires IsRun(s, acts) && i < |acts|
    ensures Step(After(s, acts, i), acts[i]) == Some(After(s, acts, i + 1))
    decreases i
  {
    if i > 0 {
      AfterStep(Step(s, acts[0]).value, acts[1..], i - 1);
      assert acts[1..][i - 1] == acts[i];
    }
  }

  lemma {:induction false} RunCons(s: State, a: Action, acts: seq<Action>)
    requires Step(s, a).Some? && IsRun(Step(s, a).value, acts)
    ensures IsRun(s, [a] + acts)
  {
    assert ([a] + acts)[1..] == acts;
  }

  lemma {:induction false} ThreeSteps(s: State, a: Action, b: Action, c: Action)
    requires Step(s, a).Some? && Step(Step(s, a).value, b).Some?
    requires Step(Step(Step(s, a).value, b).value, c).Some?
    ensures IsRun(s, [a, b, c]) && After(s, [a, b, c], 3) == Step(Step(Step(s, a).value, b).value, c).value
  {
    RunCons(Step(Step(s, a).value, b).value, c, []);
    RunCons(Step(s, a).value, b, [c]);
    assert [b, c] == [b] + [c];
    RunCons(s, a, [b, c]);
    assert [a, b, c] == [a] + [b, c];
    AfterStep(s, [a, b, c], 0);
    AfterStep(s, [a, b, c], 1);
    AfterStep(s, [a, b, c], 2);
  }

  lemma {:induction false} Joined(s: State, a: seq<Action>, b: seq<Action>)
    requires IsRun(s, a) && IsRun(After(s, a, |a|), b)
    ensures IsRun(s, a + b) && After(s, a + b, |a| + |b|) == After(After(s, a, |a|), b, |b|)
    decreases |a|
  {
    if a == [] {
      assert a + b == b;
    } else {
      assert After(Step(s, a[0]).value, a[1..], |a| - 1) == After(s, a, |a|);
      Joined(Step(s, a[0]).value, a[1..], b);
      assert (a + b)[0] == a[0] && (a + b)[1..] == a[1..] + b;
    }
  }
}
