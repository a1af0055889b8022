/** Durable claims of decision-board slots: the slot part of a scheduler tick on its database session, and
    runs of ticks by any number of scheduler processes with failures, stops, uncaught errors and crashes. */
module SlotClaims {
  import opened Common

  type Key = string
  type Process = nat

  /** The claim rows as one session sees them: the committed rows and its own uncommitted changes. */
  datatype Table = Table(committed: set<Key>, added: set<Key>, removed: set<Key>)

  predicate Visible(t: Table, key: Key) { key in t.added || (key in t.committed && key !in t.removed) }

  predicate Clean(t: Table) { t.added == {} && t.removed == {} }

  function Insert(t: Table, key: Key): Table { t.(added := t.added + {key}) }

  function Delete(t: Table, key: Key): Table {
    if key in t.added then t.(added := t.added - {key}) else t.(removed := t.removed + {key})
  }

  /** An inserted row is seen and a deleted one is not. */
  lemma {:induction false} SeenByTheSession(t: Table, key: Key)
    ensures Visible(Insert(t, key), key)
    ensures !(key in t.added && key in t.committed) ==> !Visible(Delete(t, key), key)
  {
  }

  function Commit(t: Table): Table { Table(t.committed - t.removed + t.added, {}, {}) }

  function Rollback(t: Table): Table { Table(t.committed, {}, {}) }

  /** How a guarded task run can end. `Stopped`: the daemon is stopping and nothing runs. `Raised`: the task
      service rolled the session back and reported failure. `Busy`: it reported busy without touching the
      session. `Incomplete`: it returned a failed, partial or cancelled result, which is committed. `Uncaught`:
      any other exception, which ends the tick and rolls the session back. */
  datatype Outcome = Stopped | Succeeded | Incomplete | Raised | Busy | Uncaught

  /** The session after the guarded run, before any release. */
  function AfterRun(t: Table, outcome: Outcome): Table {
    match outcome
    case Succeeded => Commit(t)
    case Incomplete => Commit(t)
    case Raised => Rollback(t)
    case Uncaught => Rollback(t)
    case Stopped => t
    case Busy => t
  }

  /** The committed claims that the slot part of a tick leaves: one more exactly after a success. */
  function Promised(rows: set<Key>, key: Key, ran: bool, outcome: Outcome): set<Key> {
    rows + if ran && outcome.Succeeded? then {key} else {}
  }

  /** The session of one scheduler tick. */
  class SlotSession {
    var table: Table

    constructor (rows: set<Key>)
      ensures table == Table(rows, {}, {})
    {
      table := Table(rows, {}, {});
    }

    /** A row is inserted unless one is visible or another session holds the key. */
    method Claim(key: Key, heldElsewhere: bool) returns (claimed: bool)
      modifies this
      ensures claimed == (!Visible(old(table), key) && !heldElsewhere)
      ensures table == if claimed then Insert(old(table), key) else old(table)
    {
      if Visible(table, key) {
        return false;
      }
      if heldElsewhere {
        return false;
      }
      table := Insert(table, key);
      return true;
    }

    method Release(key: Key)
      modifies this
      ensures table == if Visible(old(table), key) then Delete(old(table), key) else old(table)
    {
      if Visible(table, key) {
        table := Delete(table, key);
      }
    }

    method RunGuarded(outcome: Outcome) returns (ok: bool)
      modifies this
      ensures ok == outcome.Succeeded?
      ensures table == AfterRun(old(table), outcome)
    {
      if outcome.Succeeded? || outcome.Incomplete? {
        table := Commit(table);
      } else if outcome.Raised? || outcome.Uncaught? {
        table := Rollback(table);
      }
      return outcome.Succeeded?;
    }

    /** The slot part of a tick, from a clean session to a clean session. A slot that was free is claimed for
        good exactly when its refresh succeeded; a failed attempt leaves it free; no other slot changes. */
    method SlotSection(key: Key, heldElsewhere: bool, outcome: Outcome) returns (ran: bool)
      requires Clean(table)
      modifies this
      ensures Clean(table)
      ensures ran == (key !in old(table).committed && !heldElsewhere)
      ensures table.committed == Promised(old(table).committed, key, ran, outcome)
    {
      ran := Claim(key, heldElsewhere);
      if ran {
        var ok := RunGuarded(outcome);
        if !ok && !outcome.Uncaught? {
          Release(key);
          table := Commit(table);
        }
      }
    }
  }

  // ---------------------------------------------------------------- processes, steps, runs

  /** Where a tick is in its slot part. `stored` remembers that the failed attempt had an incomplete result,
      which was committed together with the claim. */
  datatype Pc = Idle | Claimed(key: Key) | Failed(key: Key, stored: bool) | Released(key: Key, stored: bool)

  datatype Session = Session(pc: Pc, added: set<Key>, removed: set<Key>)

  datatype State = State(committed: set<Key>, sessions: map<Process, Session>)

  function SessionOf(s: State, p: Process): Session {
    if p in s.sessions then s.sessions[p] else Session(Idle, {}, {})
  }

  function View(s: State, p: Process): Table {
    Table(s.committed, SessionOf(s, p).added, SessionOf(s, p).removed)
  }

  function With(s: State, p: Process, t: Table, pc: Pc): State {
    State(t.committed, s.sessions[p := Session(pc, t.added, t.removed)])
  }

  /** The key is uncommitted in some other session, so an insert of it fails. */
  ghost predicate HeldElsewhere(s: State, p: Process, key: Key) {
    exists q :: q in s.sessions && q != p && key in s.sessions[q].added
  }

  datatype Action =
    | Claim(p: Process, key: Key)
    | Run(p: Process, key: Key, outcome: Outcome)
    | Release(p: Process, key: Key)
    | CommitRelease(p: Process, key: Key)
    | Abort(p: Process)

  /** One step of a process; `Abort` is a crash or an uncaught error at any point of the tick. */
  ghost function Step(s: State, a: Action): Option<State> {
    var pc, view := SessionOf(s, a.p).pc, View(s, a.p);
    match a
    case Claim(p, key) =>
      if pc != Idle then None
      else if Visible(view, key) || HeldElsewhere(s, p, key) then Some(s)
      else Some(With(s, p, Insert(view, key), Claimed(key)))
    case Run(p, key, outcome) =>
      if pc != Claimed(key) then None
      else if outcome.Succeeded? || outcome.Uncaught? then Some(With(s, p, AfterRun(view, outcome), Idle))
      else Some(With(s, p, AfterRun(view, outcome), Failed(key, outcome.Incomplete?)))
    case Release(p, key) =>
      if !pc.Failed? || pc.key != key then None
      else Some(With(s, p, if Visible(view, key) then Delete(view, key) else view, Released(key, pc.stored)))
    case CommitRelease(p, key) =>
      if !pc.Released? || pc.key != key then None else Some(With(s, p, Commit(view), Idle))
    case Abort(p) => Some(With(s, p, Rollback(view), Idle))
  }

  ghost predicate Init(s: State) { s == State({}, map[]) }

  ghost predicate IsRun(s: State, acts: seq<Action>)
    decreases |acts|
  {
    acts == [] || (Step(s, acts[0]).Some? && IsRun(Step(s, acts[0]).value, acts[1..]))
  }

  ghost function After(s: State, acts: seq<Action>, i: nat): State
    requires IsRun(s, acts) && i <= |acts|
    decreases i
  {
    if i == 0 then s else After(Step(s, acts[0]).value, acts[1..], i - 1)
  }

  lemma {:induction false} AfterStep(s: State, acts: seq<Action>, i: nat)
    requires IsRun(s, acts) && i < |acts|
    ensures Step(After(s, acts, i), acts[i]) == Some(After(s, acts, i + 1))
    decreases i
  {
    if i > 0 {
      AfterStep(Step(s, acts[0]).value, acts[1..], i - 1);
      assert acts[1..][i - 1] == acts[i];
    }
  }

  // ---------------------------------------------------------------- any number of schedulers

  /** What a process inside its slot part may hold uncommitted, whatever the other processes do. */
  ghost predicate SessionSafe(s: State, p: Process) {
    var session := SessionOf(s, p);
    match session.pc
    case Idle => session.added == {} && session.removed == {}
    case Claimed(key) => session.added == {key} && session.removed == {} && key !in s.committed
    case Failed(key, _) => session.added <= {key} && session.removed == {} && session.added !! s.committed
    case Released(key, _) => session.added == {} && session.removed <= {key}
  }

  /** No key is held uncommitted by two processes. */
  ghost predicate Safe(s: State) {
    && (forall p :: SessionSafe(s, p))
    && (forall p, q :: p != q ==> SessionOf(s, p).added !! SessionOf(s, q).added)
  }

  lemma {:induction false} SafeStep(s: State, a: Action)
    requires Safe(s) && Step(s, a).Some?
    ensures Safe(Step(s, a).value)
  {
    var t := Step(s, a).value;
    assert SessionSafe(s, a.p);
    forall p
      ensures SessionSafe(t, p)
    {
      assert SessionSafe(s, p);
      assert p != a.p ==> SessionOf(t, p) == SessionOf(s, p);
    }
    forall p, q | p != q
      ensures SessionOf(t, p).added !! SessionOf(t, q).added
    {
      assert SessionSafe(s, p) && SessionSafe(s, q);
      assert p != a.p ==> SessionOf(t, p) == SessionOf(s, p);
      assert q != a.p ==> SessionOf(t, q) == SessionOf(s, q);
    }
  }

  lemma {:induction false} SafeAfter(s: State, acts: seq<Action>, i: nat)
    requires Init(s) && IsRun(s, acts) && i <= |acts|
    ensures Safe(After(s, acts, i))
  {
    if i > 0 {
      SafeAfter(s, acts, i - 1);
      AfterStep(s, acts, i - 1);
      SafeStep(After(s, acts, i - 1), acts[i - 1]);
    }
  }

  /** The action commits a claim of the key, with a success or with an incomplete result. */
  predicate Stores(a: Action, key: Key) {
    a.Run? && a.key == key && (a.outcome.Succeeded? || a.outcome.Incomplete?)
  }

  /** The action commits the deletion of the key's row. */
  predicate Frees(s: State, a: Action, key: Key) {
    a.CommitRelease? && a.key == key && key in SessionOf(s, a.p).removed
  }

  /** Some stored claim of the key has not been freed since. */
  ghost predicate Outstanding(s: State, acts: seq<Action>, i: nat, key: Key)
    requires IsRun(s, acts) && i <= |acts|
  {
    exists k :: 0 <= k < i && Stores(acts[k], key)
                && forall l :: k < l < i ==> !Frees(After(s, acts, l), acts[l], key)
  }

  /** A store needs a free key and takes it, a free frees it, and no other step touches the key. */
  lemma {:induction false} CommittedStep(s: State, a: Action, key: Key)
    requires Safe(s) && Step(s, a).Some?
    ensures Stores(a, key) ==> key !in s.committed
    ensures key in Step(s, a).value.committed <==> Stores(a, key) || (key in s.committed && !Frees(s, a, key))
  {
    assert SessionSafe(s, a.p);
  }

  /** The rows are exactly the stored claims that nobody has freed, over every interleaving of schedulers. */
  lemma {:induction false} ClaimedIffOutstanding(s: State, acts: seq<Action>, i: nat, key: Key)
    requires Init(s) && IsRun(s, acts) && i <= |acts|
    ensures key in After(s, acts, i).committed <==> Outstanding(s, acts, i, key)
  {
    if i > 0 {
      ClaimedIffOutstanding(s, acts, i - 1, key);
      SafeAfter(s, acts, i - 1);
      AfterStep(s, acts, i - 1);
      CommittedStep(After(s, acts, i - 1), acts[i - 1], key);
    }
  }

  /** Two successful refreshes of one slot are always separated by a committed release that deletes its
      row. */
  lemma {:induction false} RepeatsOnlyAfterRelease(
    s: State, acts: seq<Action>, i: nat, j: nat, p: Process, q: Process, key: Key) returns (k: nat)
    requires Init(s) && IsRun(s, acts) && i < j < |acts|
    requires acts[i] == Run(p, key, Succeeded) && acts[j] == Run(q, key, Succeeded)
    ensures i < k < j && acts[k].CommitRelease? && Frees(After(s, acts, k), acts[k], key)
  {
    ClaimedIffOutstanding(s, acts, j, key);
    SafeAfter(s, acts, j);
    AfterStep(s, acts, j);
    CommittedStep(After(s, acts, j), acts[j], key);
    assert Stores(acts[i], key) && !Outstanding(s, acts, j, key);
    k :| i < k < j && Frees(After(s, acts, k), acts[k], key);
  }

  /** And the converse: once no claim of the slot is outstanding, an idle process that finds it unheld can
      refresh it successfully (again); while one is outstanding, nobody can even claim it. */
  lemma {:induction false} RefreshableIffNotOutstanding(s: State, acts: seq<Action>, q: Process, key: Key)
    requires Init(s) && IsRun(s, acts)
    requires var t := After(s, acts, |acts|); SessionOf(t, q).pc == Idle && !HeldElsewhere(t, q, key)
    ensures IsRun(After(s, acts, |acts|), [Claim(q, key), Run(q, key, Succeeded)])
       <==> !Outstanding(s, acts, |acts|, key)
  {
    var t := After(s, acts, |acts|);
    ClaimedIffOutstanding(s, acts, |acts|, key);
    SafeAfter(s, acts, |acts|);
    assert SessionSafe(t, q);
    var claim, run := Claim(q, key), Run(q, key, Succeeded);
    if IsRun(t, [claim, run]) {
      assert [claim, run][1..] == [run];
      assert IsRun(Step(t, claim).value, [run]);
    }
    if !Outstanding(s, acts, |acts|, key) {
      ClaimThenRun(t, q, key, Succeeded,
                   State(t.committed + {key}, t.sessions[q := Session(Idle, {}, {})]));
      TwoSteps(t, claim, run, []);
      assert [claim, run] + [] == [claim, run];
    }
  }

  /** A release that deletes a stored claim makes the slot refreshable at once, by any idle process. */
  lemma {:induction false} FreedSlotMayRepeat(s: State, acts: seq<Action>, q: Process, key: Key)
    requires Init(s) && IsRun(s, acts) && acts != [] && SessionOf(After(s, acts, |acts|), q).pc == Idle
    requires var k := |acts| - 1; Outstanding(s, acts, k, key) && Frees(After(s, acts, k), acts[k], key)
    ensures IsRun(After(s, acts, |acts|), [Claim(q, key), Run(q, key, Succeeded)])
  {
    var k := |acts| - 1;
    var before, after := After(s, acts, k), After(s, acts, |acts|);
    ClaimedIffOutstanding(s, acts, k, key);
    SafeAfter(s, acts, k);
    AfterStep(s, acts, k);
    forall r | r in after.sessions
      ensures key !in after.sessions[r].added
    {
      assert SessionSafe(before, r);
      assert r != acts[k].p ==> SessionOf(after, r) == SessionOf(before, r);
    }
    CommittedStep(before, acts[k], key);
    ClaimedIffOutstanding(s, acts, |acts|, key);
    RefreshableIffNotOutstanding(s, acts, q, key);
  }

  /** With no committed release of the slot after a success, that success is the last. */
  lemma {:induction false} LastWithoutRelease(
    s: State, acts: seq<Action>, i: nat, j: nat, p: Process, q: Process, key: Key)
    requires Init(s) && IsRun(s, acts) && i < j < |acts| && acts[i] == Run(p, key, Succeeded)
    requires forall k :: i < k < j ==> !(acts[k].CommitRelease? && acts[k].key == key)
    ensures acts[j] != Run(q, key, Succeeded)
  {
    if acts[j] == Run(q, key, Succeeded) {
      var k := RepeatsOnlyAfterRelease(s, acts, i, j, p, q, key);
      assert false;
    }
  }

  /** A process that waits to commit its release has taken that release last. */
  lemma {:induction false} ReleasedBefore(s: State, acts: seq<Action>, i: nat, p: Process, key: Key) returns (k: nat)
    requires Init(s) && IsRun(s, acts) && i <= |acts|
    requires SessionOf(After(s, acts, i), p).pc.Released? && SessionOf(After(s, acts, i), p).pc.key == key
    ensures k < i && acts[k] == Release(p, key)
    ensures SessionOf(After(s, acts, i), p) == SessionOf(After(s, acts, k + 1), p)
  {
    AfterStep(s, acts, i - 1);
    if acts[i - 1].p == p && !acts[i - 1].Claim? {
      k := i - 1;
    } else {
      assert SessionOf(After(s, acts, i), p) == SessionOf(After(s, acts, i - 1), p);
      k := ReleasedBefore(s, acts, i - 1, p, key);
    }
  }

  /** When the tick of a failed attempt commits its release, the slot is free, unless the release had found no
      row and another scheduler has stored a claim since: then the row is that scheduler's and stays. */
  lemma {:induction false} FailedSlotIsFreeUnlessTaken(s: State, acts: seq<Action>, i: nat, p: Process, key: Key)
    returns (k: nat)
    requires Init(s) && IsRun(s, acts) && i < |acts| && acts[i] == CommitRelease(p, key)
    ensures k < i && acts[k] == Release(p, key)
    ensures key in After(s, acts, i + 1).committed <==>
              !Outstanding(s, acts, k, key) && Outstanding(s, acts, i, key)
  {
    AfterStep(s, acts, i);
    k := ReleasedBefore(s, acts, i, p, key);
    AfterStep(s, acts, k);
    SafeAfter(s, acts, k);
    assert SessionSafe(After(s, acts, k), p);
    ClaimedIffOutstanding(s, acts, k, key);
    ClaimedIffOutstanding(s, acts, i, key);
    SafeAfter(s, acts, i);
    CommittedStep(After(s, acts, i), acts[i], key);
  }

  /** An attempt that ends in an uncaught error leaves the slot free at once. */
  lemma {:induction false} UncaughtSlotIsFree(s: State, acts: seq<Action>, i: nat, p: Process, key: Key)
    requires Init(s) && IsRun(s, acts) && i < |acts| && acts[i] == Run(p, key, Uncaught)
    ensures key !in After(s, acts, i + 1).committed
  {
    SafeAfter(s, acts, i);
    AfterStep(s, acts, i);
    assert SessionSafe(After(s, acts, i), p);
  }

  /** An interrupted tick leaves its slot claimed exactly when a stored claim is outstanding: never its own
      uncommitted one. */
  lemma {:induction false} InterruptedSlot(s: State, acts: seq<Action>, i: nat, p: Process, key: Key)
    requires Init(s) && IsRun(s, acts) && i < |acts| && acts[i] == Abort(p)
    ensures key in After(s, acts, i + 1).committed <==> Outstanding(s, acts, i, key)
    ensures SessionOf(After(s, acts, i), p).pc == Claimed(key) ==> !Outstanding(s, acts, i, key)
    ensures SessionOf(After(s, acts, i + 1), p) == Session(Idle, {}, {})
  {
    SafeAfter(s, acts, i);
    AfterStep(s, acts, i);
    assert SessionSafe(After(s, acts, i), p);
    ClaimedIffOutstanding(s, acts, i, key);
  }

  // ---------------------------------------------------------------- one scheduler at a time

  /** A tick starts its slot part only while no other process is inside one. */
  ghost predicate Exclusive(s: State, a: Action) {
    a.Claim? ==> forall q :: q != a.p ==> SessionOf(s, q).pc == Idle
  }

  ghost predicate ExclusiveRun(s: State, acts: seq<Action>)
    requires IsRun(s, acts)
  {
    forall i :: 0 <= i < |acts| ==> Exclusive(After(s, acts, i), acts[i])
  }

  /** What a process inside its slot part may have changed. `done` are the slots refreshed successfully. */
  ghost predicate AloneSafe(s: State, done: set<Key>, p: Process) {
    var session := SessionOf(s, p);
    match session.pc
    case Idle => session.added == {} && session.removed == {}
    case Claimed(key) => session.added == {key} && session.removed == {} && key !in s.committed && key !in done
    case Failed(key, stored) =>
      session.added <= {key} && session.removed == {} && key !in done
      && (key in s.committed <==> stored) && (stored ==> session.added == {})
    case Released(key, stored) =>
      session.added == {} && session.removed <= {key} && key !in done
      && (key in s.committed <==> stored) && (stored ==> key in session.removed)
  }

  ghost predicate Alone(s: State, done: set<Key>) {
    && done <= s.committed
    && (forall p :: AloneSafe(s, done, p))
    && (forall p, q :: p != q ==> SessionOf(s, p).pc == Idle || SessionOf(s, q).pc == Idle)
  }

  function DoneBy(a: Action): set<Key> {
    if a.Run? && a.outcome.Succeeded? then {a.key} else {}
  }

  lemma {:induction false} AloneStep(s: State, done: set<Key>, a: Action)
    requires Alone(s, done) && Exclusive(s, a) && Step(s, a).Some?
    ensures Alone(Step(s, a).value, done + DoneBy(a))
    ensures DoneBy(a) !! done
  {
    var t := Step(s, a).value;
    assert AloneSafe(s, done, a.p);
    forall p
      ensures AloneSafe(t, done + DoneBy(a), p)
    {
      assert AloneSafe(s, done, p);
      if p != a.p {
        assert SessionOf(t, p) == SessionOf(s, p);
        assert SessionOf(s, p).pc == Idle || SessionOf(s, a.p).pc == Idle;
      }
    }
    forall p, q | p != q
      ensures SessionOf(t, p).pc == Idle || SessionOf(t, q).pc == Idle
    {
      assert p != a.p ==> SessionOf(t, p) == SessionOf(s, p);
      assert q != a.p ==> SessionOf(t, q) == SessionOf(s, q);
    }
  }

  ghost function DoneIn(acts: seq<Action>): set<Key> {
    if acts == [] then {} else DoneIn(acts[..|acts| - 1]) + DoneBy(acts[|acts| - 1])
  }

  lemma {:induction false} AloneAfter(s: State, acts: seq<Action>, i: nat)
    requires Init(s) && IsRun(s, acts) && ExclusiveRun(s, acts) && i <= |acts|
    ensures Alone(After(s, acts, i), DoneIn(acts[..i]))
    decreases i
  {
    if i > 0 {
      AloneAfter(s, acts, i - 1);
      AfterStep(s, acts, i - 1);
      AloneStep(After(s, acts, i - 1), DoneIn(acts[..i - 1]), acts[i - 1]);
      assert acts[..i][..i - 1] == acts[..i - 1];
    }
  }

  lemma {:induction false} DoneContains(acts: seq<Action>, i: nat)
    requires i < |acts|
    ensures DoneBy(acts[i]) <= DoneIn(acts)
    decreases |acts|
  {
    if i < |acts| - 1 {
      DoneContains(acts[..|acts| - 1], i);
    }
  }

  /** With one scheduler at a time no release frees a slot that has succeeded. */
  lemma {:induction false} NothingFreedAlone(
    s: State, acts: seq<Action>, i: nat, k: nat, p: Process, key: Key)
    requires Init(s) && IsRun(s, acts) && ExclusiveRun(s, acts) && i < k < |acts|
    requires acts[i] == Run(p, key, Succeeded)
    ensures !Frees(After(s, acts, k), acts[k], key)
  {
    AfterStep(s, acts, k);
    AloneAfter(s, acts, k);
    DoneContains(acts[..k], i);
    assert AloneSafe(After(s, acts, k), DoneIn(acts[..k]), acts[k].p);
  }

  /** So, with one scheduler at a time, over every run of ticks, failures, stops, uncaught errors, crashes and
      restarts each slot key has at most one slot-driven refresh that succeeded and committed. */
  lemma {:induction false} SucceedsAtMostOnce(
    s: State, acts: seq<Action>, i: nat, j: nat, p: Process, q: Process, key: Key)
    requires Init(s) && IsRun(s, acts) && ExclusiveRun(s, acts) && i < j < |acts|
    requires acts[i] == Run(p, key, Succeeded)
    ensures acts[j] != Run(q, key, Succeeded)
  {
    if acts[j] == Run(q, key, Succeeded) {
      var k := RepeatsOnlyAfterRelease(s, acts, i, j, p, q, key);
      NothingFreedAlone(s, acts, i, k, p, key);
    }
  }

  /** With one scheduler at a time, a slot whose attempt failed is unclaimed again when its tick has finished
      the slot part. */
  lemma {:induction false} FailedSlotIsFree(s: State, acts: seq<Action>, i: nat, p: Process, key: Key)
    requires Init(s) && IsRun(s, acts) && ExclusiveRun(s, acts) && i < |acts|
    requires acts[i] == CommitRelease(p, key)
    ensures key !in After(s, acts, i + 1).committed
  {
    AloneAfter(s, acts, i);
    AfterStep(s, acts, i);
    assert AloneSafe(After(s, acts, i), DoneIn(acts[..i]), p);
  }

  /** With one scheduler at a time, an interrupted tick leaves a failed slot claimed exactly when the
      interruption falls between the commit of an incomplete result and the commit of the release. */
  lemma {:induction false} InterruptedAlone(s: State, acts: seq<Action>, i: nat, p: Process, key: Key)
    requires Init(s) && IsRun(s, acts) && ExclusiveRun(s, acts) && i < |acts|
    requires acts[i] == Abort(p)
    requires var pc := SessionOf(After(s, acts, i), p).pc; pc != Idle && pc.key == key
    ensures var pc := SessionOf(After(s, acts, i), p).pc;
            key in After(s, acts, i + 1).committed <==> !pc.Claimed? && pc.stored
    ensures key !in DoneIn(acts[..i])
  {
    AloneAfter(s, acts, i);
    AfterStep(s, acts, i);
    assert AloneSafe(After(s, acts, i), DoneIn(acts[..i]), p);
  }

  // ---------------------------------------------------------------- the slot part as steps

  lemma {:induction false} RunCons(s: State, a: Action, acts: seq<Action>)
    requires Step(s, a).Some? && IsRun(Step(s, a).value, acts)
    ensures IsRun(s, [a] + acts)
  {
    assert ([a] + acts)[1..] == acts;
  }

  /** The steps that a tick takes when nothing interrupts its slot part. */
  ghost function SectionSteps(p: Process, key: Key, ran: bool, outcome: Outcome): seq<Action> {
    if !ran then [Claim(p, key)]
    else if outcome.Succeeded? || outcome.Uncaught? then [Claim(p, key), Run(p, key, outcome)]
    else [Claim(p, key), Run(p, key, outcome)] + [Release(p, key), CommitRelease(p, key)]
  }

  /** From a clean session these steps are a run and give the claims that `SlotSection` promises, with the other
      sessions untouched: the method and the step system describe one slot part. */
  lemma {:induction false} SectionIsRun(s: State, p: Process, key: Key, outcome: Outcome)
    requires SessionOf(s, p) == Session(Idle, {}, {})
    ensures var ran := key !in s.committed && !HeldElsewhere(s, p, key);
            var acts := SectionSteps(p, key, ran, outcome);
            && IsRun(s, acts)
            && After(s, acts, |acts|).committed == Promised(s.committed, key, ran, outcome)
            && SessionOf(After(s, acts, |acts|), p) == Session(Idle, {}, {})
            && forall q :: q != p ==> SessionOf(After(s, acts, |acts|), q) == SessionOf(s, q)
  {
    var ran := key !in s.committed && !HeldElsewhere(s, p, key);
    if !ran {
      RunCons(s, Claim(p, key), []);
      AfterStep(s, [Claim(p, key)], 0);
    } else {
      var t := Twice(s, Claim(p, key), Run(p, key, outcome)).value;
      if outcome.Succeeded? || outcome.Uncaught? {
        TwoSteps(s, Claim(p, key), Run(p, key, outcome), []);
        assert [Claim(p, key), Run(p, key, outcome)] + [] == [Claim(p, key), Run(p, key, outcome)];
      } else {
        TwoSteps(t, Release(p, key), CommitRelease(p, key), []);
        assert [Release(p, key), CommitRelease(p, key)] + [] == [Release(p, key), CommitRelease(p, key)];
        TwoSteps(s, Claim(p, key), Run(p, key, outcome), [Release(p, key), CommitRelease(p, key)]);
      }
    }
  }

  /** A crash in that window loses the slot: it stays claimed although no refresh of it ever succeeded. */
  lemma {:induction false} CrashAfterIncompleteResult(s: State, p: Process, key: Key)
    requires Init(s)
    ensures var acts := [Claim(p, key), Run(p, key, Incomplete), Abort(p)];
            IsRun(s, acts) && key in After(s, acts, 3).committed && key !in DoneIn(acts)
  {
    var s1 := Step(s, Claim(p, key)).value;
    var s2 := Step(s1, Run(p, key, Incomplete)).value;
    RunCons(s2, Abort(p), []);
    RunCons(s1, Run(p, key, Incomplete), [Abort(p)]);
    var acts := [Claim(p, key), Run(p, key, Incomplete), Abort(p)];
    RunCons(s, Claim(p, key), acts[1..]);
    assert acts == [Claim(p, key)] + acts[1..];
    AfterStep(s, acts, 0);
    AfterStep(s, acts, 1);
    AfterStep(s, acts, 2);
    assert acts[..2][..1] == acts[..1] && acts[..1][..0] == [];
    assert DoneIn(acts[..1]) == {} && DoneIn(acts[..2]) == {};
  }

  /** With two overlapping schedulers the promise fails: after its own claim was rolled back, the first one
      releases the row that the second one has committed, and the slot runs again. */
  lemma {:induction false} OverlappingSchedulersMayRepeat(s: State, key: Key)
    requires Init(s)
    ensures IsRun(s, [Claim(0, key), Run(0, key, Raised)]
                     + ([Claim(1, key), Run(1, key, Succeeded)]
                     + ([Release(0, key), CommitRelease(0, key)]
                     + ([Claim(1, key), Run(1, key, Succeeded)] + []))))
  {
    var failed, idle := Session(Failed(key, false), {}, {}), Session(Idle, {}, {});
    var s2, s4 := State({}, map[0 := failed]), State({key}, map[0 := failed, 1 := idle]);
    var s6 := State({}, map[0 := idle, 1 := idle]);
    ClaimThenRun(s, 0, key, Raised, s2);
    ClaimThenRun(s2, 1, key, Succeeded, s4);
    ReleaseThenCommit(s4, 0, key, s6);
    ClaimThenRun(s6, 1, key, Succeeded, State({key}, map[0 := idle, 1 := idle]));
    TwoSteps(s6, Claim(1, key), Run(1, key, Succeeded), []);
    var last := [Claim(1, key), Run(1, key, Succeeded)] + [];
    TwoSteps(s4, Release(0, key), CommitRelease(0, key), last);
    var middle := [Release(0, key), CommitRelease(0, key)] + last;
    TwoSteps(s2, Claim(1, key), Run(1, key, Succeeded), middle);
    TwoSteps(s, Claim(0, key), Run(0, key, Raised), [Claim(1, key), Run(1, key, Succeeded)] + middle);
  }

  /** The state after two steps, if both can be taken. */
  ghost function Twice(s: State, a: Action, b: Action): Option<State> {
    match Step(s, a)
    case None => None
    case Some(t) => Step(t, b)
  }

  lemma {:induction false} ClaimThenRun(s: State, p: Process, key: Key, outcome: Outcome, t: State)
    requires outcome == Raised || outcome == Succeeded
    requires SessionOf(s, p) == Session(Idle, {}, {}) && key !in s.committed && !HeldElsewhere(s, p, key)
    requires t.committed == s.committed + if outcome == Succeeded then {key} else {}
    requires t.sessions == s.sessions[p := Session(if outcome == Succeeded then Idle else Failed(key, false), {}, {})]
    ensures Twice(s, Claim(p, key), Run(p, key, outcome)) == Some(t)
  {
    var claimed := Step(s, Claim(p, key)).value;
    assert SessionOf(claimed, p) == Session(Claimed(key), {key}, {});
    var done := Step(claimed, Run(p, key, outcome)).value;
    assert done.committed == t.committed && done.sessions == t.sessions;
  }

  lemma {:induction false} ReleaseThenCommit(s: State, p: Process, key: Key, t: State)
    requires SessionOf(s, p) == Session(Failed(key, false), {}, {}) && key in s.committed
    requires t == State(s.committed - {key}, s.sessions[p := Session(Idle, {}, {})])
    ensures Twice(s, Release(p, key), CommitRelease(p, key)) == Some(t)
  {
    var released := Step(s, Release(p, key)).value;
    assert SessionOf(released, p) == Session(Released(key, false), {}, {key});
    var done := Step(released, CommitRelease(p, key)).value;
    assert done.committed == t.committed && done.sessions == t.sessions;
  }

  lemma {:induction false} TwoSteps(s: State, a: Action, b: Action, acts: seq<Action>)
    requires Twice(s, a, b).Some? && IsRun(Twice(s, a, b).value, acts)
    ensures IsRun(s, [a, b] + acts)
    ensures After(s, [a, b] + acts, |acts| + 2) == After(Twice(s, a, b).value, acts, |acts|)
  {
    RunCons(Step(s, a).value, b, acts);
    RunCons(s, a, [b] + acts);
    assert [a, b] + acts == [a] + ([b] + acts);
    assert ([a, b] + acts)[1..] == [b] + acts && ([b] + acts)[1..] == acts;
  }
}
