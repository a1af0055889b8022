/** `settled_pipeline_tasks`: the tasks that are due after settlement, together with everything that depends
    on one of them, in the order of the dependency map. */
module Settled {
  type Task = string

  /** The dependency map in insertion order. */
  datatype Entry = Entry(task: Task, needs: seq<Task>)

  const DAILY_DEPENDENCIES: seq<Entry> := [
    Entry("refresh_bars", []),
    Entry("refresh_indicators", ["refresh_bars"]),
    Entry("refresh_forecasts", ["refresh_bars", "refresh_indicators"]),
    Entry("refresh_signals", ["refresh_bars", "refresh_indicators", "refresh_forecasts"]),
    Entry("refresh_sector_snapshots", []),
    Entry("refresh_decision_board", ["refresh_bars", "refresh_indicators", "refresh_forecasts",
                                     "refresh_signals", "refresh_sector_snapshots"]),
    Entry("generate_report", ["refresh_decision_board"])
  ]

  ghost predicate Distinct(deps: seq<Entry>) {
    forall i, j :: 0 <= i < j < |deps| ==> deps[i].task != deps[j].task
  }

  predicate Touches(due: set<Task>, e: Entry) {
    exists i :: 0 <= i < |e.needs| && e.needs[i] in due
  }

  ghost function Tasks(deps: seq<Entry>): set<Task> {
    set e | e in deps :: e.task
  }

  /** `due` contains every task that depends on one of its members. */
  ghost predicate Closed(deps: seq<Entry>, due: set<Task>) {
    forall e :: e in deps && Touches(due, e) ==> e.task in due
  }

  ghost predicate IsLeast(deps: seq<Entry>, first: set<Task>, due: set<Task>) {
    && first <= due && Closed(deps, due)
    && forall other: set<Task> :: first <= other && Closed(deps, other) ==> due <= other
  }

  // ---------------------------------------------------------------- the code

  const WINDOW_OPENS := 9 * 60 + 15
  const WINDOW_CLOSES := 15 * 60 + 15

  /** The tasks to run: none from 9:15 to 15:15, the window kept free for quotes and the board (`minute` of the local
      day), otherwise the closure of the tasks in `isDue`, in map order. */
  method SettledPipelineTasks(deps: seq<Entry>, minute: nat, isDue: set<Task>)
    returns (tasks: seq<Task>)
    requires Distinct(deps)
    ensures 555 <= minute < 915 ==> tasks == []
    ensures !(555 <= minute < 915) ==>
              exists due :: IsLeast(deps, isDue * Tasks(deps), due) && tasks == InOrder(deps, due)
  {
    if WINDOW_OPENS <= minute < WINDOW_CLOSES {
      return [];
    }
    var found := Scheduled(deps, isDue);
    ghost var first := found;
    var changed := true;
    while changed
      invariant first <= found <= Tasks(deps)
      invariant forall other: set<Task> :: first <= other && Closed(deps, other) ==> found <= other
      invariant !changed ==> Closed(deps, found)
      decreases Tasks(deps) - found, if changed then 1 else 0
    {
      changed := false;
      ghost var before := found;
      var i := 0;
      while i < |deps|
        invariant 0 <= i <= |deps|
        invariant before <= found <= Tasks(deps)
        invariant forall other: set<Task> :: first <= other && Closed(deps, other) ==> found <= other
        invariant if changed then before < found else before == found
        invariant !changed ==> forall k :: 0 <= k < i && Touches(found, deps[k]) ==> deps[k].task in found
      {
        if deps[i].task !in found && Touches(found, deps[i]) {
          found := found + {deps[i].task};
          changed := true;
        }
        i := i + 1;
      }
    }
    tasks := InOrder(deps, found);
    assert IsLeast(deps, first, found);
  }

  /** The initially due tasks of the map. */
  function Scheduled(deps: seq<Entry>, isDue: set<Task>): (due: set<Task>)
    ensures due == isDue * Tasks(deps)
  {
    if deps == [] then {}
    else
      assert Tasks(deps) == {deps[0].task} + Tasks(deps[1..]) by {
        assert deps == [deps[0]] + deps[1..];
      }
      Scheduled(deps[1..], isDue) + if deps[0].task in isDue then {deps[0].task} else {}
  }

  /** The tasks of `due` in map order. */
  function InOrder(deps: seq<Entry>, due: set<Task>): (tasks: seq<Task>)
    ensures forall t :: t in tasks <==> t in due && t in Tasks(deps)
    ensures |tasks| <= |deps|
  {
    if deps == [] then []
    else
      assert Tasks(deps) == {deps[0].task} + Tasks(deps[1..]) by {
        assert deps == [deps[0]] + deps[1..];
      }
      (if deps[0].task in due then [deps[0].task] else []) + InOrder(deps[1..], due)
  }

  // ---------------------------------------------------------------- what the closure is

  /** The result does not depend on the order of the map. */
  lemma {:induction false} OrderIndependent(
    deps: seq<Entry>, other: seq<Entry>, first: set<Task>, due: set<Task>, due': set<Task>)
    requires forall e :: e in deps <==> e in other
    requires IsLeast(deps, first, due) && IsLeast(other, first, due')
    ensures due == due'
  {
    assert Closed(deps, due') && Closed(other, due);
  }

  /** A chain of dependencies: each task needs the next one. */
  ghost predicate IsChain(deps: seq<Entry>, chain: seq<Task>) {
    && chain != []
    && forall i :: 0 <= i < |chain| - 1 ==> Needs(deps, chain[i], chain[i + 1])
  }

  ghost predicate Needs(deps: seq<Entry>, task: Task, need: Task) {
    exists e :: e in deps && e.task == task && need in e.needs
  }

  ghost predicate Reaches(deps: seq<Entry>, first: set<Task>, task: Task) {
    exists chain :: IsChain(deps, chain) && chain[0] == task && chain[|chain| - 1] in first
  }

  lemma {:induction false} ChainIsDue(deps: seq<Entry>, first: set<Task>, due: set<Task>, chain: seq<Task>)
    requires first <= due && Closed(deps, due)
    requires IsChain(deps, chain) && chain[|chain| - 1] in first
    ensures chain[0] in due
    decreases |chain|
  {
    if |chain| > 1 {
      var tail := chain[1..];
      assert forall i :: 0 <= i < |tail| ==> tail[i] == chain[i + 1];
      ChainIsDue(deps, first, due, tail);
      assert Needs(deps, chain[0], chain[1]);
      var e :| e in deps && e.task == chain[0] && chain[1] in e.needs;
      assert Touches(due, e);
    }
  }

  /** The due tasks are exactly those with a chain of dependencies down to an initially due task. */
  lemma {:induction false} DueIffReaches(deps: seq<Entry>, first: set<Task>, due: set<Task>, task: Task)
    requires IsLeast(deps, first, due)
    ensures task in due <==> Reaches(deps, first, task)
  {
    if Reaches(deps, first, task) {
      var chain :| IsChain(deps, chain) && chain[0] == task && chain[|chain| - 1] in first;
      ChainIsDue(deps, first, due, chain);
    }
    var reach := set t | t in due && Reaches(deps, first, t);
    forall t | t in first
      ensures Reaches(deps, first, t)
    {
      assert IsChain(deps, [t]);
    }
    forall e | e in deps && Touches(reach, e)
      ensures e.task in reach
    {
      var i :| 0 <= i < |e.needs| && e.needs[i] in reach;
      assert Touches(due, e);
      ReachesUp(deps, first, e, e.needs[i]);
    }
    assert first <= reach && Closed(deps, reach);
  }

  lemma {:induction false} ReachesUp(deps: seq<Entry>, first: set<Task>, e: Entry, need: Task)
    requires e in deps && need in e.needs && Reaches(deps, first, need)
    ensures Reaches(deps, first, e.task)
  {
    var chain :| IsChain(deps, chain) && chain[0] == need && chain[|chain| - 1] in first;
    var longer := [e.task] + chain;
    assert Needs(deps, e.task, need);
    assert forall i :: 0 < i < |longer| ==> longer[i] == chain[i - 1];
    assert IsChain(deps, longer);
  }

  // ---------------------------------------------------------------- the order of the list

  /** Every entry follows the entries it needs. */
  ghost predicate Topological(deps: seq<Entry>) {
    forall i, need :: 0 <= i < |deps| && need in deps[i].needs ==> need in Tasks(deps[..i])
  }

  /** `a` occurs before every occurrence of `b`. */
  ghost predicate Before(tasks: seq<Task>, a: Task, b: Task) {
    forall j :: 0 <= j < |tasks| && tasks[j] == b ==> exists i :: 0 <= i < j && tasks[i] == a
  }

  lemma {:induction false} InOrderSnoc(deps: seq<Entry>, e: Entry, due: set<Task>)
    ensures InOrder(deps + [e], due) == InOrder(deps, due) + if e.task in due then [e.task] else []
  {
    if deps == [] {
      assert deps + [e] == [e];
    } else {
      assert (deps + [e])[1..] == deps[1..] + [e];
      InOrderSnoc(deps[1..], e, due);
    }
  }

  lemma {:induction false} TopologicalFront(deps: seq<Entry>)
    requires deps != [] && Topological(deps) && Distinct(deps)
    ensures var front := deps[..|deps| - 1]; Topological(front) && Distinct(front)
    ensures deps[|deps| - 1].task !in Tasks(deps[..|deps| - 1])
  {
    var front := deps[..|deps| - 1];
    assert forall i :: 0 <= i < |front| ==> front[..i] == deps[..i];
  }

  lemma {:induction false} InOrderFront(deps: seq<Entry>, due: set<Task>)
    requires deps != []
    ensures var e := deps[|deps| - 1];
            InOrder(deps, due) == InOrder(deps[..|deps| - 1], due) + if e.task in due then [e.task] else []
  {
    assert deps == deps[..|deps| - 1] + [deps[|deps| - 1]];
    InOrderSnoc(deps[..|deps| - 1], deps[|deps| - 1], due);
  }

  /** With a topological map, every listed task comes after all of its due dependencies. */
  lemma {:induction false} ListedAfterNeeds(deps: seq<Entry>, due: set<Task>, task: Task, need: Task)
    requires Topological(deps) && Needs(deps, task, need) && need in due && Distinct(deps)
    ensures Before(InOrder(deps, due), need, task)
    decreases |deps|
  {
    var front, e := deps[..|deps| - 1], deps[|deps| - 1];
    TopologicalFront(deps);
    InOrderFront(deps, due);
    var tasks, all := InOrder(front, due), InOrder(deps, due);
    if e.task == task && need in e.needs {
      ListedLast(tasks, need, task, all);
    } else {
      ListedAfterNeeds(front, due, task, need);
      ListedEarlier(tasks, need, task, all, e.task);
    }
  }

  lemma {:induction false} ListedLast(tasks: seq<Task>, need: Task, task: Task, all: seq<Task>)
    requires need in tasks && task !in tasks && (all == tasks || all == tasks + [task])
    ensures Before(all, need, task)
  {
    var i :| 0 <= i < |tasks| && tasks[i] == need;
    assert all[i] == need;
  }

  lemma {:induction false} ListedEarlier(tasks: seq<Task>, need: Task, task: Task, all: seq<Task>, last: Task)
    requires Before(tasks, need, task) && last != task && (all == tasks || all == tasks + [last])
    ensures Before(all, need, task)
  {
    forall j | 0 <= j < |all| && all[j] == task
      ensures exists i :: 0 <= i < j && all[i] == need
    {
      assert tasks[j] == task;
      var i :| 0 <= i < j && tasks[i] == need;
      assert all[i] == need;
    }
  }

  /** The repository's own map is topological. */
  lemma {:induction false} DailyMapIsTopological()
    ensures Topological(DAILY_DEPENDENCIES) && Distinct(DAILY_DEPENDENCIES)
  {
    var d := DAILY_DEPENDENCIES;
    forall i, need | 0 <= i < |d| && need in d[i].needs
      ensures need in Tasks(d[..i])
    {
      if i == 1 || i == 2 || i == 3 || i == 5 {
        assert d[..i][0].task == "refresh_bars";
      }
      if i == 2 || i == 3 || i == 5 {
        assert d[..i][1].task == "refresh_indicators";
      }
      if i == 3 || i == 5 {
        assert d[..i][2].task == "refresh_forecasts";
      }
      if i == 5 {
        assert d[..i][3].task == "refresh_signals" && d[..i][4].task == "refresh_sector_snapshots";
      }
      if i == 6 {
        assert d[..i][5].task == "refresh_decision_board";
      }
    }
  }
}
