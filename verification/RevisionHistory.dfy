/** `build_history`: the snapshots of every prefix turned into transition records, counters and collision
    counts, in one pass over the cutoffs. */
module RevisionHistory {
  import opened Common
  import opened Collisions
  import opened Revisions
  import opened PrefixLedger
  import opened ObservedSnapshots

  function Find(v: seq<Entry>, key: Id): Option<Entry> {
    if v == [] then None
    else if v[|v| - 1].key == key then Some(v[|v| - 1])
    else Find(v[..|v| - 1], key)
  }

  lemma {:induction false} FindIsHash(v: seq<Entry>, key: Id)
    ensures Find(v, key).Some? <==> key in Hashes(v)
    ensures Find(v, key).Some? ==> Find(v, key).value.hash == Hashes(v)[key]
  {
    if v != [] {
      FindIsHash(v[..|v| - 1], key);
    }
  }

  // ---------------------------------------------------------------- the code

  datatype Totals = Totals(added: nat, altered: nat, same: nat, absent: nat)

  function Bump(t: Totals, s: Status): Totals {
    match s
    case New => t.(added := t.added + 1)
    case Changed => t.(altered := t.altered + 1)
    case Unchanged => t.(same := t.same + 1)
    case Absent => t.(absent := t.absent + 1)
  }

  ghost predicate Totalled(t: Totals, rs: seq<Record>) {
    && t.added == Count(rs, New) && t.altered == Count(rs, Changed)
    && t.same == Count(rs, Unchanged) && t.absent == Count(rs, Absent)
  }

  lemma {:induction false} Snoc(rs: seq<Record>, r: Record, t: Totals)
    requires Totalled(t, rs)
    ensures Totalled(Bump(t, r.status), rs + [r])
  {
    assert (rs + [r])[..|rs|] == rs;
  }

  datatype Summary = Summary(records: seq<Record>, totals: Totals, reappearances: nat)

  /** The records of the observations, their number by status, and the number of reappearances. */
  ghost predicate Summarises(obs: seq<Observed>, h: Summary) {
    h.records == History(obs) && Totalled(h.totals, h.records) && h.reappearances == Reappearances(obs)
  }

  /** A line of the observation ledger. */
  datatype Line = Line(cutoff: nat, observation: Id, structures: nat)

  ghost function Lines(obs: seq<Observed>): seq<Line> {
    if obs == [] then []
    else
      var o := obs[|obs| - 1];
      Lines(obs[..|obs| - 1]) + [Line(o.cutoff, o.observation, |o.view|)]
  }

  /** One line per cutoff, with its observation and the number of its structures. */
  lemma {:induction false} LinesMean(obs: seq<Observed>, i: nat)
    requires i < |obs|
    ensures |Lines(obs)| == |obs|
    ensures Lines(obs)[i].cutoff == obs[i].cutoff && Lines(obs)[i].observation == obs[i].observation
    ensures Lines(obs)[i].structures == |obs[i].view|
    decreases |obs|
  {
    if |obs| > 1 {
      LinesMean(obs[..|obs| - 1], if i < |obs| - 1 then i else 0);
    }
  }

  /** The three collision maps. */
  datatype Maps = Maps(
    observations: map<Id, set<ObservationPreimage>>,
    structures: map<Id, set<Identity>>,
    revisions: map<Id, set<RevisionPreimage>>)

  ghost function MapsOf(e: Engine, rows: seq<Row>, n: nat): Maps {
    Maps(Collect(ObservationsAdded(e, rows, n)), Collect(StructuresAdded(e, rows, n)),
         Collect(RevisionsAdded(e, rows, n)))
  }

  datatype Report = Report(
    summary: Summary, lines: seq<Line>, observationCollisions: nat, structureCollisions: nat,
    revisionCollisions: nat)

  /** One pass over the annotated ledger computes the records of the whole history with its counters, the
      observation ledger and the three collision counts. */
  method BuildHistory(e: Engine, rows: seq<Row>) returns (r: Report)
    ensures Summarises(AllObservations(e, rows), r.summary)
    ensures r.lines == Lines(AllObservations(e, rows))
    ensures r.observationCollisions == |Colliding(Collect(ObservationsAdded(e, rows, Cutoffs(rows))))|
    ensures r.structureCollisions == |StructureCollisions(e, rows)|
    ensures r.revisionCollisions == |Colliding(Collect(RevisionsAdded(e, rows, Cutoffs(rows))))|
  {
    var ledger := AnnotatePrefixLedger(e, rows);
    var p := Pass(e, rows, ledger);
    var observations := CollisionCount(p.maps.observations);
    var structures := CollisionCount(p.maps.structures);
    var revisions := CollisionCount(p.maps.revisions);
    r := Report(p.summary, p.lines, observations, structures, revisions);
  }

  /** The variables of the pass. */
  datatype Progress = Progress(
    previous: seq<Entry>, seen: set<Id>, summary: Summary, lines: seq<Line>, maps: Maps)

  const START := Progress([], {}, Summary([], Totals(0, 0, 0, 0), 0), [], Maps(map[], map[], map[]))

  /** They are as they should be after `n` cutoffs. */
  ghost predicate Passed(e: Engine, rows: seq<Row>, n: nat, p: Progress) {
    && Through(Observations(e, rows, n), p.previous, p.seen, p.summary)
    && p.lines == Lines(Observations(e, rows, n)) && p.maps == MapsOf(e, rows, n)
  }

  /** The loop over the cutoffs. */
  method Pass(e: Engine, rows: seq<Row>, ledger: map<nat, Annotated>) returns (p: Progress)
    requires IsLedger(e, rows, ledger)
    ensures Passed(e, rows, Cutoffs(rows), p)
  {
    p := START;
    var n := 0;
    while n < Cutoffs(rows)
      invariant n <= Cutoffs(rows)
      invariant Passed(e, rows, n, p)
    {
      p := OneCutoff(e, rows, ledger, n, p);
      n := n + 1;
    }
  }

  method OneCutoff(e: Engine, rows: seq<Row>, ledger: map<nat, Annotated>, n: nat, before: Progress)
    returns (p: Progress)
    requires IsLedger(e, rows, ledger) && n < Cutoffs(rows) && Passed(e, rows, n, before)
    ensures Passed(e, rows, n + 1, p)
  {
    var cutoff := MIN_PREFIX + n;
    LedgerShowsSnapshots(e, rows, ledger, cutoff);
    var current := Current(e, ItemsIn(ledger[cutoff]));
    var maps := Note(e, rows, cutoff, current, before.maps, n);
    var o := ObservedOf(e, ObservationAt(e, rows, cutoff), current);
    ObservedUnique(e, rows, cutoff);
    var h := RecordCutoff(o, before.previous, before.seen, before.summary, Observations(e, rows, n));
    ObservationsStep(e, rows, n);
    p := Progress(o.view, before.seen + KeySet(o.view), h,
                  before.lines + [Line(o.cutoff, o.observation, |o.view|)], maps);
  }

  /** What one cutoff adds to the collision maps. */
  method Note(e: Engine, rows: seq<Row>, cutoff: nat, current: seq<Slot>, before: Maps, ghost n: nat)
    returns (maps: Maps)
    requires cutoff == MIN_PREFIX + n <= |rows| && current == KeptAt(e, rows, cutoff)
    requires before == MapsOf(e, rows, n)
    ensures maps == MapsOf(e, rows, n + 1)
  {
    var o := ObservationAt(e, rows, cutoff);
    var id := e.observation(o);
    CollectMore(ObservationsAdded(e, rows, n), id, o);
    var structures := NoteStructures(current, before.structures, StructuresAdded(e, rows, n));
    var revisions := NoteRevisions(e, id, current, before.revisions, RevisionsAdded(e, rows, n));
    maps := Maps(Add(before.observations, id, o), structures, revisions);
  }

  method NoteStructures(
    current: seq<Slot>, before: map<Id, set<Identity>>, ghost added: seq<(Id, Identity)>)
    returns (mapping: map<Id, set<Identity>>)
    requires before == Collect(added)
    ensures mapping == Collect(added + KeyPairs(current))
  {
    mapping := before;
    var i := 0;
    ghost var pairs := KeyPairs(current);
    assert added + pairs[..0] == added;
    while i < |current|
      invariant 0 <= i <= |current|
      invariant mapping == Collect(added + pairs[..i])
    {
      CollectMore(added + pairs[..i], current[i].key, current[i].item.identity);
      assert added + pairs[..i + 1] == added + pairs[..i] + [pairs[i]];
      mapping := Add(mapping, current[i].key, current[i].item.identity);
      i := i + 1;
    }
    assert pairs[..i] == pairs;
  }

  method NoteRevisions(
    e: Engine, observation: Id, current: seq<Slot>, before: map<Id, set<RevisionPreimage>>,
    ghost added: seq<(Id, RevisionPreimage)>)
    returns (mapping: map<Id, set<RevisionPreimage>>)
    requires before == Collect(added)
    ensures mapping == Collect(added + RevisionPairs(e, observation, current))
  {
    mapping := before;
    var i := 0;
    ghost var pairs := RevisionPairs(e, observation, current);
    assert added + pairs[..0] == added;
    while i < |current|
      invariant 0 <= i <= |current|
      invariant mapping == Collect(added + pairs[..i])
    {
      var revision := RevisionOf(observation, current[i]);
      CollectMore(added + pairs[..i], e.revision(revision), revision);
      assert added + pairs[..i + 1] == added + pairs[..i] + [pairs[i]];
      mapping := Add(mapping, e.revision(revision), revision);
      i := i + 1;
    }
    assert pairs[..i] == pairs;
  }

  lemma {:induction false} ObservationsStep(e: Engine, rows: seq<Row>, n: nat)
    requires n < Cutoffs(rows)
    ensures Observations(e, rows, n + 1) == Observations(e, rows, n) + [ObservedAt(e, rows, MIN_PREFIX + n)]
    ensures var o := ObservedAt(e, rows, MIN_PREFIX + n);
            Lines(Observations(e, rows, n + 1)) ==
              Lines(Observations(e, rows, n)) + [Line(o.cutoff, o.observation, |o.view|)]
  {
    var longer := Observations(e, rows, n + 1);
    assert longer == Observations(e, rows, n) + [ObservedAt(e, rows, MIN_PREFIX + n)];
    assert longer[..|longer| - 1] == Observations(e, rows, n);
  }

  /** The state of the pass when the observations `obs` are recorded. */
  ghost predicate Through(obs: seq<Observed>, previous: seq<Entry>, seen: set<Id>, h: Summary) {
    previous == Last(obs) && seen == Seen(obs) && Summarises(obs, h)
  }

  /** The two loops of one cutoff. */
  method RecordCutoff(
    o: Observed, previous: seq<Entry>, seen: set<Id>, before: Summary, ghost obs: seq<Observed>)
    returns (h: Summary)
    requires Unique(o.view) && Through(obs, previous, seen, before)
    ensures Through(obs + [o], o.view, seen + Keys(o.view), h)
  {
    h := RecordPresent(o, previous, seen, before);
    h := RecordGone(o, previous, h);
    OneMoreCutoff(obs, o);
    Assoc(History(obs), Present(o, previous, o.view), Gone(o, previous, o.view));
  }

  lemma {:induction false} OneMoreCutoff(obs: seq<Observed>, o: Observed)
    ensures Last(obs + [o]) == o.view
    ensures Seen(obs + [o]) == Seen(obs) + Keys(o.view)
    ensures History(obs + [o]) == History(obs) + (Present(o, Last(obs), o.view) + Gone(o, Last(obs), o.view))
    ensures Reappearances(obs + [o]) ==
              Reappearances(obs) + |Keys(o.view) * Seen(obs) - Keys(Last(obs))|
  {
    var longer := obs + [o];
    assert longer[..|longer| - 1] == obs;
  }

  function KeySet(v: seq<Entry>): (ks: set<Id>)
    ensures ks == Keys(v)
  {
    if v == [] then {} else KeySet(v[..|v| - 1]) + {v[|v| - 1].key}
  }

  /** The first `i` structures of the current snapshot have been recorded. */
  ghost predicate Recorded(
    o: Observed, previous: seq<Entry>, seen: set<Id>, before: Summary, i: nat, h: Summary)
    requires i <= |o.view|
  {
    && h.records == before.records + Present(o, previous, o.view[..i])
    && Totalled(h.totals, h.records)
    && h.reappearances == before.reappearances + |Keys(o.view[..i]) * seen - Keys(previous)|
  }

  /** The status and the reappearance flag of one structure. */
  function Judge(previous: seq<Entry>, seen: set<Id>, entry: Entry): (Status, nat)
    requires Keys(previous) <= seen
  {
    var found := Find(previous, entry.key);
    if entry.key !in seen then (New, 0)
    else if found.None? then (New, 1)
    else if found.value.hash == entry.hash then (Unchanged, 0)
    else (Changed, 0)
  }

  function Extend(h: Summary, r: Record, again: nat): Summary {
    Summary(h.records + [r], Bump(h.totals, r.status), h.reappearances + again)
  }

  /** The loop over the structures of the current snapshot. */
  method RecordPresent(o: Observed, previous: seq<Entry>, seen: set<Id>, before: Summary) returns (h: Summary)
    requires Unique(o.view) && Keys(previous) <= seen && Totalled(before.totals, before.records)
    ensures h.records == before.records + Present(o, previous, o.view) && Totalled(h.totals, h.records)
    ensures h.reappearances == before.reappearances + |Keys(o.view) * seen - Keys(previous)|
  {
    h := before;
    var i := 0;
    while i < |o.view|
      invariant 0 <= i <= |o.view|
      invariant Recorded(o, previous, seen, before, i, h)
    {
      var entry := o.view[i];
      var (status, again) := Judge(previous, seen, entry);
      var r := Record(o.cutoff, o.observation, entry.key, status, Some(entry.hash), Some(entry.revision), None);
      OneRecorded(o, previous, seen, before, i, h);
      h := Extend(h, r, again);
      i := i + 1;
    }
    assert o.view[..i] == o.view;
  }

  lemma {:induction false} OneRecorded(
    o: Observed, previous: seq<Entry>, seen: set<Id>, before: Summary, i: nat, h: Summary)
    requires i < |o.view| && Unique(o.view) && Keys(previous) <= seen && Recorded(o, previous, seen, before, i, h)
    ensures var entry := o.view[i];
            var (status, again) := Judge(previous, seen, entry);
            var r := Record(o.cutoff, o.observation, entry.key, status, Some(entry.hash), Some(entry.revision), None);
            Recorded(o, previous, seen, before, i + 1, Extend(h, r, again))
  {
    var entry := o.view[i];
    var (status, again) := Judge(previous, seen, entry);
    var r := Record(o.cutoff, o.observation, entry.key, status, Some(entry.hash), Some(entry.revision), None);
    var p, q := Present(o, previous, o.view[..i]), Present(o, previous, o.view[..i + 1]);
    assert q == p + [r] by {
      FindIsHash(previous, entry.key);
      PresentSnoc(o, previous, i);
    }
    var m, n := |Keys(o.view[..i]) * seen - Keys(previous)|, |Keys(o.view[..i + 1]) * seen - Keys(previous)|;
    assert n == m + again by {
      FindIsHash(previous, entry.key);
      AgainSnoc(o.view, i, seen, Keys(previous));
    }
    Snoc(h.records, r, h.totals);
    Assoc(before.records, p, [r]);
  }

  lemma {:induction false} PresentSnoc(o: Observed, previous: seq<Entry>, i: nat)
    requires i < |o.view|
    ensures var entry := o.view[i];
            Present(o, previous, o.view[..i + 1]) == Present(o, previous, o.view[..i]) +
              [Record(o.cutoff, o.observation, entry.key, StatusOf(previous, entry),
                      Some(entry.hash), Some(entry.revision), None)]
  {
    assert o.view[..i + 1][..i] == o.view[..i];
  }

  lemma {:induction false} AgainSnoc(v: seq<Entry>, i: nat, seen: set<Id>, before: set<Id>)
    requires i < |v| && Unique(v)
    ensures |Keys(v[..i + 1]) * seen - before| == |Keys(v[..i]) * seen - before|
              + if v[i].key in seen && v[i].key !in before then 1 else 0
  {
    var longer, key := v[..i + 1], v[i].key;
    assert longer[..i] == v[..i];
    NewKey(longer);
    var a := Keys(v[..i]) * seen;
    assert Keys(longer) == Keys(v[..i]) + {key};
    if key in seen {
      assert Keys(longer) * seen == a + {key};
      OneMore(a, before, key);
    } else {
      assert Keys(longer) * seen == a;
    }
  }

  /** The loop over the structures of the previous snapshot. */
  method RecordGone(o: Observed, previous: seq<Entry>, before: Summary) returns (h: Summary)
    requires Totalled(before.totals, before.records)
    ensures h.records == before.records + Gone(o, previous, o.view) && Totalled(h.totals, h.records)
    ensures h.reappearances == before.reappearances
  {
    h := before;
    var i := 0;
    while i < |previous|
      invariant 0 <= i <= |previous|
      invariant h.records == before.records + Gone(o, previous[..i], o.view)
      invariant Totalled(h.totals, h.records) && h.reappearances == before.reappearances
    {
      var entry := previous[i];
      assert previous[..i + 1][..i] == previous[..i];
      FindIsHash(o.view, entry.key);
      if Find(o.view, entry.key).None? {
        var r := Record(o.cutoff, o.observation, entry.key, Absent, None, None, Some(entry.revision));
        Snoc(h.records, r, h.totals);
        h := h.(records := h.records + [r], totals := Bump(h.totals, Absent));
      }
      i := i + 1;
    }
    assert previous[..i] == previous;
  }

  // ---------------------------------------------------------------- what the history is

  /** The totals that the script reports obey the conservation laws. */
  lemma {:induction false} ReportedTotals(e: Engine, rows: seq<Row>, h: Summary)
    requires Summarises(AllObservations(e, rows), h)
    ensures var obs := AllObservations(e, rows);
            && h.totals.added - h.totals.absent == |Last(obs)|
            && h.totals.added == |Seen(obs)| + h.reappearances
            && h.totals.same == Kept(obs) && h.totals.altered == Alterations(obs)
            && Replay(map[], h.records) == Hashes(Last(obs))
  {
    ObservationsUnique(e, rows, Cutoffs(rows));
    Conservation(AllObservations(e, rows));
    KeptAndAltered(AllObservations(e, rows));
    ReplayHistory(AllObservations(e, rows));
  }

  lemma {:induction false} HistoryOfPrefix(short: seq<Observed>, long: seq<Observed>)
    requires short <= long
    ensures History(short) <= History(long)
  {
    assert long == short + long[|short|..];
    HistoryExtends(short, long[|short|..]);
  }

  /** The records built from a shorter history are an exact prefix of those built from any extension of it. */
  lemma {:induction false} RecordsAreCausal(e: Engine, rows: seq<Row>, more: seq<Row>)
    ensures History(AllObservations(e, rows)) <= History(AllObservations(e, rows + more))
  {
    var short, long := AllObservations(e, rows), AllObservations(e, rows + more);
    ObservationsExtend(e, rows, more);
    HistoryOfPrefix(short, long);
  }
}
