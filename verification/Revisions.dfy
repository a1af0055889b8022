/** The transition records of the observed-revision ledger, over a series of views. A view lists the structures
    of one snapshot: their key, the hash of their payload and their revision identifier. */
module Revisions {
  import opened Common

  datatype Entry = Entry(key: Id, hash: Id, revision: Id)

  /** What was observed at one cutoff. */
  datatype Observed = Observed(cutoff: nat, observation: Id, view: seq<Entry>)

  datatype Status = New | Changed | Unchanged | Absent

  /** A record of one transition; an absent structure has no payload, only its prior revision. */
  datatype Record = Record(
    cutoff: nat, observation: Id, key: Id, status: Status, hash: Option<Id>, revision: Option<Id>,
    prior: Option<Id>)

  ghost predicate Unique(v: seq<Entry>) {
    forall i, j :: 0 <= i < j < |v| ==> v[i].key != v[j].key
  }

  /** The view as a map from keys to payload hashes. */
  ghost function Hashes(v: seq<Entry>): map<Id, Id> {
    if v == [] then map[] else Hashes(v[..|v| - 1])[v[|v| - 1].key := v[|v| - 1].hash]
  }

  ghost function Keys(v: seq<Entry>): set<Id> {
    Hashes(v).Keys
  }

  lemma {:induction false} KeysAre(v: seq<Entry>)
    ensures forall k :: k in Keys(v) <==> exists i :: 0 <= i < |v| && v[i].key == k
  {
    if v != [] {
      var front, last := v[..|v| - 1], v[|v| - 1];
      KeysAre(front);
      assert forall i :: 0 <= i < |front| ==> front[i] == v[i];
      forall k
        ensures k in Keys(v) <==> exists i :: 0 <= i < |v| && v[i].key == k
      {
        if k == last.key {
          assert v[|v| - 1].key == k;
        } else if k in Keys(front) {
          var i :| 0 <= i < |front| && front[i].key == k;
          assert v[i].key == k;
        } else if i :| 0 <= i < |v| && v[i].key == k {
          assert front[i].key == k;
        }
      }
    }
  }

  lemma {:induction false} NewKey(v: seq<Entry>)
    requires v != [] && Unique(v)
    ensures v[|v| - 1].key !in Keys(v[..|v| - 1]) && Unique(v[..|v| - 1])
  {
    KeysAre(v[..|v| - 1]);
  }

  lemma {:induction false} KeyCount(v: seq<Entry>)
    requires Unique(v)
    ensures |Keys(v)| == |v|
  {
    if v != [] {
      NewKey(v);
      KeyCount(v[..|v| - 1]);
      assert Keys(v) == Keys(v[..|v| - 1]) + {v[|v| - 1].key};
    }
  }

  // ---------------------------------------------------------------- the records of one cutoff

  ghost function StatusOf(prev: seq<Entry>, e: Entry): Status {
    if e.key !in Hashes(prev) then New
    else if Hashes(prev)[e.key] == e.hash then Unchanged
    else Changed
  }

  ghost function Present(o: Observed, prev: seq<Entry>, cur: seq<Entry>): seq<Record> {
    if cur == [] then []
    else
      var e := cur[|cur| - 1];
      Present(o, prev, cur[..|cur| - 1]) +
      [Record(o.cutoff, o.observation, e.key, StatusOf(prev, e), Some(e.hash), Some(e.revision), None)]
  }

  ghost function Gone(o: Observed, prev: seq<Entry>, cur: seq<Entry>): seq<Record> {
    if prev == [] then []
    else
      var e := prev[|prev| - 1];
      Gone(o, prev[..|prev| - 1], cur) +
      if e.key in Keys(cur) then []
      else [Record(o.cutoff, o.observation, e.key, Absent, None, None, Some(e.revision))]
  }

  ghost function Records(prev: seq<Entry>, o: Observed): seq<Record> {
    Present(o, prev, o.view) + Gone(o, prev, o.view)
  }

  /** The view before the next observation. */
  ghost function Last(obs: seq<Observed>): seq<Entry> {
    if obs == [] then [] else obs[|obs| - 1].view
  }

  ghost function History(obs: seq<Observed>): seq<Record> {
    if obs == [] then []
    else History(obs[..|obs| - 1]) + Records(Last(obs[..|obs| - 1]), obs[|obs| - 1])
  }

  ghost predicate AllUnique(obs: seq<Observed>) {
    forall i :: 0 <= i < |obs| ==> Unique(obs[i].view)
  }

  // ---------------------------------------------------------------- replay

  /** Applying one record to a map of payload hashes. An unchanged structure says nothing new. */
  ghost function Apply(m: map<Id, Id>, r: Record): map<Id, Id> {
    match r.status
    case Absent => m - {r.key}
    case Unchanged => m
    case _ => if r.hash.Some? then m[r.key := r.hash.value] else m
  }

  ghost function Replay(m: map<Id, Id>, rs: seq<Record>): map<Id, Id> {
    if rs == [] then m else Apply(Replay(m, rs[..|rs| - 1]), rs[|rs| - 1])
  }

  lemma {:induction false} ReplayAppend(m: map<Id, Id>, a: seq<Record>, b: seq<Record>)
    ensures Replay(m, a + b) == Replay(Replay(m, a), b)
  {
    if b == [] {
      assert a + b == a;
    } else {
      ReplayAppend(m, a, b[..|b| - 1]);
      assert (a + b)[..|a + b| - 1] == a + b[..|b| - 1];
    }
  }

  lemma {:induction false} ReplayPresent(o: Observed, prev: seq<Entry>, cur: seq<Entry>)
    requires Unique(cur)
    ensures Replay(Hashes(prev), Present(o, prev, cur)) == Hashes(prev) + Hashes(cur)
  {
    if cur == [] {
      assert Hashes(prev) + Hashes(cur) == Hashes(prev);
    } else {
      var front, e := cur[..|cur| - 1], cur[|cur| - 1];
      NewKey(cur);
      ReplayPresent(o, prev, front);
      var rs := Present(o, prev, cur);
      assert rs[..|rs| - 1] == Present(o, prev, front);
      assert (Hashes(prev) + Hashes(front))[e.key := e.hash] == Hashes(prev) + Hashes(cur);
    }
  }

  lemma {:induction false} MinusOneMore(m: map<Id, Id>, a: set<Id>, b: set<Id>, k: Id)
    ensures m - ((a + {k}) - b) == if k in b then m - (a - b) else m - (a - b) - {k}
  {
    if k in b {
      assert (a + {k}) - b == a - b;
    }
  }

  lemma {:induction false} ReplayGone(o: Observed, m: map<Id, Id>, prev: seq<Entry>, cur: seq<Entry>)
    ensures Replay(m, Gone(o, prev, cur)) == m - (Keys(prev) - Keys(cur))
  {
    if prev == [] {
      assert m - {} == m;
    } else {
      var front, e := prev[..|prev| - 1], prev[|prev| - 1];
      ReplayGone(o, m, front, cur);
      var rs := Gone(o, prev, cur);
      assert Keys(prev) == Keys(front) + {e.key};
      MinusOneMore(m, Keys(front), Keys(cur), e.key);
      if e.key in Keys(cur) {
        assert rs == Gone(o, front, cur);
      } else {
        assert rs[..|rs| - 1] == Gone(o, front, cur);
      }
    }
  }

  /** Replaying the records of one cutoff turns the previous map into the current one. */
  lemma {:induction false} ReplayRecords(prev: seq<Entry>, o: Observed)
    requires Unique(o.view)
    ensures Replay(Hashes(prev), Records(prev, o)) == Hashes(o.view)
  {
    ReplayAppend(Hashes(prev), Present(o, prev, o.view), Gone(o, prev, o.view));
    ReplayPresent(o, prev, o.view);
    ReplayGone(o, Hashes(prev) + Hashes(o.view), prev, o.view);
    assert Hashes(prev) + Hashes(o.view) - (Keys(prev) - Keys(o.view)) == Hashes(o.view);
  }

  // ---------------------------------------------------------------- what a record says

  ghost predicate Holds(v: seq<Entry>, key: Id, hash: Id) {
    key in Hashes(v) && Hashes(v)[key] == hash
  }

  /** The view shows this entry. */
  ghost predicate ShownIn(v: seq<Entry>, key: Id, hash: Id, revision: Id) {
    Entry(key, hash, revision) in v
  }

  lemma {:induction false} EntryHolds(v: seq<Entry>, e: Entry)
    requires Unique(v) && e in v
    ensures Holds(v, e.key, e.hash)
  {
    var front, last := v[..|v| - 1], v[|v| - 1];
    NewKey(v);
    if e != last {
      assert e in front;
      EntryHolds(front, e);
    }
  }

  lemma {:induction false} PresentIn(o: Observed, prev: seq<Entry>, cur: seq<Entry>, r: Record)
    requires r in Present(o, prev, cur)
    ensures exists e :: e in cur && r ==
              Record(o.cutoff, o.observation, e.key, StatusOf(prev, e), Some(e.hash), Some(e.revision), None)
  {
    var front, e := cur[..|cur| - 1], cur[|cur| - 1];
    if r in Present(o, prev, front) {
      PresentIn(o, prev, front, r);
    } else {
      assert e in cur;
    }
  }

  lemma {:induction false} GoneIn(o: Observed, prev: seq<Entry>, cur: seq<Entry>, r: Record)
    requires r in Gone(o, prev, cur)
    ensures exists e :: e in prev && e.key !in Keys(cur) && r ==
              Record(o.cutoff, o.observation, e.key, Absent, None, None, Some(e.revision))
  {
    var front, e := prev[..|prev| - 1], prev[|prev| - 1];
    if r in Gone(o, front, cur) {
      GoneIn(o, front, cur, r);
    } else {
      assert e in prev;
    }
  }

  /** What the record of a key says, in terms of the two snapshots: new when the previous one lacks the key, absent
      when the current one does, and otherwise unchanged or changed by the payload hash. A present structure carries
      its current hash and revision, an absent one only its revision in the previous snapshot. */
  lemma {:induction false} RecordMeans(prev: seq<Entry>, o: Observed, r: Record)
    requires Unique(prev) && Unique(o.view) && r in Records(prev, o)
    ensures r.cutoff == o.cutoff && r.observation == o.observation
    ensures r.status == New <==> r.key !in Hashes(prev)
    ensures r.status == Absent <==> r.key !in Hashes(o.view)
    ensures r.status == Unchanged <==>
              r.key in Hashes(prev) && r.key in Hashes(o.view) && Hashes(prev)[r.key] == Hashes(o.view)[r.key]
    ensures r.status == Changed <==>
              r.key in Hashes(prev) && r.key in Hashes(o.view) && Hashes(prev)[r.key] != Hashes(o.view)[r.key]
    ensures r.status != Absent ==>
              r.hash.Some? && r.revision.Some? && r.prior == None
              && ShownIn(o.view, r.key, r.hash.value, r.revision.value)
    ensures r.status == Absent ==>
              r.hash == None && r.revision == None && r.prior.Some?
              && exists hash :: ShownIn(prev, r.key, hash, r.prior.value)
  {
    if r in Present(o, prev, o.view) {
      PresentIn(o, prev, o.view, r);
      var e :| e in o.view && r ==
        Record(o.cutoff, o.observation, e.key, StatusOf(prev, e), Some(e.hash), Some(e.revision), None);
      EntryHolds(o.view, e);
    } else {
      GoneIn(o, prev, o.view, r);
      var e :| e in prev && e.key !in Keys(o.view) && r ==
        Record(o.cutoff, o.observation, e.key, Absent, None, None, Some(e.revision));
      EntryHolds(prev, e);
      assert ShownIn(prev, r.key, e.hash, r.prior.value);
    }
  }

  /** Replaying the whole history rebuilds the last snapshot's map from key to payload hash. */
  lemma {:induction false} ReplayHistory(obs: seq<Observed>)
    requires AllUnique(obs)
    ensures Replay(map[], History(obs)) == Hashes(Last(obs))
  {
    if obs != [] {
      var front, o := obs[..|obs| - 1], obs[|obs| - 1];
      ReplayHistory(front);
      ReplayAppend(map[], History(front), Records(Last(front), o));
      ReplayRecords(Last(front), o);
    }
  }

  // ---------------------------------------------------------------- one record per key

  ghost function CountKey(rs: seq<Record>, key: Id): nat {
    if rs == [] then 0
    else CountKey(rs[..|rs| - 1], key) + if rs[|rs| - 1].key == key then 1 else 0
  }

  lemma {:induction false} CountKeyAppend(a: seq<Record>, b: seq<Record>, key: Id)
    ensures CountKey(a + b, key) == CountKey(a, key) + CountKey(b, key)
  {
    if b == [] {
      assert a + b == a;
    } else {
      CountKeyAppend(a, b[..|b| - 1], key);
      assert (a + b)[..|a + b| - 1] == a + b[..|b| - 1];
    }
  }

  lemma {:induction false} CountKeyPresent(o: Observed, prev: seq<Entry>, cur: seq<Entry>, key: Id)
    requires Unique(cur)
    ensures CountKey(Present(o, prev, cur), key) == if key in Keys(cur) then 1 else 0
  {
    if cur != [] {
      NewKey(cur);
      CountKeyPresent(o, prev, cur[..|cur| - 1], key);
      var rs := Present(o, prev, cur);
      assert rs[..|rs| - 1] == Present(o, prev, cur[..|cur| - 1]);
    }
  }

  lemma {:induction false} CountKeyGone(o: Observed, prev: seq<Entry>, cur: seq<Entry>, key: Id)
    requires Unique(prev)
    ensures CountKey(Gone(o, prev, cur), key) == if key in Keys(prev) && key !in Keys(cur) then 1 else 0
  {
    if prev != [] {
      NewKey(prev);
      var front, e := prev[..|prev| - 1], prev[|prev| - 1];
      CountKeyGone(o, front, cur, key);
      var rs := Gone(o, prev, cur);
      if e.key in Keys(cur) {
        assert rs == Gone(o, front, cur);
      } else {
        assert rs[..|rs| - 1] == Gone(o, front, cur);
      }
    }
  }

  /** Every key of the previous or the current snapshot gets exactly one record at a cutoff, no other key any. */
  lemma {:induction false} ExactlyOneRecord(prev: seq<Entry>, o: Observed, key: Id)
    requires Unique(prev) && Unique(o.view)
    ensures CountKey(Records(prev, o), key) == if key in Keys(prev) + Keys(o.view) then 1 else 0
  {
    CountKeyAppend(Present(o, prev, o.view), Gone(o, prev, o.view), key);
    CountKeyPresent(o, prev, o.view, key);
    CountKeyGone(o, prev, o.view, key);
  }

  // ---------------------------------------------------------------- conservation

  ghost function Count(rs: seq<Record>, status: Status): nat {
    if rs == [] then 0
    else Count(rs[..|rs| - 1], status) + if rs[|rs| - 1].status == status then 1 else 0
  }

  lemma {:induction false} CountAppend(a: seq<Record>, b: seq<Record>, status: Status)
    ensures Count(a + b, status) == Count(a, status) + Count(b, status)
  {
    if b == [] {
      assert a + b == a;
    } else {
      CountAppend(a, b[..|b| - 1], status);
      assert (a + b)[..|a + b| - 1] == a + b[..|b| - 1];
    }
  }

  /** Keys seen at any cutoff. */
  ghost function Seen(obs: seq<Observed>): set<Id> {
    if obs == [] then {} else Seen(obs[..|obs| - 1]) + Keys(obs[|obs| - 1].view)
  }

  /** How often a key came back after an absence. */
  ghost function Reappearances(obs: seq<Observed>): nat {
    if obs == [] then 0
    else
      var front := obs[..|obs| - 1];
      Reappearances(front) + |Keys(obs[|obs| - 1].view) * Seen(front) - Keys(Last(front))|
  }

  lemma {:induction false} OneMore(a: set<Id>, b: set<Id>, k: Id)
    requires k !in a
    ensures |(a + {k}) - b| == |a - b| + if k in b then 0 else 1
  {
    if k in b {
      assert (a + {k}) - b == a - b;
    } else {
      assert (a + {k}) - b == (a - b) + {k};
    }
  }

  lemma {:induction false} CountPresent(o: Observed, prev: seq<Entry>, cur: seq<Entry>)
    requires Unique(cur)
    ensures Count(Present(o, prev, cur), New) == |Keys(cur) - Keys(prev)|
    ensures Count(Present(o, prev, cur), Absent) == 0
  {
    if cur != [] {
      var front, e := cur[..|cur| - 1], cur[|cur| - 1];
      NewKey(cur);
      CountPresent(o, prev, front);
      var rs := Present(o, prev, cur);
      assert rs[..|rs| - 1] == Present(o, prev, front);
      assert Keys(cur) == Keys(front) + {e.key};
      OneMore(Keys(front), Keys(prev), e.key);
    }
  }

  lemma {:induction false} CountGone(o: Observed, prev: seq<Entry>, cur: seq<Entry>)
    requires Unique(prev)
    ensures Count(Gone(o, prev, cur), Absent) == |Keys(prev) - Keys(cur)|
    ensures Count(Gone(o, prev, cur), New) == 0
  {
    if prev != [] {
      var front, e := prev[..|prev| - 1], prev[|prev| - 1];
      NewKey(prev);
      CountGone(o, front, cur);
      var rs := Gone(o, prev, cur);
      assert Keys(prev) == Keys(front) + {e.key};
      OneMore(Keys(front), Keys(cur), e.key);
      if e.key in Keys(cur) {
        assert rs == Gone(o, front, cur);
      } else {
        assert rs[..|rs| - 1] == Gone(o, front, cur);
      }
    }
  }

  lemma {:induction false} CountRecords(prev: seq<Entry>, o: Observed)
    requires Unique(prev) && Unique(o.view)
    ensures Count(Records(prev, o), New) == |Keys(o.view) - Keys(prev)|
    ensures Count(Records(prev, o), Absent) == |Keys(prev) - Keys(o.view)|
  {
    var present, gone := Present(o, prev, o.view), Gone(o, prev, o.view);
    CountAppend(present, gone, New);
    CountAppend(present, gone, Absent);
    CountPresent(o, prev, o.view);
    CountGone(o, prev, o.view);
  }

  lemma {:induction false} Growth(prev: set<Id>, cur: set<Id>, seen: set<Id>)
    requires prev <= seen
    ensures |cur - prev| == |seen + cur| - |seen| + |cur * seen - prev|
  {
    assert (cur - prev) - seen == cur - seen && (cur - prev) * seen == cur * seen - prev;
    assert seen + cur == seen + (cur - seen);
  }

  /** Over the whole run NEW minus ABSENT is the size of the last snapshot, and NEW is the number of distinct
      keys seen plus the number of reappearances. */
  lemma {:induction false} Conservation(obs: seq<Observed>)
    requires AllUnique(obs)
    ensures Count(History(obs), New) - Count(History(obs), Absent) == |Last(obs)|
    ensures Count(History(obs), New) == |Seen(obs)| + Reappearances(obs)
  {
    if obs != [] {
      var front, o := obs[..|obs| - 1], obs[|obs| - 1];
      Conservation(front);
      var prev, cur, seen := Keys(Last(front)), Keys(o.view), Seen(front);
      CountAppend(History(front), Records(Last(front), o), New);
      CountAppend(History(front), Records(Last(front), o), Absent);
      CountRecords(Last(front), o);
      KeyCount(Last(front));
      KeyCount(o.view);
      Growth(prev, cur, seen);
    }
  }

  /** The keys of both views, with the same payload hash and with another one. */
  ghost function Same(prev: seq<Entry>, cur: seq<Entry>): set<Id> {
    set k | k in Keys(cur) && k in Keys(prev) && Hashes(prev)[k] == Hashes(cur)[k]
  }

  ghost function Altered(prev: seq<Entry>, cur: seq<Entry>): set<Id> {
    set k | k in Keys(cur) && k in Keys(prev) && Hashes(prev)[k] != Hashes(cur)[k]
  }

  lemma {:induction false} CountKept(o: Observed, prev: seq<Entry>, cur: seq<Entry>)
    requires Unique(cur)
    ensures Count(Present(o, prev, cur), Unchanged) == |Same(prev, cur)|
    ensures Count(Present(o, prev, cur), Changed) == |Altered(prev, cur)|
  {
    if cur != [] {
      var front, e := cur[..|cur| - 1], cur[|cur| - 1];
      NewKey(cur);
      CountKept(o, prev, front);
      var rs := Present(o, prev, cur);
      assert rs[..|rs| - 1] == Present(o, prev, front);
      KeptSnoc(prev, cur);
    }
  }

  lemma {:induction false} KeptSnoc(prev: seq<Entry>, cur: seq<Entry>)
    requires cur != [] && Unique(cur)
    ensures var front, e := cur[..|cur| - 1], cur[|cur| - 1];
            && Same(prev, cur) == Same(prev, front) + (if Holds(prev, e.key, e.hash) then {e.key} else {})
            && Altered(prev, cur) == Altered(prev, front)
                 + (if e.key in Hashes(prev) && !Holds(prev, e.key, e.hash) then {e.key} else {})
            && e.key !in Same(prev, front) && e.key !in Altered(prev, front)
  {
    NewKey(cur);
  }

  lemma {:induction false} CountKeptGone(o: Observed, prev: seq<Entry>, cur: seq<Entry>)
    ensures Count(Gone(o, prev, cur), Unchanged) == 0 && Count(Gone(o, prev, cur), Changed) == 0
  {
    if prev != [] {
      var front, e := prev[..|prev| - 1], prev[|prev| - 1];
      CountKeptGone(o, front, cur);
      var rs := Gone(o, prev, cur);
      if e.key in Keys(cur) {
        assert rs == Gone(o, front, cur);
      } else {
        assert rs[..|rs| - 1] == Gone(o, front, cur);
      }
    }
  }

  /** How many structures kept their payload from one snapshot to the next, over the series, and how many did not. */
  ghost function Kept(obs: seq<Observed>): nat {
    if obs == [] then 0
    else Kept(obs[..|obs| - 1]) + |Same(Last(obs[..|obs| - 1]), obs[|obs| - 1].view)|
  }

  ghost function Alterations(obs: seq<Observed>): nat {
    if obs == [] then 0
    else Alterations(obs[..|obs| - 1]) + |Altered(Last(obs[..|obs| - 1]), obs[|obs| - 1].view)|
  }

  /** Over the whole run, UNCHANGED counts the structures that kept their payload from one snapshot to the next, and
      CHANGED those that did not. */
  lemma {:induction false} KeptAndAltered(obs: seq<Observed>)
    requires AllUnique(obs)
    ensures Count(History(obs), Unchanged) == Kept(obs)
    ensures Count(History(obs), Changed) == Alterations(obs)
  {
    if obs != [] {
      var front, o := obs[..|obs| - 1], obs[|obs| - 1];
      var prev := Last(front);
      KeptAndAltered(front);
      KeptOfCutoff(prev, o, Unchanged);
      KeptOfCutoff(prev, o, Changed);
      CountAppend(History(front), Records(prev, o), Unchanged);
      CountAppend(History(front), Records(prev, o), Changed);
    }
  }

  lemma {:induction false} KeptOfCutoff(prev: seq<Entry>, o: Observed, status: Status)
    requires Unique(o.view)
    ensures status == Unchanged ==> Count(Records(prev, o), status) == |Same(prev, o.view)|
    ensures status == Changed ==> Count(Records(prev, o), status) == |Altered(prev, o.view)|
  {
    CountAppend(Present(o, prev, o.view), Gone(o, prev, o.view), status);
    CountKept(o, prev, o.view);
    CountKeptGone(o, prev, o.view);
  }

  // ---------------------------------------------------------------- causality

  /** The records of a shorter history are an exact prefix of those of any extension. */
  lemma {:induction false} HistoryExtends(obs: seq<Observed>, more: seq<Observed>)
    ensures History(obs) <= History(obs + more)
    decreases |more|
  {
    if more == [] {
      assert obs + more == obs;
    } else {
      HistoryExtends(obs, more[..|more| - 1]);
      assert (obs + more)[..|obs + more| - 1] == obs + more[..|more| - 1];
    }
  }

  /** Replaying the records of the whole history up to the end of any cutoff rebuilds that cutoff's snapshot. */
  lemma {:induction false} ReplayEverySnapshot(obs: seq<Observed>, i: nat)
    requires AllUnique(obs) && i < |obs|
    ensures var n := |History(obs[..i + 1])|;
            n <= |History(obs)| && Replay(map[], History(obs)[..n]) == Hashes(obs[i].view)
  {
    var front, more := obs[..i + 1], obs[i + 1..];
    assert obs == front + more;
    assert AllUnique(front) && Last(front) == obs[i].view;
    ReplayFront(front, more);
  }

  lemma {:induction false} ReplayFront(front: seq<Observed>, more: seq<Observed>)
    requires AllUnique(front)
    ensures |History(front)| <= |History(front + more)|
    ensures Replay(map[], History(front + more)[..|History(front)|]) == Hashes(Last(front))
  {
    var short, long := History(front), History(front + more);
    HistoryExtends(front, more);
    assert long[..|short|] == short;
    ReplayHistory(front);
  }
}
