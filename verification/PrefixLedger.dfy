/** `annotate_prefix_ledger`: one snapshot per prefix of the rows, with every structure annotated by the prefix
    that first showed it. The analysis engine and the digests are arbitrary functions. */
module PrefixLedger {
  import opened Common

  const MIN_PREFIX := 20

  datatype Row = Row(text: string)

  datatype Kind = Fx | Bi | Zs

  /** The fields that identify a structure. */
  datatype Identity = Identity(
    kind: Kind, direction: string, mark: string, sourceStart: string, sourceEnd: string)

  datatype Item = Item(identity: Identity, geometry: string, engineState: string)

  datatype Payload = Payload(geometry: string, engineState: string)

  /** What the identifiers of observations and revisions are digests of, beside constants. */
  datatype ObservationPreimage = ObservationPreimage(cutoff: nat, inputHash: Id)

  datatype RevisionPreimage = RevisionPreimage(observation: Id, key: Id, payload: Payload)

  /** What the engine makes of a prefix: an error, or its structures in order. */
  datatype Snapshot = Failed | Ok(items: seq<Item>)

  /** The analysis engine and the digests. */
  datatype Engine = Engine(
    snapshot: seq<Row> -> Snapshot,
    stableId: Identity -> Id,
    structureKey: Identity -> Id,
    payloadHash: Payload -> Id,
    inputHash: seq<Row> -> Id,
    observation: ObservationPreimage -> Id,
    revision: RevisionPreimage -> Id)

  datatype Note = Note(item: Item, firstSeen: nat, lastSeen: nat, changed: bool)

  datatype Annotated = Unannotated | Notes(notes: seq<Note>, removed: set<Id>)

  function ItemsOf(s: Snapshot): seq<Item> {
    if s.Ok? then s.items else []
  }

  /** A structure of the same kind and identifier occurs in the snapshot. */
  predicate Shows(e: Engine, s: Snapshot, item: Item) {
    exists k :: 0 <= k < |ItemsOf(s)| && ItemsOf(s)[k].identity.kind == item.identity.kind
                && e.stableId(ItemsOf(s)[k].identity) == e.stableId(item.identity)
  }

  function Ids(e: Engine, items: seq<Item>): set<Id> {
    set k | 0 <= k < |items| :: e.stableId(items[k].identity)
  }

  /** The geometry that the last structure with this identifier has. */
  function LastGeometry(e: Engine, items: seq<Item>, id: Id): Option<string> {
    if items == [] then None
    else if e.stableId(items[|items| - 1].identity) == id then Some(items[|items| - 1].geometry)
    else LastGeometry(e, items[..|items| - 1], id)
  }

  predicate HasChanged(e: Engine, previous: seq<Item>, item: Item) {
    var before := LastGeometry(e, previous, e.stableId(item.identity));
    before.Some? && before.value != item.geometry
  }

  /** The flag says that the last structure of the previous prefix with that identifier has another geometry. */
  lemma {:induction false} ChangedMeans(e: Engine, previous: seq<Item>, item: Item)
    ensures HasChanged(e, previous, item) <==>
              exists k :: 0 <= k < |previous|
                          && e.stableId(previous[k].identity) == e.stableId(item.identity)
                          && previous[k].geometry != item.geometry
                          && forall l :: k < l < |previous| ==>
                               e.stableId(previous[l].identity) != e.stableId(item.identity)
  {
    if previous != [] {
      var front, n := previous[..|previous| - 1], |previous| - 1;
      ChangedMeans(e, front, item);
      assert forall k :: 0 <= k < n ==> front[k] == previous[k];
    }
  }

  // ---------------------------------------------------------------- what an annotation must say

  /** `rows[:end]`: the first `end` rows, or all when there are fewer. */
  function Prefix(rows: seq<Row>, end: nat): seq<Row> {
    if end <= |rows| then rows[..end] else rows
  }

  ghost function SnapshotAt(e: Engine, rows: seq<Row>, end: nat): Snapshot {
    e.snapshot(Prefix(rows, end))
  }

  ghost function Previous(e: Engine, rows: seq<Row>, end: nat): seq<Item> {
    if end <= MIN_PREFIX then [] else ItemsOf(SnapshotAt(e, rows, end - 1))
  }

  /** `p` is the least prefix that shows the structure. */
  ghost predicate IsFirst(e: Engine, rows: seq<Row>, end: nat, item: Item, p: nat) {
    && MIN_PREFIX <= p <= end && Shows(e, SnapshotAt(e, rows, p), item)
    && forall q :: MIN_PREFIX <= q < p ==> !Shows(e, SnapshotAt(e, rows, q), item)
  }

  ghost predicate IsNote(e: Engine, rows: seq<Row>, end: nat, item: Item, n: Note) {
    && n.item == item && n.lastSeen == end && IsFirst(e, rows, end, item, n.firstSeen)
    && (n.changed <==> HasChanged(e, Previous(e, rows, end), item))
  }

  ghost predicate IsAnnotation(e: Engine, rows: seq<Row>, end: nat, a: Annotated) {
    match SnapshotAt(e, rows, end)
    case Failed => a == Unannotated
    case Ok(items) =>
      && a.Notes? && |a.notes| == |items|
      && (forall k :: 0 <= k < |items| ==> IsNote(e, rows, end, items[k], a.notes[k]))
      && a.removed == Ids(e, Previous(e, rows, end)) - Ids(e, items)
  }

  ghost predicate IsLedger(e: Engine, rows: seq<Row>, ledger: map<nat, Annotated>) {
    && (forall end :: end in ledger <==> MIN_PREFIX <= end <= |rows|)
    && forall end :: end in ledger ==> IsAnnotation(e, rows, end, ledger[end])
  }

  // ---------------------------------------------------------------- the code

  ghost predicate Filled(e: Engine, rows: seq<Row>, snapshots: map<nat, Snapshot>) {
    && (forall end :: end in snapshots <==> MIN_PREFIX <= end <= |rows|)
    && forall end :: end in snapshots ==> snapshots[end] == SnapshotAt(e, rows, end)
  }

  method AnnotatePrefixLedger(e: Engine, rows: seq<Row>) returns (ledger: map<nat, Annotated>)
    ensures IsLedger(e, rows, ledger)
  {
    var snapshots: map<nat, Snapshot> := map[];
    var end := MIN_PREFIX;
    while end <= |rows|
      invariant MIN_PREFIX <= end
      invariant forall p :: p in snapshots <==> MIN_PREFIX <= p < end && p <= |rows|
      invariant forall p :: p in snapshots ==> snapshots[p] == SnapshotAt(e, rows, p)
    {
      snapshots := snapshots[end := e.snapshot(rows[..end])];
      end := end + 1;
    }
    ledger := map[];
    end := MIN_PREFIX;
    while end <= |rows|
      invariant MIN_PREFIX <= end
      invariant forall p :: p in ledger <==> MIN_PREFIX <= p < end && p <= |rows|
      invariant forall p :: p in ledger ==> IsAnnotation(e, rows, p, ledger[p])
    {
      var annotated := Annotate(e, rows, snapshots, end);
      ledger := ledger[end := annotated];
      end := end + 1;
    }
  }

  method Annotate(e: Engine, rows: seq<Row>, snapshots: map<nat, Snapshot>, end: nat) returns (a: Annotated)
    requires Filled(e, rows, snapshots) && MIN_PREFIX <= end <= |rows|
    ensures IsAnnotation(e, rows, end, a)
  {
    var current := snapshots[end];
    if current == Failed {
      return Unannotated;
    }
    var previous := if end - 1 in snapshots then ItemsOf(snapshots[end - 1]) else [];
    assert previous == Previous(e, rows, end);
    var notes := NotesFor(e, rows, snapshots, end, current.items, previous);
    return Notes(notes, Ids(e, previous) - Ids(e, current.items));
  }

  method NotesFor(
    e: Engine, rows: seq<Row>, snapshots: map<nat, Snapshot>, end: nat, items: seq<Item>, previous: seq<Item>)
    returns (notes: seq<Note>)
    requires Filled(e, rows, snapshots) && MIN_PREFIX <= end <= |rows|
    requires snapshots[end] == Ok(items) && previous == Previous(e, rows, end)
    ensures |notes| == |items|
    ensures forall k :: 0 <= k < |items| ==> IsNote(e, rows, end, items[k], notes[k])
  {
    notes := [];
    var k := 0;
    while k < |items|
      invariant 0 <= k == |notes| <= |items|
      invariant forall i :: 0 <= i < k ==> IsNote(e, rows, end, items[i], notes[i])
    {
      var item := items[k];
      ShowsItself(e, SnapshotAt(e, rows, end), k);
      var first := FirstSeen(e, rows, snapshots, end, item);
      notes := notes + [Note(item, first, end, HasChanged(e, previous, item))];
      k := k + 1;
    }
  }

  lemma {:induction false} ShowsItself(e: Engine, s: Snapshot, k: nat)
    requires s.Ok? && k < |s.items|
    ensures Shows(e, s, s.items[k])
  {
    assert ItemsOf(s)[k] == s.items[k];
  }

  method FirstSeen(e: Engine, rows: seq<Row>, snapshots: map<nat, Snapshot>, end: nat, item: Item)
    returns (prefix: nat)
    requires Filled(e, rows, snapshots) && MIN_PREFIX <= end <= |rows|
    requires Shows(e, SnapshotAt(e, rows, end), item)
    ensures IsFirst(e, rows, end, item, prefix)
  {
    prefix := MIN_PREFIX;
    while prefix <= end
      invariant MIN_PREFIX <= prefix <= end
      invariant forall q :: MIN_PREFIX <= q < prefix ==> !Shows(e, SnapshotAt(e, rows, q), item)
      decreases end - prefix
    {
      if Shows(e, snapshots[prefix], item) {
        return;
      }
      prefix := prefix + 1;
    }
  }

  /** The structures of an annotated snapshot. */
  function ItemsIn(a: Annotated): (items: seq<Item>)
    ensures a.Notes? ==> |items| == |a.notes| && forall k :: 0 <= k < |items| ==> items[k] == a.notes[k].item
  {
    if a.Notes? then seq(|a.notes|, k requires 0 <= k < |a.notes| => a.notes[k].item) else []
  }

  /** The annotated ledger shows the structures that the engine gave for each prefix. */
  lemma {:induction false} LedgerShowsSnapshots(e: Engine, rows: seq<Row>, ledger: map<nat, Annotated>, end: nat)
    requires IsLedger(e, rows, ledger) && end in ledger
    ensures ItemsIn(ledger[end]) == ItemsOf(SnapshotAt(e, rows, end))
  {
    assert IsAnnotation(e, rows, end, ledger[end]);
    var s := SnapshotAt(e, rows, end);
    if s.Ok? {
      assert forall k :: 0 <= k < |s.items| ==> IsNote(e, rows, end, s.items[k], ledger[end].notes[k]);
    }
  }

  // ---------------------------------------------------------------- causality

  lemma {:induction false} SamePrefix(rows: seq<Row>, more: seq<Row>, end: nat)
    requires end <= |rows|
    ensures Prefix(rows + more, end) == Prefix(rows, end)
  {
  }

  lemma {:induction false} FirstIsUnique(
    e: Engine, rows: seq<Row>, more: seq<Row>, item: Item, end: nat, p: nat, end': nat, p': nat)
    requires end <= |rows| && end' <= |rows + more|
    requires IsFirst(e, rows, end, item, p) && IsFirst(e, rows + more, end', item, p')
    ensures p == p'
  {
    SamePrefix(rows, more, p);
    assert Shows(e, SnapshotAt(e, rows + more, p), item);
    if p' < p {
      assert !Shows(e, SnapshotAt(e, rows, p'), item);
      SamePrefix(rows, more, p');
    }
  }

  /** The ledger of a shorter history is exactly the ledger of any extension, restricted to its prefixes. */
  lemma {:induction false} LedgerIsCausal(
    e: Engine, rows: seq<Row>, more: seq<Row>, ledger: map<nat, Annotated>, longer: map<nat, Annotated>, end: nat)
    requires IsLedger(e, rows, ledger) && IsLedger(e, rows + more, longer) && end in ledger
    ensures end in longer && longer[end] == ledger[end]
  {
    SamePrefix(rows, more, end);
    if end > MIN_PREFIX {
      SamePrefix(rows, more, end - 1);
    }
    var a, b := ledger[end], longer[end];
    assert IsAnnotation(e, rows, end, a) && IsAnnotation(e, rows + more, end, b);
    assert Previous(e, rows, end) == Previous(e, rows + more, end);
    if a.Notes? {
      forall k | 0 <= k < |a.notes|
        ensures a.notes[k] == b.notes[k]
      {
        var item := SnapshotAt(e, rows, end).items[k];
        assert IsNote(e, rows, end, item, a.notes[k]) && IsNote(e, rows + more, end, item, b.notes[k]);
        FirstIsUnique(e, rows, more, item, end, a.notes[k].firstSeen, end, b.notes[k].firstSeen);
      }
      assert a.notes == b.notes;
    }
  }

  /** The ledger shows this note at the prefix. */
  ghost predicate Noted(ledger: map<nat, Annotated>, end: nat, n: Note) {
    end in ledger && ledger[end].Notes? && n in ledger[end].notes
  }

  lemma {:induction false} NotedIsFirst(e: Engine, rows: seq<Row>, ledger: map<nat, Annotated>, end: nat, n: Note)
    requires IsLedger(e, rows, ledger) && Noted(ledger, end, n)
    ensures end <= |rows| && IsFirst(e, rows, end, n.item, n.firstSeen)
  {
    assert IsAnnotation(e, rows, end, ledger[end]);
    var k :| 0 <= k < |ledger[end].notes| && ledger[end].notes[k] == n;
    assert IsNote(e, rows, end, SnapshotAt(e, rows, end).items[k], n);
  }

  /** Two structures of the same kind and identifier carry the same first-seen prefix, at whatever prefixes of
      the history or of an extension they are shown. */
  lemma {:induction false} FirstSeenNeverChanges(
    e: Engine, rows: seq<Row>, more: seq<Row>, ledger: map<nat, Annotated>, longer: map<nat, Annotated>,
    end: nat, a: Note, end': nat, b: Note)
    requires IsLedger(e, rows, ledger) && IsLedger(e, rows + more, longer)
    requires Noted(ledger, end, a) && Noted(longer, end', b)
    requires a.item.identity.kind == b.item.identity.kind
    requires e.stableId(a.item.identity) == e.stableId(b.item.identity)
    ensures a.firstSeen == b.firstSeen
  {
    NotedIsFirst(e, rows, ledger, end, a);
    NotedIsFirst(e, rows + more, longer, end', b);
    assert forall s :: Shows(e, s, a.item) <==> Shows(e, s, b.item);
    assert IsFirst(e, rows + more, end', a.item, b.firstSeen);
    FirstIsUnique(e, rows, more, a.item, end, a.firstSeen, end', b.firstSeen);
  }

  /** What a ledger says about a structure that it notes: the structure is in the snapshot of that prefix, it was first
      shown at the noted prefix (from 20 rows on, by kind and identifier), and it is marked as changed exactly when the
      last structure of the previous prefix with its identifier has another geometry. */
  lemma {:induction false} NoteMeans(e: Engine, rows: seq<Row>, ledger: map<nat, Annotated>, end: nat, n: Note)
    requires IsLedger(e, rows, ledger) && Noted(ledger, end, n)
    ensures 20 <= n.firstSeen <= end <= |rows| && n.lastSeen == end
    ensures Alike(e, rows, n.firstSeen, n.item)
    ensures forall p :: 20 <= p < n.firstSeen ==> !Alike(e, rows, p, n.item)
    ensures n.changed <==>
              end > 20 && var previous := ItemsOf(e.snapshot(rows[..end - 1]));
              exists k :: 0 <= k < |previous|
                          && e.stableId(previous[k].identity) == e.stableId(n.item.identity)
                          && previous[k].geometry != n.item.geometry
                          && forall l :: k < l < |previous| ==>
                               e.stableId(previous[l].identity) != e.stableId(n.item.identity)
  {
    assert IsAnnotation(e, rows, end, ledger[end]);
    var k :| 0 <= k < |ledger[end].notes| && ledger[end].notes[k] == n;
    assert IsNote(e, rows, end, SnapshotAt(e, rows, end).items[k], n);
    ChangedMeans(e, Previous(e, rows, end), n.item);
    forall p | 20 <= p <= end
      ensures Alike(e, rows, p, n.item) <==> Shows(e, SnapshotAt(e, rows, p), n.item)
    {
    }
  }

  /** The snapshot of the first `p` rows has a structure of the same kind and identifier. */
  ghost predicate Alike(e: Engine, rows: seq<Row>, p: nat, item: Item) {
    p <= |rows| && exists k ::
      && 0 <= k < |ItemsOf(e.snapshot(rows[..p]))|
      && ItemsOf(e.snapshot(rows[..p]))[k].identity.kind == item.identity.kind
      && e.stableId(ItemsOf(e.snapshot(rows[..p]))[k].identity) == e.stableId(item.identity)
  }

  /** What is removed is what the previous prefix showed and this one does not. */
  lemma {:induction false} RemovedMeans(
    e: Engine, rows: seq<Row>, ledger: map<nat, Annotated>, end: nat, id: Id)
    requires IsLedger(e, rows, ledger) && end in ledger && ledger[end].Notes?
    ensures id in ledger[end].removed <==>
              end > 20 && HasId(e, rows, end - 1, id) && !HasId(e, rows, end, id)
  {
    assert IsAnnotation(e, rows, end, ledger[end]);
    IdsHave(e, rows, end, id);
    if end > 20 {
      IdsHave(e, rows, end - 1, id);
    }
  }

  lemma {:induction false} IdsHave(e: Engine, rows: seq<Row>, p: nat, id: Id)
    requires p <= |rows|
    ensures id in Ids(e, ItemsOf(SnapshotAt(e, rows, p))) <==> HasId(e, rows, p, id)
  {
    var items := ItemsOf(e.snapshot(rows[..p]));
    if HasId(e, rows, p, id) {
      var k :| 0 <= k < |items| && e.stableId(items[k].identity) == id;
      assert id in Ids(e, items);
    }
  }

  ghost predicate HasId(e: Engine, rows: seq<Row>, p: nat, id: Id) {
    p <= |rows| && exists k ::
      0 <= k < |ItemsOf(e.snapshot(rows[..p]))| && e.stableId(ItemsOf(e.snapshot(rows[..p]))[k].identity) == id
  }
}
