/** What `build_history` observes at every cutoff: the dictionary of structures of the snapshot, the view of it
    that is recorded, and the preimages that go into the collision maps. */
module ObservedSnapshots {
  import opened Common
  import opened Collisions
  import opened Revisions
  import opened PrefixLedger

  /** An entry of a dictionary in insertion order. */
  datatype Slot = Slot(key: Id, item: Item)

  ghost predicate UniqueSlots(d: seq<Slot>) {
    forall i, j :: 0 <= i < j < |d| ==> d[i].key != d[j].key
  }

  function IndexOf(d: seq<Slot>, key: Id): (i: nat)
    ensures i <= |d| && (i < |d| ==> d[i].key == key)
    ensures forall j :: 0 <= j < i ==> d[j].key != key
  {
    if d == [] || d[0].key == key then 0
    else
      var rest := IndexOf(d[1..], key);
      assert forall j :: 0 < j < rest + 1 ==> d[j] == d[1..][j - 1];
      rest + 1
  }

  /** `d[key] = item`: in place when the key is present, at the end otherwise. */
  function Put(d: seq<Slot>, key: Id, item: Item): seq<Slot> {
    var i := IndexOf(d, key);
    if i < |d| then d[i := Slot(key, item)] else d + [Slot(key, item)]
  }

  /** The dictionary comprehension over the structures of a snapshot: later structures win. */
  function Current(e: Engine, items: seq<Item>): seq<Slot> {
    if items == [] then []
    else
      var item := items[|items| - 1];
      Put(Current(e, items[..|items| - 1]), e.structureKey(item.identity), item)
  }

  lemma {:induction false} CurrentUnique(e: Engine, items: seq<Item>)
    ensures UniqueSlots(Current(e, items))
  {
    if items != [] {
      CurrentUnique(e, items[..|items| - 1]);
    }
  }

  function PayloadOf(item: Item): Payload { Payload(item.geometry, item.engineState) }

  function RevisionOf(observation: Id, s: Slot): RevisionPreimage {
    RevisionPreimage(observation, s.key, PayloadOf(s.item))
  }

  function EntryOf(e: Engine, observation: Id, s: Slot): Entry {
    Entry(s.key, e.payloadHash(PayloadOf(s.item)), e.revision(RevisionOf(observation, s)))
  }

  function ViewOf(e: Engine, observation: Id, d: seq<Slot>): (v: seq<Entry>)
    ensures |v| == |d| && forall i :: 0 <= i < |d| ==> v[i] == EntryOf(e, observation, d[i])
  {
    seq(|d|, i requires 0 <= i < |d| => EntryOf(e, observation, d[i]))
  }

  /** The preimage of the observation identifier at a cutoff. */
  function ObservationAt(e: Engine, rows: seq<Row>, cutoff: nat): ObservationPreimage {
    ObservationPreimage(cutoff, e.inputHash(Prefix(rows, cutoff)))
  }

  /** What is recorded of a dictionary of structures. */
  function ObservedOf(e: Engine, o: ObservationPreimage, d: seq<Slot>): Observed {
    Observed(o.cutoff, e.observation(o), ViewOf(e, e.observation(o), d))
  }

  /** The structures that the snapshot at a cutoff shows, and those that its dictionary keeps. */
  ghost function ItemsAt(e: Engine, rows: seq<Row>, cutoff: nat): seq<Item> {
    ItemsOf(SnapshotAt(e, rows, cutoff))
  }

  ghost function KeptAt(e: Engine, rows: seq<Row>, cutoff: nat): seq<Slot> {
    Current(e, ItemsAt(e, rows, cutoff))
  }

  ghost function ObservedAt(e: Engine, rows: seq<Row>, cutoff: nat): Observed {
    ObservedOf(e, ObservationAt(e, rows, cutoff), KeptAt(e, rows, cutoff))
  }

  /** How many cutoffs there are: one for every prefix that is long enough. */
  function Cutoffs(rows: seq<Row>): nat {
    if |rows| < MIN_PREFIX then 0 else |rows| - MIN_PREFIX + 1
  }

  /** What is observed at the first `n` cutoffs. */
  ghost function Observations(e: Engine, rows: seq<Row>, n: nat): (obs: seq<Observed>)
    ensures |obs| == n && forall i :: 0 <= i < n ==> obs[i] == ObservedAt(e, rows, MIN_PREFIX + i)
  {
    seq(n, i requires 0 <= i < n => ObservedAt(e, rows, MIN_PREFIX + i))
  }

  lemma {:induction false} ObservationsUnique(e: Engine, rows: seq<Row>, n: nat)
    ensures AllUnique(Observations(e, rows, n))
  {
    forall i | 0 <= i < n
      ensures Unique(Observations(e, rows, n)[i].view)
    {
      ObservedUnique(e, rows, MIN_PREFIX + i);
    }
  }

  /** All observations of a history. */
  ghost function AllObservations(e: Engine, rows: seq<Row>): seq<Observed> {
    Observations(e, rows, Cutoffs(rows))
  }

  lemma {:induction false} ObservedUnique(e: Engine, rows: seq<Row>, cutoff: nat)
    ensures Unique(ObservedAt(e, rows, cutoff).view)
  {
    CurrentUnique(e, ItemsAt(e, rows, cutoff));
  }

  lemma {:induction false} ObservedExtend(e: Engine, rows: seq<Row>, more: seq<Row>, cutoff: nat)
    requires cutoff <= |rows|
    ensures ObservedAt(e, rows + more, cutoff) == ObservedAt(e, rows, cutoff)
  {
    SamePrefix(rows, more, cutoff);
  }

  lemma {:induction false} ObservationsExtend(e: Engine, rows: seq<Row>, more: seq<Row>)
    ensures AllObservations(e, rows) <= AllObservations(e, rows + more)
  {
    forall i | 0 <= i < Cutoffs(rows)
      ensures AllObservations(e, rows + more)[i] == AllObservations(e, rows)[i]
    {
      ObservedExtend(e, rows, more, MIN_PREFIX + i);
    }
  }

  // ---------------------------------------------------------------- what the dictionary keeps

  /** The last structure of a snapshot with the key. */
  ghost function LastWith(e: Engine, items: seq<Item>, key: Id): Option<Item> {
    if items == [] then None
    else if e.structureKey(items[|items| - 1].identity) == key then Some(items[|items| - 1])
    else LastWith(e, items[..|items| - 1], key)
  }

  /** There is such a structure whenever the snapshot shows the key. */
  lemma {:induction false} LastWithShown(e: Engine, items: seq<Item>, key: Id)
    ensures LastWith(e, items, key).Some? <==>
              exists i :: 0 <= i < |items| && e.structureKey(items[i].identity) == key
  {
    if items != [] {
      var front := items[..|items| - 1];
      LastWithShown(e, front, key);
      if i :| 0 <= i < |front| && e.structureKey(front[i].identity) == key {
        assert items[i] == front[i];
      }
      if i :| 0 <= i < |items| && e.structureKey(items[i].identity) == key && i < |front| {
        assert front[i] == items[i];
      }
    }
  }

  lemma {:induction false} PutHas(d: seq<Slot>, key: Id, item: Item, s: Slot)
    requires UniqueSlots(d)
    ensures s in Put(d, key, item) <==> s == Slot(key, item) || (s in d && s.key != key)
  {
    var i, longer := IndexOf(d, key), Put(d, key, item);
    if s in longer {
      var j :| 0 <= j < |longer| && longer[j] == s;
      assert j < |d| && j != i ==> d[j] == s;
    }
    if s in d && s.key != key {
      var j :| 0 <= j < |d| && d[j] == s;
      assert longer[j] == s;
    }
    assert longer[i] == Slot(key, item);
  }

  /** The dictionary keeps exactly the last structure of every key. */
  lemma {:induction false} KeptIsLast(e: Engine, items: seq<Item>, s: Slot)
    ensures s in Current(e, items) <==> LastWith(e, items, s.key) == Some(s.item)
  {
    if items != [] {
      var front, item := items[..|items| - 1], items[|items| - 1];
      KeptIsLast(e, front, s);
      CurrentUnique(e, front);
      PutHas(Current(e, front), e.structureKey(item.identity), item, s);
    }
  }

  /** The keys of a snapshot in the order in which they first occur. */
  ghost function FirstKeys(e: Engine, items: seq<Item>): seq<Id> {
    if items == [] then []
    else
      var front, key := FirstKeys(e, items[..|items| - 1]), e.structureKey(items[|items| - 1].identity);
      if key in front then front else front + [key]
  }

  /** And keeps them in that order. */
  lemma {:induction false} KeptInOrder(e: Engine, items: seq<Item>)
    ensures var d, keys := Current(e, items), FirstKeys(e, items);
            |d| == |keys| && forall i :: 0 <= i < |d| ==> d[i].key == keys[i]
  {
    if items != [] {
      var front, item := items[..|items| - 1], items[|items| - 1];
      KeptInOrder(e, front);
      var d, keys, key := Current(e, front), FirstKeys(e, front), e.structureKey(item.identity);
      if key in keys {
        var i :| 0 <= i < |keys| && keys[i] == key;
        assert d[i].key == key;
      }
    }
  }

  /** What is recorded at a cutoff: for every key the last structure that has it, with the digests of its payload and of
      its revision under the cutoff's observation. */
  lemma {:induction false} ViewShowsLast(e: Engine, rows: seq<Row>, c: nat, entry: Entry)
    requires c <= |rows|
    ensures var o := e.observation(ObservationPreimage(c, e.inputHash(rows[..c])));
            && ObservedAt(e, rows, c).cutoff == c && ObservedAt(e, rows, c).observation == o
            && (entry in ObservedAt(e, rows, c).view <==>
                  var last := LastWith(e, ItemsOf(e.snapshot(rows[..c])), entry.key);
                  && last.Some?
                  && var payload := Payload(last.value.geometry, last.value.engineState);
                     && entry.hash == e.payloadHash(payload)
                     && entry.revision == e.revision(RevisionPreimage(o, entry.key, payload)))
  {
    var items, d, o := ItemsAt(e, rows, c), KeptAt(e, rows, c), e.observation(ObservationAt(e, rows, c));
    var view := ObservedAt(e, rows, c).view;
    if entry in view {
      var i :| 0 <= i < |view| && view[i] == entry;
      KeptIsLast(e, items, d[i]);
    }
    var last := LastWith(e, items, entry.key);
    if last.Some? {
      var s := Slot(entry.key, last.value);
      KeptIsLast(e, items, s);
      var i :| 0 <= i < |d| && d[i] == s;
      assert view[i] == EntryOf(e, o, s);
    }
  }

  // ---------------------------------------------------------------- the collision maps

  function KeyPairs(d: seq<Slot>): seq<(Id, Identity)> {
    seq(|d|, i requires 0 <= i < |d| => (d[i].key, d[i].item.identity))
  }

  function RevisionPairs(e: Engine, observation: Id, d: seq<Slot>): seq<(Id, RevisionPreimage)> {
    seq(|d|, i requires 0 <= i < |d| => (e.revision(RevisionOf(observation, d[i])), RevisionOf(observation, d[i])))
  }

  /** What the first `n` cutoffs add to the map of structure keys. */
  ghost function StructuresAdded(e: Engine, rows: seq<Row>, n: nat): seq<(Id, Identity)> {
    if n == 0 then []
    else StructuresAdded(e, rows, n - 1) + KeyPairs(KeptAt(e, rows, MIN_PREFIX + n - 1))
  }

  ghost function ObservationsAdded(e: Engine, rows: seq<Row>, n: nat): seq<(Id, ObservationPreimage)> {
    if n == 0 then []
    else
      var o := ObservationAt(e, rows, MIN_PREFIX + n - 1);
      ObservationsAdded(e, rows, n - 1) + [(e.observation(o), o)]
  }

  ghost function RevisionsAdded(e: Engine, rows: seq<Row>, n: nat): seq<(Id, RevisionPreimage)> {
    if n == 0 then []
    else
      var cutoff := MIN_PREFIX + n - 1;
      RevisionsAdded(e, rows, n - 1)
      + RevisionPairs(e, e.observation(ObservationAt(e, rows, cutoff)), KeptAt(e, rows, cutoff))
  }

  /** The cutoffs of a history. */
  ghost predicate IsCutoff(rows: seq<Row>, c: nat) { MIN_PREFIX <= c <= |rows| }

  /** The last structure with the key at a cutoff has this identity. */
  ghost predicate Shown(e: Engine, rows: seq<Row>, c: nat, key: Id, identity: Identity) {
    var last := LastWith(e, ItemsAt(e, rows, c), key);
    last.Some? && last.value.identity == identity
  }

  lemma {:induction false} KeyPairsHave(e: Engine, rows: seq<Row>, c: nat, key: Id, identity: Identity)
    ensures (key, identity) in KeyPairs(KeptAt(e, rows, c)) <==> Shown(e, rows, c, key, identity)
  {
    var items, d := ItemsAt(e, rows, c), KeptAt(e, rows, c);
    if (key, identity) in KeyPairs(d) {
      var i :| 0 <= i < |d| && KeyPairs(d)[i] == (key, identity);
      KeptIsLast(e, items, d[i]);
    }
    if Shown(e, rows, c, key, identity) {
      var s := Slot(key, LastWith(e, items, key).value);
      KeptIsLast(e, items, s);
      var i :| 0 <= i < |d| && d[i] == s;
      assert KeyPairs(d)[i] == (key, identity);
    }
  }

  /** Some cutoff before `end` shows the key with this identity last. */
  ghost predicate ShownBefore(e: Engine, rows: seq<Row>, end: nat, key: Id, identity: Identity) {
    exists c :: MIN_PREFIX <= c < end && c <= |rows| && Shown(e, rows, c, key, identity)
  }

  lemma {:induction false} StructuresAddedHave(e: Engine, rows: seq<Row>, n: nat, key: Id, identity: Identity)
    requires n <= Cutoffs(rows)
    ensures (key, identity) in StructuresAdded(e, rows, n) <==>
              ShownBefore(e, rows, MIN_PREFIX + n, key, identity)
  {
    if n > 0 {
      var last := MIN_PREFIX + n - 1;
      StructuresAddedHave(e, rows, n - 1, key, identity);
      KeyPairsHave(e, rows, last, key, identity);
      assert StructuresAdded(e, rows, n) == StructuresAdded(e, rows, n - 1) + KeyPairs(KeptAt(e, rows, last));
    }
  }

  ghost function StructureCollisions(e: Engine, rows: seq<Row>): set<Id> {
    Colliding(Collect(StructuresAdded(e, rows, Cutoffs(rows))))
  }

  /** A structure key is counted if and only if two cutoffs keep different identities for it. */
  lemma {:induction false} StructureCountedIff(e: Engine, rows: seq<Row>, key: Id)
    ensures key in StructureCollisions(e, rows) <==>
              exists c, d, a, b :: IsCutoff(rows, c) && IsCutoff(rows, d) && a != b
                                   && Shown(e, rows, c, key, a) && Shown(e, rows, d, key, b)
  {
    var pairs := StructuresAdded(e, rows, Cutoffs(rows));
    CountedIff(pairs, key);
    if a, b :| (key, a) in pairs && (key, b) in pairs && a != b {
      StructuresAddedHave(e, rows, Cutoffs(rows), key, a);
      StructuresAddedHave(e, rows, Cutoffs(rows), key, b);
    }
    if c, d, a, b :| IsCutoff(rows, c) && IsCutoff(rows, d) && a != b
                     && Shown(e, rows, c, key, a) && Shown(e, rows, d, key, b) {
      StructuresAddedHave(e, rows, Cutoffs(rows), key, a);
      StructuresAddedHave(e, rows, Cutoffs(rows), key, b);
    }
  }

  /** Two structures of one snapshot share the key and differ in identity. */
  ghost predicate CollidesAt(e: Engine, rows: seq<Row>, c: nat, key: Id) {
    var items := ItemsAt(e, rows, c);
    exists i, j :: 0 <= i < j < |items| && e.structureKey(items[i].identity) == key
                   && e.structureKey(items[j].identity) == key && items[i].identity != items[j].identity
  }

  /** A collision inside one snapshot is missed if and only if every cutoff that shows the key shows the same
      identity last: the dictionary of a snapshot drops the others before the checker sees them. */
  lemma {:induction false} CollisionMissedIff(e: Engine, rows: seq<Row>, c: nat, key: Id)
    requires IsCutoff(rows, c) && CollidesAt(e, rows, c, key)
    ensures LastWith(e, ItemsAt(e, rows, c), key).Some?
    ensures key !in StructureCollisions(e, rows) <==>
              forall d, b :: IsCutoff(rows, d) && Shown(e, rows, d, key, b) ==>
                b == LastWith(e, ItemsAt(e, rows, c), key).value.identity
  {
    LastWithShown(e, ItemsAt(e, rows, c), key);
    var a := LastWith(e, ItemsAt(e, rows, c), key).value.identity;
    assert Shown(e, rows, c, key, a);
    StructureCountedIff(e, rows, key);
  }

  /** The same collision is missed when both cutoffs show the two structures in one order, and counted when they
      show them in different orders. */
  lemma {:induction false} OrderDecides(e: Engine, rows: seq<Row>, a: Item, b: Item)
    requires |rows| == MIN_PREFIX + 1
    requires a.identity != b.identity && e.structureKey(a.identity) == e.structureKey(b.identity)
    requires SnapshotAt(e, rows, MIN_PREFIX) == Ok([a, b])
    ensures SnapshotAt(e, rows, MIN_PREFIX + 1) == Ok([a, b]) ==>
              e.structureKey(a.identity) !in StructureCollisions(e, rows)
    ensures SnapshotAt(e, rows, MIN_PREFIX + 1) == Ok([b, a]) ==>
              e.structureKey(a.identity) in StructureCollisions(e, rows)
  {
    var key := e.structureKey(a.identity);
    StructureCountedIff(e, rows, key);
    assert LastWith(e, [a, b], key) == Some(b) && LastWith(e, [b, a], key) == Some(a);
    assert Shown(e, rows, MIN_PREFIX, key, b.identity);
    if SnapshotAt(e, rows, MIN_PREFIX + 1) == Ok([b, a]) {
      assert Shown(e, rows, MIN_PREFIX + 1, key, a.identity);
    }
  }

  /** With a single cutoff every structure collision is missed. */
  lemma {:induction false} SingleCutoffCountsNone(e: Engine, rows: seq<Row>)
    requires |rows| == 20
    ensures StructureCollisions(e, rows) == {}
  {
    forall key
      ensures key !in StructureCollisions(e, rows)
    {
      StructureCountedIff(e, rows, key);
    }
  }

  /** The observation at this cutoff has the identifier. */
  ghost predicate ObservedUnder(e: Engine, rows: seq<Row>, c: nat, id: Id) {
    IsCutoff(rows, c) && e.observation(ObservationAt(e, rows, c)) == id
  }

  /** The identifier of an observation is counted if and only if it is that of two cutoffs. */
  lemma {:induction false} ObservationCountedIff(e: Engine, rows: seq<Row>, id: Id)
    ensures id in Colliding(Collect(ObservationsAdded(e, rows, Cutoffs(rows)))) <==>
              exists c, d :: c != d && ObservedUnder(e, rows, c, id) && ObservedUnder(e, rows, d, id)
  {
    var pairs := ObservationsAdded(e, rows, Cutoffs(rows));
    forall o: ObservationPreimage
      ensures (id, o) in pairs <==> ObservedUnder(e, rows, o.cutoff, id) && o == ObservationAt(e, rows, o.cutoff)
    {
      ObservationsAddedHave(e, rows, Cutoffs(rows), id, o);
    }
    CountedIff(pairs, id);
    if id in Colliding(Collect(pairs)) {
      var v: ObservationPreimage, w: ObservationPreimage :| (id, v) in pairs && (id, w) in pairs && v != w;
      assert v.cutoff != w.cutoff;
    }
    if c, d :| c != d && ObservedUnder(e, rows, c, id) && ObservedUnder(e, rows, d, id) {
      assert (id, ObservationAt(e, rows, c)) in pairs && (id, ObservationAt(e, rows, d)) in pairs;
    }
  }

  lemma {:induction false} ObservationsAddedHave(
    e: Engine, rows: seq<Row>, n: nat, id: Id, o: ObservationPreimage)
    requires n <= Cutoffs(rows)
    ensures (id, o) in ObservationsAdded(e, rows, n) <==>
              && MIN_PREFIX <= o.cutoff < MIN_PREFIX + n && o.cutoff <= |rows|
              && o == ObservationAt(e, rows, o.cutoff) && e.observation(o) == id
  {
    if n > 0 {
      ObservationsAddedHave(e, rows, n - 1, id, o);
    }
  }

  /** Some cutoff records this revision: of the last structure with the key, under the cutoff's observation. */
  ghost predicate RevisedAt(e: Engine, rows: seq<Row>, c: nat, v: RevisionPreimage) {
    var last := LastWith(e, ItemsAt(e, rows, c), v.key);
    && v.observation == e.observation(ObservationAt(e, rows, c))
    && last.Some? && PayloadOf(last.value) == v.payload
  }

  ghost predicate RevisedBefore(e: Engine, rows: seq<Row>, end: nat, v: RevisionPreimage) {
    exists c :: MIN_PREFIX <= c < end && c <= |rows| && RevisedAt(e, rows, c, v)
  }

  lemma {:induction false} RevisionPairsHave(e: Engine, rows: seq<Row>, c: nat, id: Id, v: RevisionPreimage)
    ensures (id, v) in RevisionPairs(e, e.observation(ObservationAt(e, rows, c)), KeptAt(e, rows, c)) <==>
              e.revision(v) == id && RevisedAt(e, rows, c, v)
  {
    var items, d, o := ItemsAt(e, rows, c), KeptAt(e, rows, c), e.observation(ObservationAt(e, rows, c));
    var pairs := RevisionPairs(e, o, d);
    if (id, v) in pairs {
      var i :| 0 <= i < |d| && pairs[i] == (id, v);
      KeptIsLast(e, items, d[i]);
    }
    if e.revision(v) == id && RevisedAt(e, rows, c, v) {
      var s := Slot(v.key, LastWith(e, items, v.key).value);
      KeptIsLast(e, items, s);
      var i :| 0 <= i < |d| && d[i] == s;
      assert pairs[i] == (id, v);
    }
  }

  lemma {:induction false} RevisionsAddedHave(e: Engine, rows: seq<Row>, n: nat, id: Id, v: RevisionPreimage)
    requires n <= Cutoffs(rows)
    ensures (id, v) in RevisionsAdded(e, rows, n) <==>
              e.revision(v) == id && RevisedBefore(e, rows, MIN_PREFIX + n, v)
  {
    if n > 0 {
      var last := MIN_PREFIX + n - 1;
      RevisionsAddedHave(e, rows, n - 1, id, v);
      RevisionPairsHave(e, rows, last, id, v);
      RevisedBeforeNext(e, rows, last, v);
      assert RevisionsAdded(e, rows, n) ==
               RevisionsAdded(e, rows, n - 1)
               + RevisionPairs(e, e.observation(ObservationAt(e, rows, last)), KeptAt(e, rows, last));
    }
  }

  lemma {:induction false} RevisedBeforeNext(e: Engine, rows: seq<Row>, end: nat, v: RevisionPreimage)
    requires MIN_PREFIX <= end <= |rows|
    ensures RevisedBefore(e, rows, end + 1, v) <==> RevisedBefore(e, rows, end, v) || RevisedAt(e, rows, end, v)
  {
  }

  /** A revision identifier is counted if and only if it is that of two different revisions of the history. */
  lemma {:induction false} RevisionCountedIff(e: Engine, rows: seq<Row>, id: Id)
    ensures id in Colliding(Collect(RevisionsAdded(e, rows, Cutoffs(rows)))) <==>
              exists v, w :: v != w && Revised(e, rows, id, v) && Revised(e, rows, id, w)
  {
    var pairs := RevisionsAdded(e, rows, Cutoffs(rows));
    forall v: RevisionPreimage
      ensures (id, v) in pairs <==> Revised(e, rows, id, v)
    {
      RevisionsAddedHave(e, rows, Cutoffs(rows), id, v);
    }
    CountedIff(pairs, id);
  }

  /** Some cutoff of the history records this revision under the identifier. */
  ghost predicate Revised(e: Engine, rows: seq<Row>, id: Id, v: RevisionPreimage) {
    e.revision(v) == id && exists c :: IsCutoff(rows, c) && RevisedAt(e, rows, c, v)
  }
}
