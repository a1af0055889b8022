/** The mail-slot dispatcher: which notices are queued for a session, slot and recipient over a whole run of
    dispatches. Times are microseconds since an epoch in Shanghai local time; slots are minutes of the day. */
module Mail {
  import opened Common

  const MINUTE := 60_000_000
  const DAY := 24 * 60 * MINUTE
  const LATE_AFTER := 10 * MINUTE
  const EOD_SLOT := 18 * 60

  const MAIL_SLOTS: seq<nat> := [11 * 60 + 40, 14 * 60 + 30, 14 * 60 + 45, 18 * 60]

  datatype Kind = Normal | Late | Status | Eod

  /** The identity under which a notice is queued at most once. */
  datatype Event = Event(session: int, slot: nat, kind: Kind, recipient: string)

  /** What the dispatcher finds for a slot: nothing delivered yet, a delivery that cannot be read or does not
      build a digest, or a delivery with a digest. */
  datatype Material = NotReady | Unreadable | Unqualified | Ready

  function SessionOf(now: int): int { now / DAY }

  function Planned(session: int, slot: nat): int { session * DAY + slot * MINUTE }

  function BaseKind(slot: nat): Kind { if slot == EOD_SLOT then Eod else Normal }

  /** The notice, if any, that one round of the slot loop queues. */
  function Decide(queue: set<Event>, now: int, slot: nat, material: Material, recipient: string): Option<Kind> {
    var session := SessionOf(now);
    var planned := Planned(session, slot);
    var base := BaseKind(slot);
    if now < planned || Event(session, slot, base, recipient) in queue then None
    else
      var kind := if base == Normal && now > planned + LATE_AFTER then Late else base;
      var found := material == Unqualified || material == Ready;
      if found && Event(session, slot, kind, recipient) in queue then None
      else if material == Ready then Some(kind)
      else
        var deadline := if slot == EOD_SLOT then planned else planned + LATE_AFTER;
        if now < deadline || Event(session, slot, Status, recipient) in queue then None else Some(Status)
  }

  /** One dispatch: a time, a recipient, what it finds for each slot, and how many slots it gets through before
      an error or a crash ends it. */
  datatype Dispatch = Dispatch(now: int, recipient: string, materials: seq<Material>, rounds: nat)

  function Round(queue: set<Event>, d: Dispatch, slot: nat, material: Material): set<Event> {
    match Decide(queue, d.now, slot, material, d.recipient)
    case None => queue
    case Some(kind) => queue + {Event(SessionOf(d.now), slot, kind, d.recipient)}
  }

  /** The queue after the first `n` slots of a dispatch. */
  function Rounds(queue: set<Event>, d: Dispatch, slots: seq<nat>, n: nat): set<Event>
    requires n <= |slots| && |d.materials| == |slots|
  {
    if n == 0 then queue else Round(Rounds(queue, d, slots, n - 1), d, slots[n - 1], d.materials[n - 1])
  }

  predicate ValidDispatch(d: Dispatch, slots: seq<nat>) {
    |d.materials| == |slots| && d.rounds <= |slots|
  }

  // ---------------------------------------------------------------- the code

  /** The durable queue with the dispatcher's lock held. */
  class Dispatcher {
    var queue: set<Event>

    constructor ()
      ensures queue == {}
    {
      queue := {};
    }

    /** The slot loop: the queue grows by what each round decides on the queue as it then is, and the queued
        notices are reported in order. */
    method Run(d: Dispatch, slots: seq<nat>) returns (notices: seq<Event>)
      requires ValidDispatch(d, slots)
      modifies this
      ensures queue == Rounds(old(queue), d, slots, d.rounds)
      ensures queue == old(queue) + set e | e in notices
      ensures forall i, j :: 0 <= i < j < |notices| ==> notices[i] != notices[j]
      ensures forall e :: e in notices ==> e !in old(queue)
    {
      notices := [];
      var i := 0;
      while i < d.rounds
        invariant 0 <= i <= d.rounds
        invariant queue == Rounds(old(queue), d, slots, i)
        invariant queue == old(queue) + set e | e in notices
        invariant forall i, j :: 0 <= i < j < |notices| ==> notices[i] != notices[j]
        invariant forall e :: e in notices ==> e !in old(queue)
      {
        var decided := Decide(queue, d.now, slots[i], d.materials[i], d.recipient);
        if decided.Some? {
          var event := Event(SessionOf(d.now), slots[i], decided.value, d.recipient);
          queue := queue + {event};
          notices := notices + [event];
        }
        i := i + 1;
      }
    }
  }

  // ---------------------------------------------------------------- runs

  /** The queue after a series of dispatches on an initially empty queue. */
  ghost function Queued(ds: seq<Dispatch>, slots: seq<nat>): set<Event>
    requires forall i :: 0 <= i < |ds| ==> ValidDispatch(ds[i], slots)
  {
    if ds == [] then {}
    else
      var d := ds[|ds| - 1];
      assert ValidDispatch(d, slots);
      Rounds(Queued(ds[..|ds| - 1], slots), d, slots, d.rounds)
  }

  /** Dispatches of valid shape whose times never go back, in the order in which they hold the lock. Each takes its
      time before it asks for the lock, so this is more than a clock that never goes back. */
  ghost predicate IsRun(ds: seq<Dispatch>, slots: seq<nat>) {
    && (forall i :: 0 <= i < |ds| ==> ValidDispatch(ds[i], slots))
    && (forall i, j :: 0 <= i < j < |ds| ==> ds[i].now <= ds[j].now)
  }

  ghost predicate DistinctSlots(slots: seq<nat>) {
    forall i, j :: 0 <= i < j < |slots| ==> slots[i] != slots[j]
  }

  ghost predicate Has(queue: set<Event>, session: int, slot: nat, kind: Kind, recipient: string) {
    Event(session, slot, kind, recipient) in queue
  }

  /** The allowed notices: for 18:00 status and end-of-day, for the others a single normal notice or a subset
      of status and late. */
  ghost predicate Allowed(queue: set<Event>, session: int, slot: nat, recipient: string) {
    if slot == EOD_SLOT then
      !Has(queue, session, slot, Normal, recipient) && !Has(queue, session, slot, Late, recipient)
    else
      && !Has(queue, session, slot, Eod, recipient)
      && (Has(queue, session, slot, Normal, recipient) ==>
            !Has(queue, session, slot, Late, recipient) && !Has(queue, session, slot, Status, recipient))
  }

  // ---------------------------------------------------------------- what one dispatch does to one slot

  /** The dispatch gets to the slot, for this session and recipient, and finds this material. */
  ghost predicate Finds(
    d: Dispatch, slots: seq<nat>, session: int, slot: nat, recipient: string, material: Material)
  {
    && SessionOf(d.now) == session && d.recipient == recipient
    && exists k :: 0 <= k < d.rounds && k < |slots| && k < |d.materials|
                   && slots[k] == slot && d.materials[k] == material
  }

  lemma {:induction false} RoundsElsewhere(
    queue: set<Event>, d: Dispatch, slots: seq<nat>, n: nat, session: int, slot: nat, recipient: string)
    requires n <= |slots| && |d.materials| == |slots|
    requires slot !in slots[..n] || SessionOf(d.now) != session || d.recipient != recipient
    ensures forall kind :: Has(Rounds(queue, d, slots, n), session, slot, kind, recipient)
                      <==> Has(queue, session, slot, kind, recipient)
  {
    if n > 0 {
      assert slots[..n] == slots[..n - 1] + [slots[n - 1]];
      RoundsElsewhere(queue, d, slots, n - 1, session, slot, recipient);
    }
  }

  /** The notices of a slot change by what the slot's own round decides, whatever the other rounds do. */
  lemma {:induction false} OwnRound(
    queue: set<Event>, d: Dispatch, slots: seq<nat>, n: nat, k: nat, slot: nat)
    requires |d.materials| == |slots| && DistinctSlots(slots) && k < n <= |slots| && slots[k] == slot
    ensures forall kind ::
              Has(Rounds(queue, d, slots, n), SessionOf(d.now), slot, kind, d.recipient) <==>
                || Has(queue, SessionOf(d.now), slot, kind, d.recipient)
                || Decide(queue, d.now, slot, d.materials[k], d.recipient) == Some(kind)
    decreases n
  {
    var session, before := SessionOf(d.now), Rounds(queue, d, slots, n - 1);
    if n - 1 == k {
      assert slot !in slots[..k];
      RoundsElsewhere(queue, d, slots, k, session, slot, d.recipient);
      assert forall kind :: Has(before, session, slot, kind, d.recipient) <==>
                            Has(queue, session, slot, kind, d.recipient);
      SameDecision(before, queue, d, slot, d.materials[k]);
    } else {
      OwnRound(queue, d, slots, n - 1, k, slot);
      assert slots[n - 1] != slot;
    }
  }

  lemma {:induction false} SameDecision(a: set<Event>, b: set<Event>, d: Dispatch, slot: nat, material: Material)
    requires forall kind :: Has(a, SessionOf(d.now), slot, kind, d.recipient) <==>
                            Has(b, SessionOf(d.now), slot, kind, d.recipient)
    ensures Decide(a, d.now, slot, material, d.recipient) == Decide(b, d.now, slot, material, d.recipient)
  {
    var session := SessionOf(d.now);
    assert forall kind :: Event(session, slot, kind, d.recipient) in a <==> Has(a, session, slot, kind, d.recipient);
    assert forall kind :: Event(session, slot, kind, d.recipient) in b <==> Has(b, session, slot, kind, d.recipient);
  }

  function Limit(session: int, slot: nat): int { Planned(session, slot) + LATE_AFTER }

  /** The dispatch finds a digest in the slot's first ten minutes. */
  ghost predicate FindsInTime(d: Dispatch, slots: seq<nat>, session: int, slot: nat, recipient: string) {
    && Finds(d, slots, session, slot, recipient, Ready)
    && Planned(session, slot) <= d.now <= Limit(session, slot)
  }

  /** The dispatch finds a digest after that. */
  ghost predicate FindsLate(d: Dispatch, slots: seq<nat>, session: int, slot: nat, recipient: string) {
    Finds(d, slots, session, slot, recipient, Ready) && Limit(session, slot) < d.now
  }

  /** The dispatch gets to the slot ten minutes after it, or later, and finds no digest. A delivery that does not
      build a digest is passed over once a late notice is queued (`late`). */
  ghost predicate Misses(
    d: Dispatch, slots: seq<nat>, session: int, slot: nat, recipient: string, late: bool)
  {
    && Limit(session, slot) <= d.now
    && exists m :: m != Ready && Finds(d, slots, session, slot, recipient, m)
                   && !(m == Unqualified && late && Limit(session, slot) < d.now)
  }

  /** What a dispatch queues for a slot before 18:00, in terms of what it finds: a normal notice from a digest in
      time, a late one from a digest after that, a status notice from a miss; nothing after a normal notice. */
  ghost predicate Queues(
    before: set<Event>, after: set<Event>, d: Dispatch, slots: seq<nat>, session: int, slot: nat, recipient: string)
  {
    var normal := Has(before, session, slot, Normal, recipient);
    var late := Has(before, session, slot, Late, recipient);
    && (Has(after, session, slot, Normal, recipient) <==>
          normal || FindsInTime(d, slots, session, slot, recipient))
    && (Has(after, session, slot, Late, recipient) <==>
          late || (!normal && FindsLate(d, slots, session, slot, recipient)))
    && (Has(after, session, slot, Status, recipient) <==>
          || Has(before, session, slot, Status, recipient)
          || (!normal && Misses(d, slots, session, slot, recipient, late)))
    && (Has(after, session, slot, Eod, recipient) <==> Has(before, session, slot, Eod, recipient))
  }

  lemma {:induction false} DispatchQueues(
    queue: set<Event>, d: Dispatch, slots: seq<nat>, session: int, slot: nat, recipient: string)
    requires ValidDispatch(d, slots) && DistinctSlots(slots) && slot != EOD_SLOT
    ensures Queues(queue, Rounds(queue, d, slots, d.rounds), d, slots, session, slot, recipient)
  {
    if SessionOf(d.now) == session && d.recipient == recipient && slot in slots[..d.rounds] {
      var k :| 0 <= k < d.rounds && slots[k] == slot;
      OwnRound(queue, d, slots, d.rounds, k, slot);
      assert Finds(d, slots, session, slot, recipient, d.materials[k]);
      assert forall j :: 0 <= j < d.rounds && slots[j] == slot ==> j == k;
    } else {
      RoundsElsewhere(queue, d, slots, d.rounds, session, slot, recipient);
      assert forall k :: 0 <= k < d.rounds ==> slots[k] in slots[..d.rounds];
    }
  }

  /** The dispatch gets to the 18:00 slot from 18:00 on and finds a digest, or finds none. */
  ghost predicate FindsEod(d: Dispatch, slots: seq<nat>, session: int, recipient: string) {
    Finds(d, slots, session, EOD_SLOT, recipient, Ready) && Planned(session, EOD_SLOT) <= d.now
  }

  ghost predicate MissesEod(d: Dispatch, slots: seq<nat>, session: int, recipient: string) {
    && Planned(session, EOD_SLOT) <= d.now
    && exists m :: m != Ready && Finds(d, slots, session, EOD_SLOT, recipient, m)
  }

  /** What a dispatch queues for 18:00: the end-of-day notice from a digest, a status notice from a miss; nothing
      after the end-of-day notice. */
  ghost predicate QueuesEod(
    before: set<Event>, after: set<Event>, d: Dispatch, slots: seq<nat>, session: int, recipient: string)
  {
    var eod := Has(before, session, EOD_SLOT, Eod, recipient);
    && (Has(after, session, EOD_SLOT, Eod, recipient) <==> eod || FindsEod(d, slots, session, recipient))
    && (Has(after, session, EOD_SLOT, Status, recipient) <==>
          || Has(before, session, EOD_SLOT, Status, recipient)
          || (!eod && MissesEod(d, slots, session, recipient)))
    && (Has(after, session, EOD_SLOT, Normal, recipient) <==> Has(before, session, EOD_SLOT, Normal, recipient))
    && (Has(after, session, EOD_SLOT, Late, recipient) <==> Has(before, session, EOD_SLOT, Late, recipient))
  }

  lemma {:induction false} DispatchQueuesEod(
    queue: set<Event>, d: Dispatch, slots: seq<nat>, session: int, recipient: string)
    requires ValidDispatch(d, slots) && DistinctSlots(slots)
    ensures QueuesEod(queue, Rounds(queue, d, slots, d.rounds), d, slots, session, recipient)
  {
    if SessionOf(d.now) == session && d.recipient == recipient && EOD_SLOT in slots[..d.rounds] {
      var k :| 0 <= k < d.rounds && slots[k] == EOD_SLOT;
      OwnRound(queue, d, slots, d.rounds, k, EOD_SLOT);
      assert Finds(d, slots, session, EOD_SLOT, recipient, d.materials[k]);
      assert forall j :: 0 <= j < d.rounds && slots[j] == EOD_SLOT ==> j == k;
    } else {
      RoundsElsewhere(queue, d, slots, d.rounds, session, EOD_SLOT, recipient);
      assert forall k :: 0 <= k < d.rounds ==> slots[k] in slots[..d.rounds];
    }
  }

  // ---------------------------------------------------------------- whole runs

  ghost predicate Valids(ds: seq<Dispatch>, slots: seq<nat>) {
    forall i :: 0 <= i < |ds| ==> ValidDispatch(ds[i], slots)
  }

  /** Some dispatch finds a digest for the slot in time. */
  ghost predicate FoundInTime(ds: seq<Dispatch>, slots: seq<nat>, session: int, slot: nat, recipient: string) {
    exists l :: 0 <= l < |ds| && FindsInTime(ds[l], slots, session, slot, recipient)
  }

  /** Dispatch `i` finds a digest late, with none found in time before it. */
  ghost predicate LateAt(ds: seq<Dispatch>, slots: seq<nat>, session: int, slot: nat, recipient: string, i: int) {
    && 0 <= i < |ds| && FindsLate(ds[i], slots, session, slot, recipient)
    && !FoundInTime(ds[..i], slots, session, slot, recipient)
  }

  ghost predicate FoundLate(ds: seq<Dispatch>, slots: seq<nat>, session: int, slot: nat, recipient: string) {
    exists i :: LateAt(ds, slots, session, slot, recipient, i)
  }

  /** Dispatch `i` misses the slot, with no digest found in time before it. */
  ghost predicate MissedAt(ds: seq<Dispatch>, slots: seq<nat>, session: int, slot: nat, recipient: string, i: int) {
    && 0 <= i < |ds| && !FoundInTime(ds[..i], slots, session, slot, recipient)
    && Misses(ds[i], slots, session, slot, recipient, FoundLate(ds[..i], slots, session, slot, recipient))
  }

  ghost predicate Missed(ds: seq<Dispatch>, slots: seq<nat>, session: int, slot: nat, recipient: string) {
    exists i :: MissedAt(ds, slots, session, slot, recipient, i)
  }

  /** Where the notices of a slot before 18:00 come from. */
  ghost predicate Explained(ds: seq<Dispatch>, slots: seq<nat>, session: int, slot: nat, recipient: string)
    requires Valids(ds, slots)
  {
    var queue := Queued(ds, slots);
    && (Has(queue, session, slot, Normal, recipient) <==> FoundInTime(ds, slots, session, slot, recipient))
    && (Has(queue, session, slot, Late, recipient) <==> FoundLate(ds, slots, session, slot, recipient))
    && (Has(queue, session, slot, Status, recipient) <==> Missed(ds, slots, session, slot, recipient))
    && !Has(queue, session, slot, Eod, recipient)
  }

  /** Whatever the order of times, each notice of a slot is queued exactly when some dispatch calls for it. */
  lemma {:induction false} NoticesExplained(
    ds: seq<Dispatch>, slots: seq<nat>, session: int, slot: nat, recipient: string)
    requires Valids(ds, slots) && DistinctSlots(slots) && slot != EOD_SLOT
    ensures Explained(ds, slots, session, slot, recipient)
  {
    if ds != [] {
      var front, d := ds[..|ds| - 1], ds[|ds| - 1];
      NoticesExplained(front, slots, session, slot, recipient);
      DispatchQueues(Queued(front, slots), d, slots, session, slot, recipient);
      LateOn(ds, slots, session, slot, recipient);
      MissedOn(ds, slots, session, slot, recipient);
    }
  }

  lemma {:induction false} LateOn(ds: seq<Dispatch>, slots: seq<nat>, session: int, slot: nat, recipient: string)
    requires ds != []
    ensures var front := ds[..|ds| - 1];
            FoundLate(ds, slots, session, slot, recipient) <==>
              || FoundLate(front, slots, session, slot, recipient)
              || (FindsLate(ds[|ds| - 1], slots, session, slot, recipient)
                  && !FoundInTime(front, slots, session, slot, recipient))
  {
    var front, n := ds[..|ds| - 1], |ds| - 1;
    forall i | 0 <= i < n
      ensures LateAt(front, slots, session, slot, recipient, i) <==> LateAt(ds, slots, session, slot, recipient, i)
    {
      assert front[i] == ds[i] && front[..i] == ds[..i];
    }
    assert LateAt(ds, slots, session, slot, recipient, n) <==>
             FindsLate(ds[n], slots, session, slot, recipient)
             && !FoundInTime(front, slots, session, slot, recipient);
    if FoundLate(ds, slots, session, slot, recipient) {
      var i :| LateAt(ds, slots, session, slot, recipient, i);
      assert i < n ==> LateAt(front, slots, session, slot, recipient, i);
    }
    if FoundLate(front, slots, session, slot, recipient) {
      var i :| LateAt(front, slots, session, slot, recipient, i);
      assert LateAt(ds, slots, session, slot, recipient, i);
    }
  }

  lemma {:induction false} MissedOn(ds: seq<Dispatch>, slots: seq<nat>, session: int, slot: nat, recipient: string)
    requires ds != []
    ensures var front := ds[..|ds| - 1];
            Missed(ds, slots, session, slot, recipient) <==>
              || Missed(front, slots, session, slot, recipient)
              || (!FoundInTime(front, slots, session, slot, recipient)
                  && Misses(ds[|ds| - 1], slots, session, slot, recipient,
                            FoundLate(front, slots, session, slot, recipient)))
  {
    var front, n := ds[..|ds| - 1], |ds| - 1;
    forall i | 0 <= i < n
      ensures MissedAt(front, slots, session, slot, recipient, i)
         <==> MissedAt(ds, slots, session, slot, recipient, i)
    {
      assert front[i] == ds[i] && front[..i] == ds[..i];
    }
    assert ds[..n] == front;
    if Missed(ds, slots, session, slot, recipient) {
      var i :| MissedAt(ds, slots, session, slot, recipient, i);
      assert i < n ==> MissedAt(front, slots, session, slot, recipient, i);
    }
    if Missed(front, slots, session, slot, recipient) {
      var i :| MissedAt(front, slots, session, slot, recipient, i);
      assert MissedAt(ds, slots, session, slot, recipient, i);
    }
    if MissedAt(ds, slots, session, slot, recipient, n) {
      assert Missed(ds, slots, session, slot, recipient);
    }
  }

  /** Dispatch `i` gets to the slot overdue: it finds a digest after the limit or none from the limit on, and none
      was found in time before it. */
  ghost predicate OverdueAt(
    ds: seq<Dispatch>, slots: seq<nat>, session: int, slot: nat, recipient: string, i: int)
  {
    && 0 <= i < |ds| && !FoundInTime(ds[..i], slots, session, slot, recipient)
    && (FindsLate(ds[i], slots, session, slot, recipient) || Misses(ds[i], slots, session, slot, recipient, false))
  }

  lemma {:induction false} OverdueIff(ds: seq<Dispatch>, slots: seq<nat>, session: int, slot: nat, recipient: string)
    requires Valids(ds, slots)
    ensures FoundLate(ds, slots, session, slot, recipient) || Missed(ds, slots, session, slot, recipient)
       <==> exists i :: OverdueAt(ds, slots, session, slot, recipient, i)
  {
    if FoundLate(ds, slots, session, slot, recipient) {
      var i :| LateAt(ds, slots, session, slot, recipient, i);
      assert OverdueAt(ds, slots, session, slot, recipient, i);
    }
    if Missed(ds, slots, session, slot, recipient) {
      var i :| MissedAt(ds, slots, session, slot, recipient, i);
      assert OverdueAt(ds, slots, session, slot, recipient, i);
    }
    if i :| OverdueAt(ds, slots, session, slot, recipient, i) {
      if FindsLate(ds[i], slots, session, slot, recipient) {
        assert LateAt(ds, slots, session, slot, recipient, i);
      } else if FoundLate(ds[..i], slots, session, slot, recipient) {
        var j :| LateAt(ds[..i], slots, session, slot, recipient, j);
        assert ds[..i][..j] == ds[..j];
        assert LateAt(ds, slots, session, slot, recipient, j);
      } else {
        assert MissedAt(ds, slots, session, slot, recipient, i);
      }
    }
  }

  /** The exact condition, for any order of times, any arrival of data, any errors, crashes and restarts: the notices
      ever queued for one session, slot before 18:00 and recipient are a single normal one or a subset of status and
      late, if and only if no dispatch gets to the slot overdue before one that finds a digest in time. Each notice
      occurs at most once, since an event is queued only when it is not in the queue. */
  lemma {:induction false} AllowedIffNoneOverdueBefore(
    ds: seq<Dispatch>, slots: seq<nat>, session: int, slot: nat, recipient: string)
    requires Valids(ds, slots) && DistinctSlots(slots) && slot != EOD_SLOT
    ensures Allowed(Queued(ds, slots), session, slot, recipient) <==>
              !(FoundInTime(ds, slots, session, slot, recipient)
                && exists i :: OverdueAt(ds, slots, session, slot, recipient, i))
  {
    NoticesExplained(ds, slots, session, slot, recipient);
    OverdueIff(ds, slots, session, slot, recipient);
  }

  /** Two dispatches at the one instant ten minutes after the slot, of which the first finds no digest, with none
      found in time before it, and the second finds one. */
  ghost predicate MixesAt(
    ds: seq<Dispatch>, slots: seq<nat>, session: int, slot: nat, recipient: string, i: int, j: int)
  {
    && OverdueAt(ds, slots, session, slot, recipient, i)
    && i < j < |ds| && FindsInTime(ds[j], slots, session, slot, recipient)
    && ds[i].now == ds[j].now == Limit(session, slot)
  }

  ghost predicate Mixes(ds: seq<Dispatch>, slots: seq<nat>, session: int, slot: nat, recipient: string) {
    exists i, j :: MixesAt(ds, slots, session, slot, recipient, i, j)
  }

  /** When times never go back in lock order, that leaves one case: two dispatches at that instant. */
  lemma {:induction false} AllowedIffNotMixed(
    ds: seq<Dispatch>, slots: seq<nat>, session: int, slot: nat, recipient: string)
    requires IsRun(ds, slots) && DistinctSlots(slots) && slot != EOD_SLOT
    ensures Allowed(Queued(ds, slots), session, slot, recipient) <==> !Mixes(ds, slots, session, slot, recipient)
  {
    AllowedIffNoneOverdueBefore(ds, slots, session, slot, recipient);
    if FoundInTime(ds, slots, session, slot, recipient) {
      var l :| 0 <= l < |ds| && FindsInTime(ds[l], slots, session, slot, recipient);
      if i :| OverdueAt(ds, slots, session, slot, recipient, i) {
        FoundAfterOverdue(ds, slots, session, slot, recipient, l, i);
        assert MixesAt(ds, slots, session, slot, recipient, i, l);
      }
    }
    if i, j :| MixesAt(ds, slots, session, slot, recipient, i, j) {
      assert FoundInTime(ds, slots, session, slot, recipient);
    }
  }

  lemma {:induction false} FoundAfterOverdue(
    ds: seq<Dispatch>, slots: seq<nat>, session: int, slot: nat, recipient: string, l: nat, i: nat)
    requires IsRun(ds, slots) && DistinctSlots(slots)
    requires OverdueAt(ds, slots, session, slot, recipient, i)
    requires l < |ds| && FindsInTime(ds[l], slots, session, slot, recipient)
    ensures i < l && ds[i].now == ds[l].now == Limit(session, slot)
  {
    assert forall k :: 0 <= k < i ==> ds[..i][k] == ds[k];
  }

  ghost predicate FoundEod(ds: seq<Dispatch>, slots: seq<nat>, session: int, recipient: string) {
    exists l :: 0 <= l < |ds| && FindsEod(ds[l], slots, session, recipient)
  }

  ghost predicate MissedEodAt(ds: seq<Dispatch>, slots: seq<nat>, session: int, recipient: string, i: int) {
    && 0 <= i < |ds| && MissesEod(ds[i], slots, session, recipient)
    && !FoundEod(ds[..i], slots, session, recipient)
  }

  /** For 18:00, whatever the order of times: the end-of-day notice is queued exactly when some dispatch finds a digest
      from 18:00 on, a status notice exactly when some dispatch finds none with no digest found before it, and no
      other notice ever. */
  lemma {:induction false} EndOfDayNotices(ds: seq<Dispatch>, slots: seq<nat>, session: int, recipient: string)
    requires Valids(ds, slots) && DistinctSlots(slots)
    ensures var queue := Queued(ds, slots);
            && (Has(queue, session, EOD_SLOT, Eod, recipient) <==> FoundEod(ds, slots, session, recipient))
            && (Has(queue, session, EOD_SLOT, Status, recipient) <==>
                  exists i :: MissedEodAt(ds, slots, session, recipient, i))
            && Allowed(queue, session, EOD_SLOT, recipient)
  {
    if ds != [] {
      var front, d := ds[..|ds| - 1], ds[|ds| - 1];
      EndOfDayNotices(front, slots, session, recipient);
      DispatchQueuesEod(Queued(front, slots), d, slots, session, recipient);
      EodOn(ds, slots, session, recipient);
    }
  }

  lemma {:induction false} EodOn(ds: seq<Dispatch>, slots: seq<nat>, session: int, recipient: string)
    requires ds != []
    ensures var front, d := ds[..|ds| - 1], ds[|ds| - 1];
            && (FoundEod(ds, slots, session, recipient) <==>
                  FoundEod(front, slots, session, recipient) || FindsEod(d, slots, session, recipient))
            && ((exists i :: MissedEodAt(ds, slots, session, recipient, i)) <==>
                  || (exists i :: MissedEodAt(front, slots, session, recipient, i))
                  || (!FoundEod(front, slots, session, recipient) && MissesEod(d, slots, session, recipient)))
  {
    var front, n := ds[..|ds| - 1], |ds| - 1;
    assert ds[..n] == front;
    forall i | 0 <= i < n
      ensures FindsEod(front[i], slots, session, recipient) <==> FindsEod(ds[i], slots, session, recipient)
      ensures MissedEodAt(front, slots, session, recipient, i) <==> MissedEodAt(ds, slots, session, recipient, i)
    {
      assert front[i] == ds[i] && front[..i] == ds[..i];
    }
    if l :| 0 <= l < |ds| && FindsEod(ds[l], slots, session, recipient) {
      assert l < n ==> FindsEod(front[l], slots, session, recipient);
    }
    if i :| MissedEodAt(ds, slots, session, recipient, i) {
      assert i < n ==> MissedEodAt(front, slots, session, recipient, i);
    }
    if i :| MissedEodAt(front, slots, session, recipient, i) {
      assert MissedEodAt(ds, slots, session, recipient, i);
    }
    assert MissedEodAt(ds, slots, session, recipient, n) <==>
             MissesEod(ds[n], slots, session, recipient) && !FoundEod(front, slots, session, recipient);
  }

  /** When times never go back in lock order and no two dispatches fall on the one instant ten minutes after the slot,
      only allowed notices are ever queued; in particular when times strictly increase in that order. */
  lemma {:induction false} OnlyAllowedNotices(
    ds: seq<Dispatch>, slots: seq<nat>, session: int, slot: nat, recipient: string)
    requires IsRun(ds, slots) && DistinctSlots(slots)
    requires forall i, j :: 0 <= i < j < |ds| ==>
               !(ds[i].now == ds[j].now == Limit(session, slot))
    ensures Allowed(Queued(ds, slots), session, slot, recipient)
  {
    if slot == EOD_SLOT {
      EndOfDayNotices(ds, slots, session, recipient);
    } else {
      AllowedIffNotMixed(ds, slots, session, slot, recipient);
    }
  }

  /** The four mail slots qualify. */
  lemma {:induction false} MailSlotsKept(ds: seq<Dispatch>, session: int, slot: nat, recipient: string)
    requires IsRun(ds, MAIL_SLOTS) && slot in MAIL_SLOTS
    requires forall i, j :: 0 <= i < j < |ds| ==> ds[i].now < ds[j].now
    ensures Allowed(Queued(ds, MAIL_SLOTS), session, slot, recipient)
  {
    OnlyAllowedNotices(ds, MAIL_SLOTS, session, slot, recipient);
  }

  /** After the end-of-day notice of a session nothing more is queued for its 18:00 slot, and after the normal
      notice of another slot nothing more is queued for that slot. */
  lemma {:induction false} NothingAfterBase(
    queue: set<Event>, d: Dispatch, slots: seq<nat>, n: nat, session: int, slot: nat, kind: Kind, recipient: string)
    requires n <= |slots| && |d.materials| == |slots|
    requires Has(queue, session, slot, BaseKind(slot), recipient)
    ensures Has(Rounds(queue, d, slots, n), session, slot, kind, recipient)
       <==> Has(queue, session, slot, kind, recipient)
  {
    if n > 0 {
      NothingAfterBase(queue, d, slots, n - 1, session, slot, kind, recipient);
      NothingAfterBase(queue, d, slots, n - 1, session, slot, BaseKind(slot), recipient);
    }
  }

  /** Two dispatches at the same instant can break the promise: exactly ten minutes after the slot, the first
      finds no data and the second does. */
  lemma {:induction false} EqualTimesMayMix(session: int, slot: nat, recipient: string)
    requires slot != EOD_SLOT && slot < 23 * 60
    ensures var now := Planned(session, slot) + LATE_AFTER;
            var first := Rounds({}, Dispatch(now, recipient, [NotReady], 1), [slot], 1);
            var second := Rounds(first, Dispatch(now, recipient, [Ready], 1), [slot], 1);
            Has(second, session, slot, Status, recipient) && Has(second, session, slot, Normal, recipient)
  {
    var now := Planned(session, slot) + LATE_AFTER;
    assert SessionOf(now) == session;
    var a, b := Dispatch(now, recipient, [NotReady], 1), Dispatch(now, recipient, [Ready], 1);
    assert Rounds({}, a, [slot], 0) == {};
    var first := Rounds({}, a, [slot], 1);
    assert first == {Event(session, slot, Status, recipient)};
    assert Rounds(first, b, [slot], 0) == first;
  }

  /** Two dispatches that take the lock in the other order can break it too: the later one, without data, runs
      first, and the earlier one, which finds a digest in time, runs second. */
  lemma {:induction false} LockOrderMayMix(session: int, slot: nat, recipient: string)
    requires slot != EOD_SLOT && slot < 23 * 60
    ensures var limit := Limit(session, slot);
            var first := Rounds({}, Dispatch(limit + 1, recipient, [NotReady], 1), [slot], 1);
            var second := Rounds(first, Dispatch(limit - 1, recipient, [Ready], 1), [slot], 1);
            Has(second, session, slot, Status, recipient) && Has(second, session, slot, Normal, recipient)
  {
    var limit := Limit(session, slot);
    assert SessionOf(limit + 1) == session && SessionOf(limit - 1) == session;
    var a, b := Dispatch(limit + 1, recipient, [NotReady], 1), Dispatch(limit - 1, recipient, [Ready], 1);
    assert Rounds({}, a, [slot], 0) == {};
    var first := Rounds({}, a, [slot], 1);
    assert first == {Event(session, slot, Status, recipient)};
    assert Rounds(first, b, [slot], 0) == first;
  }

  /** The decisions of one day, told by the clock (in microseconds of day 0): the 11:40 notice is normal up to 11:50:00
      and late after that, its status is due from 11:50:00 on, and 18:00 has its end-of-day notice and its status from
      18:00:00 on. */
  lemma {:induction false} DecisionsByTheClock(recipient: string)
    ensures Decide({}, 41_999_999_999, 700, Ready, recipient) == None
    ensures Decide({}, 42_000_000_000, 700, Ready, recipient) == Some(Normal)
    ensures Decide({}, 42_600_000_000, 700, Ready, recipient) == Some(Normal)
    ensures Decide({}, 42_600_000_001, 700, Ready, recipient) == Some(Late)
    ensures Decide({}, 42_599_999_999, 700, NotReady, recipient) == None
    ensures Decide({}, 42_600_000_000, 700, NotReady, recipient) == Some(Status)
    ensures Decide({}, 64_799_999_999, 1080, Ready, recipient) == None
    ensures Decide({}, 64_800_000_000, 1080, Ready, recipient) == Some(Eod)
    ensures Decide({}, 64_800_000_000, 1080, Unreadable, recipient) == Some(Status)
    ensures SessionOf(86_399_999_999) == 0 && SessionOf(86_400_000_000) == 1
  {
  }
}
