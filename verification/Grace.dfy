/** `decision_board_due_slot_with_grace`: short scheduler delays are coalesced to the latest recent slot. Times
    are microseconds of the Shanghai day, slots are minutes of that day. */
module Grace {
  import opened Common

  const SECOND := 1_000_000
  const MINUTE := 60 * SECOND
  const GRACE_SECONDS := 180

  const SLOT_TIMES: seq<nat> := [
    9 * 60 + 30, 10 * 60 + 30, 11 * 60 + 30, 13 * 60, 13 * 60 + 30, 14 * 60,
    14 * 60 + 30, 14 * 60 + 40, 14 * 60 + 50, 14 * 60 + 52, 14 * 60 + 54, 14 * 60 + 56, 14 * 60 + 58, 15 * 60
  ]

  /** A slot is open from its minute on, for that minute and for the grace period if there is one. */
  ghost predicate Open(slots: seq<nat>, grace: int, t: nat, slot: nat) {
    && slot in slots && slot * MINUTE <= t
    && (t < (slot + 1) * MINUTE || (0 < grace && t - slot * MINUTE <= grace * SECOND))
  }

  ghost predicate InGrace(grace: int, t: nat, slot: nat) { 0 <= t - slot * MINUTE <= grace * SECOND }

  lemma {:induction false} OpenIffInGrace(slots: seq<nat>, grace: int, t: nat, slot: nat)
    requires 0 < grace && t / MINUTE !in slots
    ensures Open(slots, grace, t, slot) <==> slot in slots && InGrace(grace, t, slot)
  {
    if slot * MINUTE <= t < (slot + 1) * MINUTE {
      assert slot == t / MINUTE;
    }
  }

  /** The latest open slot. */
  ghost predicate Latest(slots: seq<nat>, grace: int, t: nat, slot: nat) {
    Open(slots, grace, t, slot) && forall other: nat :: Open(slots, grace, t, other) ==> other <= slot
  }

  /** `decision_board_due_slot`: the slot of the current minute. */
  function ExactSlot(slots: seq<nat>, t: nat, tradeDay: bool, weekday: nat): Option<nat> {
    if tradeDay && weekday < 5 && t / MINUTE in slots then Some(t / MINUTE) else None
  }

  /** The latest open slot of a weekday trade day, and nothing on other days. */
  method DueSlotWithGrace(slots: seq<nat>, t: nat, tradeDay: bool, weekday: nat, grace: int)
    returns (due: Option<nat>)
    ensures due.Some? ==> tradeDay && weekday < 5 && Latest(slots, grace, t, due.value)
    ensures due.None? && tradeDay && weekday < 5 ==> forall slot: nat :: !Open(slots, grace, t, slot)
  {
    var exact := ExactSlot(slots, t, tradeDay, weekday);
    if exact != None || !tradeDay || grace <= 0 {
      return exact;
    }
    if weekday >= 5 {
      return None;
    }
    var candidates: seq<nat> := [];
    var i := 0;
    while i < |slots|
      invariant 0 <= i <= |slots|
      invariant forall slot: nat :: slot in candidates <==> slot in slots[..i] && InGrace(grace, t, slot)
    {
      var lag := t - slots[i] * MINUTE;
      assert slots[..i + 1] == slots[..i] + [slots[i]];
      if 0 <= lag <= grace * SECOND {
        candidates := candidates + [slots[i]];
      }
      i := i + 1;
    }
    assert slots[..i] == slots;
    forall slot: nat
      ensures Open(slots, grace, t, slot) <==> slot in candidates
    {
      OpenIffInGrace(slots, grace, t, slot);
    }
    if candidates == [] {
      return None;
    }
    var selected := Max(candidates);
    return Some(selected);
  }

  method Max(values: seq<nat>) returns (m: nat)
    requires values != []
    ensures m in values && forall v :: v in values ==> v <= m
  {
    m := values[0];
    var i := 1;
    while i < |values|
      invariant 1 <= i <= |values|
      invariant m in values && forall j :: 0 <= j < i ==> values[j] <= m
    {
      if values[i] > m {
        m := values[i];
      }
      i := i + 1;
    }
  }

  // ---------------------------------------------------------------- runs of ticks

  /** Ticks of one day: never backwards, never further apart than the grace period. */
  ghost predicate Steady(grace: int, ticks: seq<nat>) {
    forall i :: 0 < i < |ticks| ==> ticks[i - 1] <= ticks[i] <= ticks[i - 1] + grace * SECOND
  }

  /** Later ticks never select earlier slots. */
  lemma {:induction false} NeverBackwards(
    slots: seq<nat>, grace: int, t: nat, u: nat, slot: nat, later: nat)
    requires t <= u && Latest(slots, grace, t, slot) && Latest(slots, grace, u, later)
    ensures slot <= later
  {
    if later <= slot {
      assert later * MINUTE <= slot * MINUTE;
      assert Open(slots, grace, u, slot);
    }
  }

  /** Some slot is the latest whenever one is open. */
  lemma {:induction false} SomeLatest(slots: seq<nat>, grace: int, t: nat, slot: nat) returns (latest: nat)
    requires Open(slots, grace, t, slot)
    ensures slot <= latest && Latest(slots, grace, t, latest)
    decreases t - slot * MINUTE
  {
    if other: nat :| Open(slots, grace, t, other) && slot < other {
      assert slot * MINUTE < other * MINUTE;
      latest := SomeLatest(slots, grace, t, other);
    } else {
      latest := slot;
    }
  }

  /** No slot is lost: if the ticks start before the slot's grace period is over and reach the slot, then some
      tick within the grace period selects the slot or a later one that supersedes it. */
  lemma {:induction false} NoSlotLost(slots: seq<nat>, grace: int, ticks: seq<nat>, slot: nat)
    returns (i: nat, selected: nat)
    requires 0 < grace && slot in slots && ticks != [] && Steady(grace, ticks)
    requires ticks[0] <= slot * MINUTE + grace * SECOND && slot * MINUTE <= ticks[|ticks| - 1]
    ensures i < |ticks| && slot * MINUTE <= ticks[i] <= slot * MINUTE + grace * SECOND
    ensures slot <= selected && Latest(slots, grace, ticks[i], selected)
    decreases |ticks|
  {
    var n := |ticks| - 1;
    if n > 0 && slot * MINUTE <= ticks[n - 1] {
      var front := ticks[..n];
      assert forall j :: 0 <= j < n ==> front[j] == ticks[j];
      i, selected := NoSlotLost(slots, grace, front, slot);
    } else {
      i := n;
      assert Open(slots, grace, ticks[n], slot);
      selected := SomeLatest(slots, grace, ticks[n], slot);
    }
  }

  /** In particular no board slot is lost to ticks at most three minutes apart (times in microseconds). */
  lemma {:induction false} NoBoardSlotLost(ticks: seq<nat>, slot: nat) returns (i: nat, selected: nat)
    requires slot in SLOT_TIMES && ticks != []
    requires forall i :: 0 < i < |ticks| ==> ticks[i - 1] <= ticks[i] <= ticks[i - 1] + 180_000_000
    requires ticks[0] <= slot * 60_000_000 + 180_000_000 && slot * 60_000_000 <= ticks[|ticks| - 1]
    ensures i < |ticks| && slot * 60_000_000 <= ticks[i] <= slot * 60_000_000 + 180_000_000
    ensures slot <= selected && Latest(SLOT_TIMES, GRACE_SECONDS, ticks[i], selected)
  {
    i, selected := NoSlotLost(SLOT_TIMES, GRACE_SECONDS, ticks, slot);
  }
}
