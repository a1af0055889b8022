/** The login limiter: deques of recent failures per key in a bounded dictionary, and the plain event log that
    they stand for. Times are real numbers. */
module Throttle {
  type Key = string

  datatype Event = Failure(key: Key, at: real) | Success(key: Key)

  // ---------------------------------------------------------------- the event log

  /** The times of the key's failures since its last success, oldest first. */
  ghost function Failures(log: seq<Event>, key: Key): seq<real> {
    if log == [] then []
    else
      var e := log[|log| - 1];
      var before := Failures(log[..|log| - 1], key);
      if e.key != key then before
      else if e.Success? then []
      else before + [e.at]
  }

  /** The number of times that lie inside the window. */
  ghost function Recent(times: seq<real>, now: real, window: real): nat {
    if times == [] then 0
    else Recent(times[1..], now, window) + if now - times[0] < window then 1 else 0
  }

  /** What the log says: too many failures since the last success, inside the window. */
  ghost predicate LogLimits(log: seq<Event>, key: Key, now: real, window: real, max: int) {
    Recent(Failures(log, key), now, window) >= max
  }

  ghost predicate Sorted(times: seq<real>) {
    forall i, j :: 0 <= i < j < |times| ==> times[i] <= times[j]
  }

  // ---------------------------------------------------------------- windows

  /** `_discard_expired`: pop from the left while the oldest time is outside the window. */
  function Trim(times: seq<real>, now: real, window: real): seq<real> {
    if times != [] && now - times[0] >= window then Trim(times[1..], now, window) else times
  }

  lemma {:induction false} TrimDrops(times: seq<real>, now: real, window: real) returns (k: nat)
    ensures k <= |times| && Trim(times, now, window) == times[k..]
    ensures k < |times| ==> now - times[k] < window
    ensures forall i :: 0 <= i < k ==> now - times[i] >= window
  {
    if times != [] && now - times[0] >= window {
      k := TrimDrops(times[1..], now, window);
      assert times[1..][k..] == times[k + 1..];
      assert forall i :: 0 < i < k + 1 ==> times[i] == times[1..][i - 1];
      k := k + 1;
    } else {
      k := 0;
    }
  }

  method DiscardExpired(times: seq<real>, now: real, window: real) returns (r: seq<real>)
    ensures r == Trim(times, now, window)
  {
    r := times;
    while r != [] && now - r[0] >= window
      invariant Trim(r, now, window) == Trim(times, now, window)
      decreases |r|
    {
      r := r[1..];
    }
  }

  lemma {:induction false} RecentOfFresh(times: seq<real>, now: real, window: real)
    requires forall i :: 0 <= i < |times| ==> now - times[i] < window
    ensures Recent(times, now, window) == |times|
  {
    if times != [] {
      RecentOfFresh(times[1..], now, window);
    }
  }

  lemma {:induction false} RecentSuffix(times: seq<real>, k: nat, now: real, window: real)
    requires k <= |times|
    ensures Recent(times[k..], now, window) <= Recent(times, now, window)
    ensures (forall i :: 0 <= i < k ==> now - times[i] >= window) ==>
              Recent(times[k..], now, window) == Recent(times, now, window)
    decreases k
  {
    if k > 0 {
      RecentSuffix(times[1..], k - 1, now, window);
      assert times[1..][k - 1..] == times[k..];
    }
  }

  /** On times in order, trimming leaves exactly the recent ones. */
  lemma {:induction false} TrimIsRecent(times: seq<real>, now: real, window: real)
    requires Sorted(times)
    ensures |Trim(times, now, window)| == Recent(times, now, window)
  {
    var k := TrimDrops(times, now, window);
    RecentSuffix(times, k, now, window);
    assert forall i :: 0 <= i < |times| - k ==> times[k..][i] == times[k + i];
    RecentOfFresh(times[k..], now, window);
  }

  // ---------------------------------------------------------------- the limiter

  /** `deque` is what is left of the log's failures: a suffix of them. Unless something was evicted, what is
      missing has left the window by time `now`. */
  ghost predicate Tracks(deque: seq<real>, times: seq<real>, whole: bool, now: real, window: real) {
    && |deque| <= |times| && deque == times[|times| - |deque|..]
    && (whole ==> forall i :: 0 <= i < |times| - |deque| ==> now - times[i] >= window)
  }

  ghost predicate InOrder(log: seq<Event>, clock: real) {
    && (forall i, j :: 0 <= i < j < |log| && log[i].Failure? && log[j].Failure? ==> log[i].at <= log[j].at)
    && (forall i :: 0 <= i < |log| && log[i].Failure? ==> log[i].at <= clock)
  }

  lemma {:induction false} FailuresInOrder(log: seq<Event>, clock: real, key: Key)
    requires InOrder(log, clock)
    ensures Sorted(Failures(log, key))
    ensures forall i :: 0 <= i < |Failures(log, key)| ==> Failures(log, key)[i] <= clock
  {
    if log != [] {
      var front, e := log[..|log| - 1], log[|log| - 1];
      FailuresInOrder(front, if e.Failure? then e.at else clock, key);
    }
  }

  /** The sequence without the one occurrence of `key`. */
  function Without(keys: seq<Key>, key: Key): (r: seq<Key>)
    requires forall i, j :: 0 <= i < j < |keys| ==> keys[i] != keys[j]
    ensures forall k :: k in r <==> k in keys && k != key
    ensures forall i, j :: 0 <= i < j < |r| ==> r[i] != r[j]
    ensures |r| <= |keys|
  {
    if keys == [] then []
    else if keys[0] == key then keys[1..]
    else
      var rest := Without(keys[1..], key);
      assert keys[0] !in rest;
      [keys[0]] + rest
  }

  /** What one more event does to the failures of every key. */
  lemma {:induction false} Logged(log: seq<Event>, e: Event)
    ensures forall k :: k != e.key ==> Failures(log + [e], k) == Failures(log, k)
    ensures Failures(log + [e], e.key) == if e.Success? then [] else Failures(log, e.key) + [e.at]
  {
    assert (log + [e])[..|log|] == log;
  }

  /** Trimming a tracked deque keeps it tracked. */
  lemma {:induction false} TrimTracks(deque: seq<real>, times: seq<real>, whole: bool, now: real, window: real)
    requires Tracks(deque, times, whole, now, window)
    ensures Tracks(Trim(deque, now, window), times, whole, now, window)
  {
    var k := TrimDrops(deque, now, window);
    var m := |times| - |deque|;
    assert deque[k..] == times[m + k..];
    if whole {
      forall i | 0 <= i < m + k
        ensures now - times[i] >= window
      {
        if i >= m {
          assert deque[i - m] == times[i];
        }
      }
    }
  }

  /** The trimmed length never exceeds what the log counts, and equals it when nothing was evicted. */
  lemma {:induction false} TrimCount(deque: seq<real>, times: seq<real>, whole: bool, now: real, window: real)
    requires Tracks(deque, times, whole, now, window) && Sorted(times)
    ensures |Trim(deque, now, window)| <= Recent(times, now, window)
    ensures whole ==> |Trim(deque, now, window)| == Recent(times, now, window)
  {
    var k := |times| - |deque|;
    assert forall i :: 0 <= i < |deque| ==> deque[i] == times[k + i];
    TrimIsRecent(deque, now, window);
    RecentSuffix(times, k, now, window);
  }

  /** One more failure, on the deque and on the log. */
  lemma {:induction false} AppendTracks(deque: seq<real>, times: seq<real>, whole: bool, now: real, window: real)
    requires Tracks(deque, times, whole, now, window)
    ensures Tracks(deque + [now], times + [now], whole, now, window)
  {
    var k := |times| - |deque|;
    assert (times + [now])[k..] == deque + [now];
  }

  /** The dictionary stands for the log. */
  ghost predicate StandsFor(
    attempts: map<Key, seq<real>>, log: seq<Event>, evicted: set<Key>, clock: real, window: real)
  {
    forall k :: KeyStands(attempts, log, evicted, clock, window, k)
  }

  ghost predicate KeyStands(
    attempts: map<Key, seq<real>>, log: seq<Event>, evicted: set<Key>, clock: real, window: real, k: Key)
  {
    if k in attempts then Tracks(attempts[k], Failures(log, k), k !in evicted, clock, window)
    else k in evicted || Failures(log, k) == []
  }

  lemma {:induction false} LaterStands(
    attempts: map<Key, seq<real>>, log: seq<Event>, evicted: set<Key>, clock: real, now: real, window: real)
    requires StandsFor(attempts, log, evicted, clock, window) && clock <= now
    ensures StandsFor(attempts, log, evicted, now, window)
  {
    forall k
      ensures KeyStands(attempts, log, evicted, now, window, k)
    {
      assert KeyStands(attempts, log, evicted, clock, window, k);
    }
  }

  lemma {:induction false} TrimmedStands(
    attempts: map<Key, seq<real>>, log: seq<Event>, evicted: set<Key>, now: real, window: real, key: Key)
    requires StandsFor(attempts, log, evicted, now, window) && key in attempts
    ensures StandsFor(attempts[key := Trim(attempts[key], now, window)], log, evicted, now, window)
  {
    var after := attempts[key := Trim(attempts[key], now, window)];
    assert KeyStands(attempts, log, evicted, now, window, key);
    TrimTracks(attempts[key], Failures(log, key), key !in evicted, now, window);
    forall k
      ensures KeyStands(after, log, evicted, now, window, k)
    {
      assert KeyStands(attempts, log, evicted, now, window, k);
    }
  }

  lemma {:induction false} NewDequeTracks(
    attempts: map<Key, seq<real>>, log: seq<Event>, evicted: set<Key>, now: real, window: real, key: Key)
    requires StandsFor(attempts, log, evicted, now, window)
    ensures Tracks(if key in attempts then attempts[key] else [], Failures(log, key), key !in evicted, now, window)
  {
    assert KeyStands(attempts, log, evicted, now, window, key);
    var times := Failures(log, key);
    assert times[|times|..] == [];
  }

  /** The deque of the key that failed. */
  lemma {:induction false} FailedKeyTracks(
    attempts: map<Key, seq<real>>, log: seq<Event>, evicted: set<Key>, now: real, window: real, key: Key)
    requires StandsFor(attempts, log, evicted, now, window)
    ensures var deque := if key in attempts then attempts[key] else [];
            Tracks(Trim(deque, now, window) + [now], Failures(log, key) + [now], key !in evicted, now, window)
  {
    var deque := if key in attempts then attempts[key] else [];
    NewDequeTracks(attempts, log, evicted, now, window, key);
    TrimTracks(deque, Failures(log, key), key !in evicted, now, window);
    AppendTracks(Trim(deque, now, window), Failures(log, key), key !in evicted, now, window);
  }

  /** One more failure, on the dictionary and on the log. */
  lemma {:induction false} FailureLogged(
    attempts: map<Key, seq<real>>, log: seq<Event>, evicted: set<Key>, clock: real, now: real, window: real,
    key: Key, kept: seq<real>)
    requires StandsFor(attempts, log, evicted, clock, window) && InOrder(log, clock) && clock <= now
    requires kept == Trim(if key in attempts then attempts[key] else [], now, window)
    ensures StandsFor(attempts[key := kept + [now]], log + [Failure(key, now)], evicted, now, window)
    ensures InOrder(log + [Failure(key, now)], now)
  {
    var after, longer := attempts[key := kept + [now]], log + [Failure(key, now)];
    LaterStands(attempts, log, evicted, clock, now, window);
    FailedKeyTracks(attempts, log, evicted, now, window, key);
    OrderKept(log, clock, Failure(key, now));
    Logged(log, Failure(key, now));
    forall k
      ensures KeyStands(after, longer, evicted, now, window, k)
    {
      assert KeyStands(attempts, log, evicted, now, window, k);
    }
  }

  lemma {:induction false} SuccessStands(
    attempts: map<Key, seq<real>>, log: seq<Event>, evicted: set<Key>, now: real, window: real, key: Key)
    requires StandsFor(attempts, log, evicted, now, window)
    ensures StandsFor(attempts - {key}, log + [Success(key)], evicted - {key}, now, window)
  {
    Logged(log, Success(key));
    forall k
      ensures KeyStands(attempts - {key}, log + [Success(key)], evicted - {key}, now, window, k)
    {
      assert KeyStands(attempts, log, evicted, now, window, k);
    }
  }

  /** On a log in which evictions wipe too, both stand. */
  lemma {:induction false} WipedStands(
    attempts: map<Key, seq<real>>, log: seq<Event>, now: real, window: real, key: Key)
    requires StandsFor(attempts, log, {}, now, window)
    ensures StandsFor(attempts - {key}, log + [Success(key)], {}, now, window)
  {
    var none: set<Key> := {};
    SuccessStands(attempts, log, none, now, window, key);
    assert none - {key} == none;
  }

  lemma {:induction false} EvictionStands(
    attempts: map<Key, seq<real>>, log: seq<Event>, evicted: set<Key>, now: real, window: real, key: Key)
    requires StandsFor(attempts, log, evicted, now, window)
    ensures StandsFor(attempts - {key}, log, evicted + {key}, now, window)
  {
    forall k
      ensures KeyStands(attempts - {key}, log, evicted + {key}, now, window, k)
    {
      assert KeyStands(attempts, log, evicted, now, window, k);
    }
  }

  lemma {:induction false} OrderKept(log: seq<Event>, clock: real, e: Event)
    requires InOrder(log, clock) && (e.Failure? ==> clock <= e.at)
    ensures InOrder(log + [e], if e.Failure? then e.at else clock)
  {
    var longer := log + [e];
    assert forall i :: 0 <= i < |log| ==> longer[i] == log[i];
  }

  class LoginThrottle {
    const maxEntries: nat
    const maxFailures: int
    const window: real
    var attempts: map<Key, seq<real>>
    /** The keys in insertion order. */
    var order: seq<Key>

    /** What has happened so far, the time of the latest call, and the keys that lost failures to an eviction
        since their last success. */
    ghost var log: seq<Event>
    ghost var clock: real
    ghost var evicted: set<Key>
    /** What the limiter remembers of it: the same log, in which an eviction wipes a key like a success. */
    ghost var remembered: seq<Event>

    ghost predicate Valid()
      reads this
    {
      && 1 <= maxEntries && |order| <= maxEntries
      && (forall k :: k in attempts <==> k in order)
      && (forall i, j :: 0 <= i < j < |order| ==> order[i] != order[j])
      && InOrder(log, clock)
      && StandsFor(attempts, log, evicted, clock, window)
      && InOrder(remembered, clock) && StandsFor(attempts, remembered, {}, clock, window)
    }

    constructor (maxEntries: nat, maxFailures: int, window: real, ghost start: real)
      requires 1 <= maxEntries
      ensures Valid() && log == remembered == [] && clock == start && evicted == {} && attempts == map[] && order == []
      ensures this.maxEntries == maxEntries && this.maxFailures == maxFailures && this.window == window
    {
      this.maxEntries, this.maxFailures, this.window := maxEntries, maxFailures, window;
      attempts, order, log, clock, evicted, remembered := map[], [], [], start, {}, [];
    }

    /** Limits a key exactly when its failures since its last success or eviction, inside the window, reach the
        maximum. So it never limits a key that the log would not limit; it misses one exactly when the failures
        that an eviction wiped are needed to reach the maximum; and without an eviction it misses none. */
    method IsLimited(key: Key, now: real) returns (limited: bool)
      requires Valid() && clock <= now
      modifies this
      ensures Valid() && log == old(log) && evicted == old(evicted) && order == old(order) && clock == now
      ensures remembered == old(remembered)
      ensures 1 <= maxFailures ==> limited == LogLimits(remembered, key, now, window, maxFailures)
      ensures 1 <= maxFailures ==>
                (limited != LogLimits(log, key, now, window, maxFailures) <==>
                 LogLimits(log, key, now, window, maxFailures)
                 && !LogLimits(remembered, key, now, window, maxFailures))
      ensures maxFailures < 1 ==> limited == (key in old(attempts))
      ensures limited ==> LogLimits(log, key, now, window, maxFailures)
      ensures key !in evicted && 1 <= maxFailures ==> limited == LogLimits(log, key, now, window, maxFailures)
      ensures key !in old(attempts) ==> !limited && attempts == old(attempts)
      ensures key in old(attempts) ==> attempts == old(attempts)[key := Trim(old(attempts)[key], now, window)]
    {
      LaterStands(attempts, log, evicted, clock, now, window);
      LaterStands(attempts, remembered, {}, clock, now, window);
      clock := now;
      assert KeyStands(attempts, log, evicted, now, window, key);
      assert KeyStands(attempts, remembered, {}, now, window, key);
      if key !in attempts {
        return false;
      }
      var kept := DiscardExpired(attempts[key], now, window);
      FailuresInOrder(log, now, key);
      FailuresInOrder(remembered, now, key);
      TrimCount(attempts[key], Failures(log, key), key !in evicted, now, window);
      TrimCount(attempts[key], Failures(remembered, key), true, now, window);
      TrimmedStands(attempts, log, evicted, now, window, key);
      TrimmedStands(attempts, remembered, {}, now, window, key);
      attempts := attempts[key := kept];
      return |kept| >= maxFailures;
    }

    /** The first key of the dictionary goes, with its failures. */
    method EvictOldest()
      requires Valid() && order != []
      modifies this
      ensures Valid() && log == old(log) && clock == old(clock)
      ensures order == old(order)[1..] && evicted == old(evicted) + {old(order)[0]}
      ensures attempts == old(attempts) - {old(order)[0]}
      ensures remembered == old(remembered) + [Success(old(order)[0])]
    {
      var oldest := order[0];
      EvictionStands(attempts, log, evicted, clock, window, oldest);
      WipedStands(attempts, remembered, clock, window, oldest);
      OrderKept(remembered, clock, Success(oldest));
      assert forall k :: k in order <==> k == oldest || k in order[1..];
      attempts := attempts - {oldest};
      order := order[1..];
      evicted := evicted + {oldest};
      remembered := remembered + [Success(oldest)];
    }

    /** A new key may push out the oldest one; the failure is appended to what is still in the window. */
    method RecordFailure(key: Key, now: real)
      requires Valid() && clock <= now
      modifies this
      ensures Valid() && clock == now && log == old(log) + [Failure(key, now)]
      ensures var full := key !in old(attempts) && |old(order)| >= maxEntries;
              && evicted == (if full then old(evicted) + {old(order)[0]} else old(evicted))
              && remembered == (if full then old(remembered) + [Success(old(order)[0])] else old(remembered))
                               + [Failure(key, now)]
              && order == (if key in old(attempts) then old(order)
                           else (if full then old(order)[1..] else old(order)) + [key])
    {
      if key !in attempts && |order| >= maxEntries {
        EvictOldest();
      }
      var deque := if key in attempts then attempts[key] else [];
      var kept := DiscardExpired(deque, now, window);
      FailureLogged(attempts, log, evicted, clock, now, window, key, kept);
      FailureLogged(attempts, remembered, {}, clock, now, window, key, kept);
      if key !in attempts {
        order := order + [key];
      }
      attempts := attempts[key := kept + [now]];
      log, remembered := log + [Failure(key, now)], remembered + [Failure(key, now)];
      clock := now;
    }

    method RecordSuccess(key: Key)
      requires Valid()
      modifies this
      ensures Valid() && clock == old(clock) && log == old(log) + [Success(key)]
      ensures evicted == old(evicted) - {key} && remembered == old(remembered) + [Success(key)]
      ensures attempts == old(attempts) - {key} && order == Without(old(order), key)
    {
      SuccessStands(attempts, log, evicted, clock, window, key);
      WipedStands(attempts, remembered, clock, window, key);
      OrderKept(log, clock, Success(key));
      OrderKept(remembered, clock, Success(key));
      order := Without(order, key);
      attempts := attempts - {key};
      log, remembered := log + [Success(key)], remembered + [Success(key)];
      evicted := evicted - {key};
    }
  }

  /** An eviction can only loosen the limit: here the log limits `a` and the limiter, which tracks one key, has
      forgotten it. */
  method EvictionForgets(a: Key, b: Key) returns (limited: bool)
    requires a != b
    ensures !limited && LogLimits([Failure(a, 0.0), Failure(b, 0.0)], a, 0.0, 60.0, 1)
  {
    var throttle := new LoginThrottle(1, 1, 60.0, 0.0);
    throttle.RecordFailure(a, 0.0);
    throttle.RecordFailure(b, 0.0);
    assert throttle.order == [b];
    limited := throttle.IsLimited(a, 0.0);
    OneFailureLimits(a, b);
  }

  lemma {:induction false} OneFailureLimits(a: Key, b: Key)
    requires a != b
    ensures LogLimits([Failure(a, 0.0), Failure(b, 0.0)], a, 0.0, 60.0, 1)
  {
    assert [Failure(a, 0.0), Failure(b, 0.0)] == [Failure(a, 0.0)] + [Failure(b, 0.0)];
    Logged([Failure(a, 0.0)], Failure(b, 0.0));
    assert [Failure(a, 0.0)] == [] + [Failure(a, 0.0)];
    Logged([], Failure(a, 0.0));
    assert Failures([Failure(a, 0.0)], a) == [0.0];
    RecentOfFresh([0.0], 0.0, 60.0);
  }

  /** A failure counts until, and not at, the end of its window. */
  method WindowIsHalfOpen(key: Key, early: real) returns (before: bool, at: bool)
    requires 0.0 <= early < 60.0
    ensures before && !at
  {
    var throttle := new LoginThrottle(1, 1, 60.0, 0.0);
    throttle.RecordFailure(key, 0.0);
    ghost var log := throttle.remembered;
    before := throttle.IsLimited(key, early);
    at := throttle.IsLimited(key, 60.0);
    OneFailure(key, early);
    OneFailure(key, 60.0);
    assert log == [Failure(key, 0.0)];
  }

  lemma {:induction false} OneFailure(key: Key, now: real)
    ensures LogLimits([Failure(key, 0.0)], key, now, 60.0, 1) <==> now < 60.0
  {
    var log := [Failure(key, 0.0)];
    assert log[..0] == [];
    assert Failures(log, key) == [0.0];
    assert Recent([0.0][1..], now, 60.0) == 0;
  }
}
