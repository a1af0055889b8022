/** The transaction-scoped pipeline lease: an operating-system lock on the database's lock file, held by a
    session from acquisition to the end of its outermost transaction. */
module Lease {
  import opened Common

  type SessionId = nat
  type Path = string

  /** A database session: the file it works on (None in memory), how many transactions are open one inside the
      other, and the two entries of its info dictionary. */
  datatype Session = Session(database: Option<Path>, depth: nat, lease: bool, listener: bool)

  /** All sessions, and for every locked lock file the session whose descriptor holds it. */
  datatype World = World(sessions: map<SessionId, Session>, locks: map<Path, SessionId>)

  datatype Reply = NoLease | Leased | Busy | BeginFailed

  datatype Op =
    | Open(s: SessionId, database: Option<Path>)
    | Acquire(s: SessionId, beginFails: bool)
    | Begin(s: SessionId)
    | Savepoint(s: SessionId)
    | EndSavepoint(s: SessionId)
    | EndAll(s: SessionId)
    | Crash(s: SessionId)

  function Set(w: World, s: SessionId, session: Session): World {
    w.(sessions := w.sessions[s := session])
  }

  /** The lease entry is popped and its lock released. */
  function Drop(w: World, s: SessionId): World
    requires s in w.sessions
  {
    var session := w.sessions[s];
    if session.lease && session.database.Some?
    then World(w.sessions[s := session.(lease := false)], w.locks - {session.database.value})
    else w
  }

  /** The transaction-end listener: only the end of a transaction without a parent drops the lease. */
  function Ended(w: World, s: SessionId, outermost: bool): World
    requires s in w.sessions
  {
    if w.sessions[s].listener && outermost then Drop(w, s) else w
  }

  function ReplyTo(w: World, s: SessionId, beginFails: bool): Reply
    requires s in w.sessions
  {
    var session := w.sessions[s];
    if session.database.None? then NoLease
    else if session.lease then Leased
    else if session.database.value in w.locks then Busy
    else if session.depth == 0 && beginFails then BeginFailed
    else Leased
  }

  function AfterAcquire(w: World, s: SessionId, beginFails: bool): World
    requires s in w.sessions
  {
    var session := w.sessions[s];
    if session.database.None? || session.lease || session.database.value in w.locks then w
    else if session.depth == 0 && beginFails then Set(w, s, session.(listener := true))
    else
      World(w.sessions[s := session.(lease := true, listener := true,
                                     depth := if session.depth == 0 then 1 else session.depth)],
            w.locks[session.database.value := s])
  }

  /** All open transactions of a session end, the outermost last. */
  function AfterEndAll(w: World, s: SessionId): World
    requires s in w.sessions
  {
    if w.sessions[s].depth == 0 then w
    else
      var ended := Ended(w, s, true);
      Set(ended, s, ended.sessions[s].(depth := 0))
  }

  function Step(w: World, op: Op): World {
    match op
    case Open(s, database) =>
      if s in w.sessions then w else Set(w, s, Session(database, 0, false, false))
    case Acquire(s, beginFails) => if s in w.sessions then AfterAcquire(w, s, beginFails) else w
    case Begin(s) =>
      if s in w.sessions && w.sessions[s].depth == 0 then Set(w, s, w.sessions[s].(depth := 1)) else w
    case Savepoint(s) =>
      if s !in w.sessions then w
      else Set(w, s, w.sessions[s].(depth := if w.sessions[s].depth == 0 then 2 else w.sessions[s].depth + 1))
    case EndSavepoint(s) =>
      if s in w.sessions && w.sessions[s].depth > 1
      then Set(Ended(w, s, false), s, w.sessions[s].(depth := w.sessions[s].depth - 1))
      else w
    case EndAll(s) => if s in w.sessions then AfterEndAll(w, s) else w
    case Crash(s) =>
      if s in w.sessions then var dropped := Drop(w, s); World(dropped.sessions - {s}, dropped.locks) else w
  }

  // ---------------------------------------------------------------- the code

  class Engine {
    var sessions: map<SessionId, Session>
    var locks: map<Path, SessionId>

    ghost function View(): World
      reads this
    {
      World(sessions, locks)
    }

    constructor ()
      ensures View() == World(map[], map[])
    {
      sessions, locks := map[], map[];
    }

    /** `PipelineFileLock.acquire`: non-blocking and exclusive. */
    method Lock(path: Path, s: SessionId) returns (ok: bool)
      modifies this`locks
      ensures ok == (path !in old(locks))
      ensures locks == if ok then old(locks)[path := s] else old(locks)
    {
      ok := path !in locks;
      if ok {
        locks := locks[path := s];
      }
    }

    /** `PipelineFileLock.release`. */
    method Unlock(path: Path)
      modifies this`locks
      ensures locks == old(locks) - {path}
    {
      locks := locks - {path};
    }

    /** `sqlite_pipeline_lease`. */
    method PipelineLease(s: SessionId, beginFails: bool) returns (reply: Reply)
      requires s in sessions
      modifies this
      ensures reply == ReplyTo(old(View()), s, beginFails)
      ensures View() == AfterAcquire(old(View()), s, beginFails)
    {
      var session := sessions[s];
      if session.database.None? {
        return NoLease;
      }
      if session.lease {
        return Leased;
      }
      var path := session.database.value;
      ghost var before := locks;
      var ok := Lock(path, s);
      if !ok {
        return Busy;
      }
      sessions := sessions[s := session.(lease := true, listener := true)];
      if session.depth == 0 {
        if beginFails {
          sessions := sessions[s := session.(listener := true)];
          Unlock(path);
          assert locks == before;
          return BeginFailed;
        }
        sessions := sessions[s := session.(lease := true, listener := true, depth := 1)];
      }
      return Leased;
    }

    /** The listener `ended`. */
    method TransactionEnded(s: SessionId, outermost: bool)
      requires s in sessions
      modifies this
      ensures View() == Ended(old(View()), s, outermost)
    {
      var session := sessions[s];
      if session.listener && outermost && session.lease && session.database.Some? {
        sessions := sessions[s := session.(lease := false)];
        Unlock(session.database.value);
      }
    }

    /** Commit, rollback or close: every open transaction ends, from the innermost outwards, and the listener
        hears of each. */
    method EndTransactions(s: SessionId)
      requires s in sessions
      modifies this
      ensures View() == AfterEndAll(old(View()), s)
    {
      var depth := sessions[s].depth;
      ghost var first := View();
      while depth > 0
        invariant s in sessions && 0 <= depth <= first.sessions[s].depth
        invariant depth > 0 ==> View() == Set(first, s, first.sessions[s].(depth := depth))
        invariant depth == 0 ==> View() == AfterEndAll(first, s)
      {
        TransactionEnded(s, depth == 1);
        depth := depth - 1;
        sessions := sessions[s := sessions[s].(depth := depth)];
      }
    }
  }

  // ---------------------------------------------------------------- every sequence of operations

  /** A lock is held exactly by the session with the lease, and a session with a lease is inside an outermost
      transaction whose end its listener will hear. */
  ghost predicate Inv(w: World) {
    && (forall path :: path in w.locks ==>
          && w.locks[path] in w.sessions
          && w.sessions[w.locks[path]].lease && w.sessions[w.locks[path]].database == Some(path))
    && (forall s :: s in w.sessions && w.sessions[s].lease ==> HoldsLease(w, s))
  }

  ghost predicate HoldsLease(w: World, s: SessionId)
    requires s in w.sessions
  {
    var session := w.sessions[s];
    && session.depth >= 1 && session.listener && session.database.Some?
    && session.database.value in w.locks && w.locks[session.database.value] == s
  }

  lemma {:induction false} InvStep(w: World, op: Op)
    requires Inv(w)
    ensures Inv(Step(w, op))
  {
    var t := Step(w, op);
    forall path | path in t.locks
      ensures t.locks[path] in t.sessions
      ensures t.sessions[t.locks[path]].lease && t.sessions[t.locks[path]].database == Some(path)
    {
    }
    forall s | s in t.sessions && t.sessions[s].lease
      ensures HoldsLease(t, s)
    {
      LeaseStep(w, op, s);
    }
  }

  lemma {:induction false} LeaseStep(w: World, op: Op, s: SessionId)
    requires Inv(w) && s in Step(w, op).sessions && Step(w, op).sessions[s].lease
    ensures HoldsLease(Step(w, op), s)
  {
    if s in w.sessions && w.sessions[s].lease {
      assert HoldsLease(w, s);
    }
    if op.s in w.sessions && w.sessions[op.s].lease {
      assert HoldsLease(w, op.s);
    }
  }

  ghost function Run(ops: seq<Op>): World {
    if ops == [] then World(map[], map[]) else Step(Run(ops[..|ops| - 1]), ops[|ops| - 1])
  }

  lemma {:induction false} InvRun(ops: seq<Op>)
    ensures Inv(Run(ops))
  {
    if ops != [] {
      InvRun(ops[..|ops| - 1]);
      InvStep(Run(ops[..|ops| - 1]), ops[|ops| - 1]);
    }
  }

  /** Over every sequence of operations by any number of sessions, at most one session holds the lease of a
      database, and a holder is inside an outermost transaction. */
  lemma {:induction false} LeaseIsExclusive(ops: seq<Op>, s: SessionId, q: SessionId)
    requires var w := Run(ops);
             && s in w.sessions && w.sessions[s].lease && q in w.sessions && w.sessions[q].lease
             && w.sessions[s].database == w.sessions[q].database
    ensures s == q && Run(ops).sessions[s].depth >= 1
  {
    InvRun(ops);
    assert HoldsLease(Run(ops), s) && HoldsLease(Run(ops), q);
  }

  /** A free database is always leased on request, a leased one only to its holder. */
  lemma {:induction false} GrantedExactlyWhenFree(ops: seq<Op>, s: SessionId)
    requires var w := Run(ops); s in w.sessions && w.sessions[s].database.Some?
    ensures var w := Run(ops);
            ReplyTo(w, s, false) == Busy <==>
              exists q :: q in w.sessions && q != s && w.sessions[q].lease
                          && w.sessions[q].database == w.sessions[s].database
  {
    InvRun(ops);
    var w := Run(ops);
    var path := w.sessions[s].database.value;
    if path in w.locks {
      assert w.sessions[w.locks[path]].lease;
    }
    if q :| q in w.sessions && q != s && w.sessions[q].lease && w.sessions[q].database == w.sessions[s].database {
      assert HoldsLease(w, q);
      assert w.sessions[s].lease ==> HoldsLease(w, s);
    }
  }

  /** Ending a savepoint never releases the lease; ending the outermost transaction always does. */
  lemma {:induction false} ReleasedExactlyAtTheEnd(ops: seq<Op>, s: SessionId)
    requires s in Run(ops).sessions && Run(ops).sessions[s].lease
    ensures var kept := Run(ops + [EndSavepoint(s)]);
            s in kept.sessions && kept.sessions[s].lease && kept.locks == Run(ops).locks
    ensures var ended := Run(ops + [EndAll(s)]);
            && s in ended.sessions && !ended.sessions[s].lease && ended.sessions[s].depth == 0
            && ended.locks == Run(ops).locks - {Run(ops).sessions[s].database.value}
  {
    InvRun(ops);
    var w := Run(ops);
    assert HoldsLease(w, s);
    assert (ops + [EndSavepoint(s)])[..|ops|] == ops && (ops + [EndAll(s)])[..|ops|] == ops;
  }

  // ---------------------------------------------------------------- what each operation does

  lemma {:induction false} RunMore(ops: seq<Op>, op: Op)
    ensures Run(ops + [op]) == Step(Run(ops), op)
  {
    assert (ops + [op])[..|ops|] == ops;
  }

  ghost predicate Leases(w: World, s: SessionId) { s in w.sessions && w.sessions[s].lease }

  /** A free database is leased to the session that asks: it holds the lock of the file afterwards and is inside a
      transaction. */
  lemma {:induction false} FreeDatabaseIsLeased(ops: seq<Op>, s: SessionId, path: Path)
    requires var w := Run(ops);
             s in w.sessions && w.sessions[s].database == Some(path) && !w.sessions[s].lease && path !in w.locks
    ensures var t := Run(ops + [Acquire(s, false)]);
            Leases(t, s) && t.locks == Run(ops).locks[path := s] && t.sessions[s].depth >= 1
  {
    RunMore(ops, Acquire(s, false));
  }

  /** What the replies mean: no lease exactly without a database file; leased exactly when the session holds the
      lease afterwards; and any other reply leaves every lease and every lock as it was. */
  lemma {:induction false} RepliesMean(ops: seq<Op>, s: SessionId, beginFails: bool)
    requires s in Run(ops).sessions
    ensures var w, t, reply := Run(ops), Run(ops + [Acquire(s, beginFails)]), ReplyTo(Run(ops), s, beginFails);
            && (reply == NoLease <==> w.sessions[s].database.None?)
            && (reply == Leased <==> Leases(t, s))
            && (reply == BeginFailed ==> beginFails && w.sessions[s].depth == 0)
            && (reply != Leased ==> t.locks == w.locks && forall q :: Leases(t, q) <==> Leases(w, q))
  {
    RunMore(ops, Acquire(s, beginFails));
    InvRun(ops);
    assert Run(ops).sessions[s].lease ==> HoldsLease(Run(ops), s);
  }

  /** No operation of a session touches another session. */
  lemma {:induction false} OthersUntouched(ops: seq<Op>, op: Op, q: SessionId)
    requires q != op.s
    ensures q in Run(ops + [op]).sessions <==> q in Run(ops).sessions
    ensures q in Run(ops).sessions ==> Run(ops + [op]).sessions[q] == Run(ops).sessions[q]
  {
    RunMore(ops, op);
  }

  /** Opening a session, beginning a transaction and setting a savepoint change no lease and no lock. Ending a
      savepoint undoes setting it, up to the transaction that it may have begun. */
  lemma {:induction false} SavepointRoundTrip(ops: seq<Op>, s: SessionId)
    requires s in Run(ops).sessions
    ensures var w, t := Run(ops), Run(ops + [Savepoint(s)] + [EndSavepoint(s)]);
            var begun, inside := Run(ops + [Begin(s)]), Run(ops + [Savepoint(s)]);
            && t == begun && t.locks == inside.locks == w.locks
            && inside.sessions[s] == begun.sessions[s].(depth := begun.sessions[s].depth + 1)
            && t.sessions[s] == w.sessions[s].(depth := if w.sessions[s].depth == 0 then 1 else w.sessions[s].depth)
  {
    RunMore(ops, Begin(s));
    RunMore(ops, Savepoint(s));
    RunMore(ops + [Savepoint(s)], EndSavepoint(s));
  }

  /** A crash ends the session and frees its lock, and no other. */
  lemma {:induction false} CrashFrees(ops: seq<Op>, s: SessionId)
    ensures var w, t := Run(ops), Run(ops + [Crash(s)]);
            && s !in t.sessions
            && forall path :: path in t.locks <==> path in w.locks && w.locks[path] != s
  {
    RunMore(ops, Crash(s));
    InvRun(ops);
    assert Leases(Run(ops), s) ==> HoldsLease(Run(ops), s);
  }

  /** A new session has its database, no transaction and no lease. */
  lemma {:induction false} OpenedSession(ops: seq<Op>, s: SessionId, database: Option<Path>)
    requires s !in Run(ops).sessions
    ensures var t := Run(ops + [Open(s, database)]);
            && s in t.sessions && t.sessions[s].database == database && t.sessions[s].depth == 0
            && !t.sessions[s].lease && t.locks == Run(ops).locks
  {
    RunMore(ops, Open(s, database));
  }
}
