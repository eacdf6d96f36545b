/** Resource locks: TTL leases in a durable snapshot, and exclusion over whole runs. */
module Locks {
  import opened Outcomes

  datatype ResourceLock = ResourceLock(resourceKey: string, holderId: string, acquiredAt: int, expiresAt: Option<int>)

  type LockTable = map<string, ResourceLock>

  datatype AcquireResult = AcquireResult(acquired: bool, lock: ResourceLock)

  predicate IsLive(lock: ResourceLock, now: int) { lock.expiresAt.None? || lock.expiresAt.value > now }

  /** The lease granted at `at`. */
  function Lease(key: string, holder: string, ttlMs: Option<int>, at: int): ResourceLock {
    ResourceLock(key, holder, at, if ttlMs.Some? then Some(at + ttlMs.value) else None)
  }

  predicate Blocked(locks: LockTable, key: string, holder: string, at: int) {
    key in locks && IsLive(locks[key], at) && locks[key].holderId != holder
  }

  function Acquired(locks: LockTable, key: string, holder: string, ttlMs: Option<int>, at: int): LockTable {
    if Blocked(locks, key, holder, at) then locks else locks[key := Lease(key, holder, ttlMs, at)]
  }

  predicate Holds(locks: LockTable, key: string, holder: string) { key in locks && locks[key].holderId == holder }

  function Released(locks: LockTable, key: string, holder: string): LockTable {
    if Holds(locks, key, holder) then locks - {key} else locks
  }

  /** The durable lock manager; each method is one atomic mutation of the snapshot. */
  class ResourceLockManager {
    var locks: LockTable

    constructor ()
      ensures locks == map[]
    {
      locks := map[];
    }

    method Acquire(key: string, holderId: string, ttlMs: Option<int>, at: int) returns (result: AcquireResult)
      modifies this
      ensures locks == Acquired(old(locks), key, holderId, ttlMs, at)
      ensures result.acquired == !Blocked(old(locks), key, holderId, at)
      ensures key in locks && result.lock == locks[key]
    {
      if key in locks {
        var existing := locks[key];
        if IsLive(existing, at) && existing.holderId != holderId {
          return AcquireResult(false, existing);
        }
      }
      var lock := ResourceLock(key, holderId, at, if ttlMs.Some? then Some(at + ttlMs.value) else None);
      locks := locks[key := lock];
      return AcquireResult(true, lock);
    }

    method Release(key: string, holderId: string) returns (released: bool)
      modifies this
      ensures locks == Released(old(locks), key, holderId)
      ensures released == Holds(old(locks), key, holderId)
    {
      if key !in locks || locks[key].holderId != holderId { return false; }
      locks := locks - {key};
      return true;
    }

    method IsLocked(key: string, now: int) returns (lock: Option<ResourceLock>)
      ensures lock == if key in locks && IsLive(locks[key], now) then Some(locks[key]) else None
    {
      if key !in locks || !IsLive(locks[key], now) { return None; }
      return Some(locks[key]);
    }
  }

  // ---- Runs ---------------------------------------------------------------

  datatype Op =
    | Acquire(key: string, holder: string, ttlMs: Option<int>, at: int)
    | Release(key: string, holder: string, at: int)

  /** A granted lease and the time span it gives its holder: [start, end), open-ended for None. */
  datatype Grant = Grant(key: string, holder: string, start: int, end: Option<int>)

  /** A run so far: the lock table, every grant ever made, and which grant each entry of the table is. */
  datatype Run = Run(locks: LockTable, grants: seq<Grant>, current: map<string, nat>)

  const EMPTY: Run := Run(map[], [], map[])

  function EndedBy(g: Grant, at: int): Grant {
    if g.end.None? || g.end.value > at then g.(end := Some(at)) else g
  }

  /** The grants after the holder of a lease gives it up, by release or by acquiring anew. */
  function GivenUp(run: Run, key: string, at: int): seq<Grant> {
    if key in run.current && run.current[key] < |run.grants|
    then run.grants[run.current[key] := EndedBy(run.grants[run.current[key]], at)]
    else run.grants
  }

  function Next(run: Run, op: Op): Run {
    match op
    case Acquire(key, holder, ttlMs, at) =>
      if Blocked(run.locks, key, holder, at) then run.(locks := Acquired(run.locks, key, holder, ttlMs, at))
      else
        // Only the holder itself cuts its own earlier span short; a takeover does not.
        var before := if Holds(run.locks, key, holder) then GivenUp(run, key, at) else run.grants;
        var lease := Lease(key, holder, ttlMs, at);
        Run(Acquired(run.locks, key, holder, ttlMs, at),
            before + [Grant(key, holder, at, lease.expiresAt)],
            run.current[key := |before|])
    case Release(key, holder, at) =>
      if Holds(run.locks, key, holder)
      then Run(Released(run.locks, key, holder), GivenUp(run, key, at), run.current - {key})
      else run.(locks := Released(run.locks, key, holder))
  }

  function After(ops: seq<Op>): Run {
    if ops == [] then EMPTY else Next(After(ops[..|ops| - 1]), ops[|ops| - 1])
  }

  /** The clock never goes back. */
  predicate Chronological(ops: seq<Op>) {
    forall i | 0 < i < |ops| :: ops[i - 1].at <= ops[i].at
  }

  predicate EndsBefore(g: Grant, t: int) { g.end.Some? && g.end.value <= t }

  predicate IsCurrent(run: Run, i: nat)
    requires i < |run.grants|
  {
    run.grants[i].key in run.current && run.current[run.grants[i].key] == i
  }

  /** What every reachable run keeps up to time `clock`. */
  ghost predicate Consistent(run: Run, clock: int) {
    && run.current.Keys == run.locks.Keys
    && (forall key | key in run.locks ::
          && run.current[key] < |run.grants|
          && run.grants[run.current[key]]
             == Grant(key, run.locks[key].holderId, run.locks[key].acquiredAt, run.locks[key].expiresAt))
    && (forall i | 0 <= i < |run.grants| :: run.grants[i].start <= clock)
    && (forall i | 0 <= i < |run.grants| && !IsCurrent(run, i) :: EndsBefore(run.grants[i], clock))
    && (forall i, j | 0 <= i < j < |run.grants| && run.grants[i].key == run.grants[j].key ::
          EndsBefore(run.grants[i], run.grants[j].start))
  }

  lemma Later(run: Run, clock: int, at: int)
    requires Consistent(run, clock) && clock <= at
    ensures Consistent(run, at)
  {}

  /** Dropping a table entry whose span is over, or is cut short now. */
  lemma DetachConsistent(run: Run, key: string, grants: seq<Grant>, at: int)
    requires Consistent(run, at) && key in run.locks
    requires grants == GivenUp(run, key, at)
          || (grants == run.grants && EndsBefore(run.grants[run.current[key]], at))
    ensures Consistent(Run(run.locks - {key}, grants, run.current - {key}), at)
  {
    var c, after := run.current[key], Run(run.locks - {key}, grants, run.current - {key});
    forall i | 0 <= i < |grants|
      ensures grants[i].key == run.grants[i].key && grants[i].start == run.grants[i].start
      ensures EndsBefore(run.grants[i], at) ==> EndsBefore(grants[i], at)
      ensures i != c ==> grants[i] == run.grants[i]
    {}
    forall i, j | 0 <= i < j < |grants| && grants[i].key == grants[j].key
      ensures EndsBefore(grants[i], grants[j].start)
    {
      assert EndsBefore(run.grants[i], run.grants[j].start);
    }
    forall i | 0 <= i < |grants| && !IsCurrent(after, i) ensures EndsBefore(grants[i], at) {
      assert i != c ==> (IsCurrent(run, i) <==> IsCurrent(after, i));
    }
  }

  /** Entering a new lease for a resource that has no entry. */
  lemma AttachConsistent(run: Run, lock: ResourceLock, at: int)
    requires Consistent(run, at) && lock.resourceKey !in run.locks && lock.acquiredAt == at
    ensures var key := lock.resourceKey;
            Consistent(Run(run.locks[key := lock],
                           run.grants + [Grant(key, lock.holderId, at, lock.expiresAt)],
                           run.current[key := |run.grants|]), at)
  {
    var key, n := lock.resourceKey, |run.grants|;
    forall i | 0 <= i < n && run.grants[i].key == key ensures EndsBefore(run.grants[i], at) {
      assert !IsCurrent(run, i);
    }
    var after := Run(run.locks[key := lock], run.grants + [Grant(key, lock.holderId, at, lock.expiresAt)], run.current[key := n]);
    forall i | 0 <= i < n + 1 && !IsCurrent(after, i) ensures EndsBefore(after.grants[i], at) {
      if after.grants[i].key != key { assert IsCurrent(run, i) == IsCurrent(after, i); }
    }
  }

  lemma TakenConsistent(run: Run, lock: ResourceLock, before: seq<Grant>, at: int)
    requires Consistent(run, at) && lock.acquiredAt == at && lock.resourceKey in run.locks
    requires before == GivenUp(run, lock.resourceKey, at)
          || (before == run.grants && EndsBefore(run.grants[run.current[lock.resourceKey]], at))
    ensures var key := lock.resourceKey;
            Consistent(Run(run.locks[key := lock], before + [Grant(key, lock.holderId, at, lock.expiresAt)], run.current[key := |before|]), at)
  {
    var key := lock.resourceKey;
    DetachConsistent(run, key, before, at);
    hide Consistent, GivenUp, EndsBefore;
    AttachConsistent(Run(run.locks - {key}, before, run.current - {key}), lock, at);
    assert (run.locks - {key})[key := lock] == run.locks[key := lock];
    assert (run.current - {key})[key := |before|] == run.current[key := |before|];
  }

  /** A lease that does not block another holder is over. */
  lemma UnblockedIsOver(run: Run, key: string, holder: string, at: int)
    requires Consistent(run, at) && key in run.locks && !Blocked(run.locks, key, holder, at) && !Holds(run.locks, key, holder)
    ensures EndsBefore(run.grants[run.current[key]], at)
  {}

  lemma NextConsistent(run: Run, op: Op, clock: int)
    requires Consistent(run, clock) && clock <= op.at
    ensures Consistent(Next(run, op), op.at)
  {
    Later(run, clock, op.at);
    var key, at := op.key, op.at;
    assert run.current.Keys == run.locks.Keys;
    hide Consistent, EndsBefore, GivenUp;
    match op
    case Acquire(_, holder, ttlMs, _) =>
      if !Blocked(run.locks, key, holder, at) {
        var lease := Lease(key, holder, ttlMs, at);
        if key in run.locks {
          if !Holds(run.locks, key, holder) { UnblockedIsOver(run, key, holder, at); }
          TakenConsistent(run, lease, if Holds(run.locks, key, holder) then GivenUp(run, key, at) else run.grants, at);
        } else {
          AttachConsistent(run, lease, at);
        }
      }
    case Release(_, holder, _) =>
      if Holds(run.locks, key, holder) { DetachConsistent(run, key, GivenUp(run, key, at), at); }
  }

  lemma {:induction false} RunsAreConsistent(ops: seq<Op>)
    requires Chronological(ops) && ops != []
    ensures Consistent(After(ops), ops[|ops| - 1].at)
  {
    var last := ops[|ops| - 1];
    if |ops| == 1 {
      assert Consistent(EMPTY, last.at);
      NextConsistent(EMPTY, last, last.at);
      assert After(ops[..0]) == EMPTY;
    } else {
      var before := ops[..|ops| - 1];
      RunsAreConsistent(before);
      assert ops[|ops| - 2].at <= ops[|ops| - 1].at;
      NextConsistent(After(before), last, before[|before| - 1].at);
    }
  }

  /**
   * Exclusion: over any run, the spans of two grants of one resource never overlap,
   * whoever holds them: the earlier one is over when the later one starts.
   */
  lemma SpansNeverOverlap(ops: seq<Op>, i: nat, j: nat)
    requires Chronological(ops) && i < j < |After(ops).grants|
    requires After(ops).grants[i].key == After(ops).grants[j].key
    ensures EndsBefore(After(ops).grants[i], After(ops).grants[j].start)
  {
    RunsAreConsistent(ops);
  }

  /** At the current time the lock table shows a resource as taken exactly when some granted span covers that time. */
  lemma TableShowsSpans(ops: seq<Op>, key: string, now: int)
    requires Chronological(ops) && ops != [] && ops[|ops| - 1].at <= now
    ensures var run := After(ops);
            (key in run.locks && IsLive(run.locks[key], now))
              <==> exists i :: 0 <= i < |run.grants| && run.grants[i].key == key && Covers(run.grants[i], now)
    ensures var run := After(ops);
            forall i | 0 <= i < |run.grants| && run.grants[i].key == key && Covers(run.grants[i], now) ::
              key in run.locks && run.locks[key].holderId == run.grants[i].holder
  {
    RunsAreConsistent(ops);
    var run := After(ops);
    if key in run.locks && IsLive(run.locks[key], now) {
      assert Covers(run.grants[run.current[key]], now);
    }
  }

  predicate Covers(g: Grant, t: int) { g.start <= t && (g.end.None? || t < g.end.value) }

  /** What others do leaves a live lease in place, and no one but the holder ever releases it. */
  lemma {:induction false} LeaseIsStable(run: Run, ops: seq<Op>, key: string)
    requires key in run.locks
    requires forall i | 0 <= i < |ops| :: ops[i].key == key ==>
               ops[i].holder != run.locks[key].holderId && (ops[i].Acquire? ==> IsLive(run.locks[key], ops[i].at))
    ensures key in Continue(run, ops).locks && Continue(run, ops).locks[key] == run.locks[key]
  {
    if ops != [] { LeaseIsStable(run, ops[..|ops| - 1], key); }
  }

  function Continue(run: Run, ops: seq<Op>): Run {
    if ops == [] then run else Next(Continue(run, ops[..|ops| - 1]), ops[|ops| - 1])
  }

  // ---- When a lease ends --------------------------------------------------

  /** Other resources leave the entry and the grant of a resource alone. */
  lemma {:induction false} OthersKeep(run: Run, ops: seq<Op>, key: string, i: nat)
    requires i < |run.grants| && run.grants[i].key == key && forall k | 0 <= k < |ops| :: ops[k].key != key
    requires forall k | k in run.current && k != key :: run.current[k] != i
    ensures var after := Continue(run, ops);
            && Lookup(after.locks, key) == Lookup(run.locks, key) && Lookup(after.current, key) == Lookup(run.current, key)
            && i < |after.grants| && after.grants[i] == run.grants[i]
            && forall k | k in after.current && k != key :: after.current[k] != i
  {
    if ops != [] { OthersKeep(run, ops[..|ops| - 1], key, i); }
  }

  /** The acquire was not refused: the table now shows the holder. */
  predicate Granted(run: Run, op: Op)
    requires op.Acquire?
  {
    Holds(Next(run, op).locks, op.key, op.holder)
  }

  /**
   * How long a granted lease lasts, with any operations on other resources after it: it is live
   * exactly before `at + ttl`, or for ever without a TTL; another holder gets the resource
   * exactly from then on; and the span of the grant ends then.
   */
  lemma LeaseLasts(ops: seq<Op>, key: string, holder: string, ttlMs: Option<int>, at: int, more: seq<Op>, other: string,
                  otherTtl: Option<int>, later: int)
    requires Chronological(ops + [Acquire(key, holder, ttlMs, at)]) && Granted(After(ops), Acquire(key, holder, ttlMs, at))
    requires (forall k | 0 <= k < |more| :: more[k].key != key) && other != holder
    ensures var taken := Next(After(ops), Acquire(key, holder, ttlMs, at));
            var run := Continue(taken, more);
            var last := |taken.grants| - 1;
            && Holds(run.locks, key, holder)
            && (IsLive(run.locks[key], later) <==> ttlMs.None? || later < at + ttlMs.value)
            && (Granted(run, Acquire(key, other, otherTtl, later)) <==> ttlMs.Some? && later >= at + ttlMs.value)
            && (!Granted(run, Acquire(key, other, otherTtl, later)) ==> Next(run, Acquire(key, other, otherTtl, later)) == run)
            && 0 <= last < |run.grants| && run.grants[last].key == key && run.grants[last].holder == holder && run.grants[last].start == at
            && run.grants[last].end == (if ttlMs.Some? then Some(at + ttlMs.value) else None)
  {
    var before, op := After(ops), Acquire(key, holder, ttlMs, at);
    if ops != [] {
      assert ops == (ops + [op])[..|ops|];
      RunsAreConsistent(ops);
    }
    NotRefused(before, op);
    var taken := Next(before, op);
    assert forall k | k in taken.current && k != key :: taken.current[k] != |taken.grants| - 1;
    hide After, Next;
    OthersKeep(taken, more, key, |taken.grants| - 1);
    TakeoverExactly(Continue(taken, more), key, holder, ttlMs, at, other, otherTtl, later);
  }

  lemma NotRefused(run: Run, op: Op)
    requires op.Acquire? && Granted(run, op)
    ensures !Blocked(run.locks, op.key, op.holder, op.at)
  {}

  lemma TakeoverExactly(run: Run, key: string, holder: string, ttlMs: Option<int>, at: int, other: string,
                        otherTtl: Option<int>, later: int)
    requires key in run.locks && other != holder
    requires run.locks[key] == ResourceLock(key, holder, at, if ttlMs.Some? then Some(at + ttlMs.value) else None)
    ensures IsLive(run.locks[key], later) <==> ttlMs.None? || later < at + ttlMs.value
    ensures Granted(run, Acquire(key, other, otherTtl, later)) <==> ttlMs.Some? && later >= at + ttlMs.value
    ensures !Granted(run, Acquire(key, other, otherTtl, later)) ==> Next(run, Acquire(key, other, otherTtl, later)) == run
  {
    hide GivenUp;
  }

  /** An acquire is refused exactly when a granted span of another holder covers its time. */
  lemma RefusedExactly(ops: seq<Op>, key: string, holder: string, ttlMs: Option<int>, at: int)
    requires Chronological(ops) && (ops != [] ==> ops[|ops| - 1].at <= at)
    ensures var run := After(ops);
            !Granted(run, Acquire(key, holder, ttlMs, at)) <==>
              exists i :: 0 <= i < |run.grants| && run.grants[i].key == key && run.grants[i].holder != holder && Covers(run.grants[i], at)
  {
    var run := After(ops);
    if ops != [] {
      RunsAreConsistent(ops);
      TableShowsSpans(ops, key, at);
      hide After;
      if key in run.locks && IsLive(run.locks[key], at) { assert Covers(run.grants[run.current[key]], at); }
    }
  }

  /** A release by the holder ends the span at once and frees the resource for everybody; by anyone else it does nothing. */
  lemma ReleaseFrees(ops: seq<Op>, key: string, holder: string, at: int, other: string, ttlMs: Option<int>, later: int)
    requires Chronological(ops + [Release(key, holder, at)])
    ensures var run, after := After(ops), Next(After(ops), Release(key, holder, at));
            if Holds(run.locks, key, holder) then
              && key !in after.locks && Granted(after, Acquire(key, other, ttlMs, later))
              && forall i | 0 <= i < |after.grants| && after.grants[i].key == key :: EndsBefore(after.grants[i], at)
            else after == run
  {
    var op := Release(key, holder, at);
    assert (ops + [op])[..|ops|] == ops;
    assert After(ops + [op]) == Next(After(ops), op);
    RunsAreConsistent(ops + [op]);
  }

  /** A holder whose expired lease was taken over cannot release the new holder's lease. */
  lemma TakenOverCannotRelease(run: Run, key: string, first: string, second: string, ttlMs: Option<int>, at: int, later: int)
    requires Holds(run.locks, key, first) && first != second && !Blocked(run.locks, key, second, at)
    ensures var taken := Next(run, Acquire(key, second, ttlMs, at));
            Holds(taken.locks, key, second) && Next(taken, Release(key, first, later)) == taken
  {}
}
