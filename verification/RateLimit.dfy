/** RateLimitPolicy: at most a number of proposals per key and fixed window. */
module RateLimit {
  import opened Outcomes
  import opened Sums
  import opened DigestPreimages
  import opened FixedWindows
  import Overruns
  import opened Policies

  ghost function RateEvaluate(q: Quota, max: nat, width: int, p: AgentProposal, now: int): PolicyResult {
    if Usage(q, KeyFor(p), now, width) >= max then REJECTED else APPROVED
  }

  /** A rejected reservation leaves even an elapsed window alone. */
  ghost function RateReserve(q: Quota, max: nat, width: int, p: AgentProposal, now: int): (Quota, PolicyResult) {
    if Replay(q, p).Some? then (q, Replay(q, p).value)
    else if RateEvaluate(q, max, width, p, now) != APPROVED then (q, REJECTED)
    else
      (Hold(Rollover(q, KeyFor(p), now, width), KeyFor(p), now, p.id, Digest(p), 1), PolicyResult(Approved, Some(New)))
  }

  class RateLimitPolicy {
    const maxProposals: nat
    const windowMs: int
    var buckets: map<string, Bucket>
    var operations: map<string, Operation>

    function Contents(): Quota
      reads this
    {
      Quota(buckets, operations)
    }

    /** The held maps stand for sets: every id weighs 1. */
    ghost predicate Valid()
      reads this
    {
      && maxProposals >= 1 && windowMs >= 1
      && (forall key, id :: HeldIn(Contents(), key, id) ==> buckets[key].held[id] == 1)
      && forall id | id in operations :: operations[id].amount == 1
    }

    constructor (maxProposals: nat, windowMs: int)
      requires maxProposals >= 1 && windowMs >= 1
      ensures Valid() && Contents() == EMPTY_QUOTA && this.maxProposals == maxProposals && this.windowMs == windowMs
    {
      this.maxProposals := maxProposals;
      this.windowMs := windowMs;
      buckets := map[];
      operations := map[];
    }

    method EvaluateKey(key: string, now: int) returns (r: PolicyResult)
      requires Valid()
      ensures r == if Usage(Contents(), key, now, windowMs) >= maxProposals then REJECTED else APPROVED
    {
      if key !in buckets || now - buckets[key].windowStart >= windowMs { return if 0 >= maxProposals then REJECTED else APPROVED; }
      var b := buckets[key];
      assert forall id | id in b.held :: HeldIn(Contents(), key, id);
      OnesCount(b.held);
      return if b.committed + |b.held| >= maxProposals then REJECTED else APPROVED;
    }

    method Evaluate(p: AgentProposal, now: int) returns (r: PolicyResult)
      requires Valid()
      ensures r == RateEvaluate(Contents(), maxProposals, windowMs, p, now)
    {
      r := EvaluateKey(KeyFor(p), now);
    }

    method RollOver(key: string, now: int)
      requires Valid()
      modifies this
      ensures Valid() && Contents() == Rollover(old(Contents()), key, now, windowMs)
    {
      if key !in buckets || now - buckets[key].windowStart < windowMs { return; }
      var stale := buckets[key].held.Keys;
      var left := stale;
      while left != {}
        invariant left <= stale && buckets == old(buckets) && operations.Keys == old(operations).Keys
        invariant forall id | id in operations ::
          operations[id] == if id in stale && id !in left then old(operations)[id].(status := Released) else old(operations)[id]
      {
        var id :| id in left;
        left := left - {id};
        if id in operations { operations := operations[id := operations[id].(status := Released)]; }
      }
      assert operations == ReleaseAll(old(operations), stale);
      buckets := buckets[key := Bucket(now, 0, map[])];
      assert forall k, id :: HeldIn(Contents(), k, id) ==> HeldIn(old(Contents()), k, id);
    }

    method Reserve(p: AgentProposal, now: int) returns (r: PolicyResult)
      requires Valid()
      modifies this
      ensures Valid() && (Contents(), r) == RateReserve(old(Contents()), maxProposals, windowMs, p, now)
    {
      hide KeyFor, Digest, Rollover, Usage;
      var key, digest := KeyFor(p), Digest(p);
      if p.id in operations {
        var known := operations[p.id];
        if known.digest != digest { return REJECTED; }
        if known.key != key { return REJECTED; }
        if known.status.Reserved? { return PolicyResult(Approved, Some(AlreadyReserved)); }
        if known.status.Committed? { return PolicyResult(Approved, Some(AlreadyCommitted)); }
      }
      r := EvaluateKey(key, now);
      if r.outcome != Approved { return; }
      RollOver(key, now);
      ghost var rolled := Contents();
      var b := if key in buckets then buckets[key] else Bucket(now, 0, map[]);
      buckets := buckets[key := b.(held := b.held[p.id := 1])];
      operations := operations[p.id := Operation(key, 1, digest, Reserved)];
      assert forall k, id :: HeldIn(Contents(), k, id) ==> HeldIn(rolled, k, id) || (k == key && id == p.id);
      return PolicyResult(Approved, Some(New));
    }

    method Commit(id: string)
      requires Valid()
      modifies this
      ensures Valid() && Contents() == FixedWindows.Commit(old(Contents()), id)
    {
      if id !in operations || !operations[id].status.Reserved? { return; }
      var o := operations[id];
      if !HeldIn(Contents(), o.key, id) {
        operations := operations[id := o.(status := Released)];
        return;
      }
      var b := buckets[o.key];
      buckets := buckets[o.key := Bucket(b.windowStart, b.committed + 1, b.held - {id})];
      operations := operations[id := o.(status := Committed)];
      assert forall k, i :: HeldIn(Contents(), k, i) ==> HeldIn(old(Contents()), k, i);
    }

    method Release(id: string)
      requires Valid()
      modifies this
      ensures Valid() && Contents() == FixedWindows.Release(old(Contents()), id)
    {
      if id !in operations || !operations[id].status.Reserved? { return; }
      var o := operations[id];
      if o.key in buckets {
        var b := buckets[o.key];
        buckets := buckets[o.key := Bucket(b.windowStart, b.committed, b.held - {id})];
      }
      operations := operations[id := o.(status := Released)];
      assert forall k, i :: HeldIn(Contents(), k, i) ==> HeldIn(old(Contents()), k, i);
    }
  }

  lemma {:induction false} OnesCount(held: map<string, nat>)
    requires forall id | id in held :: held[id] == 1
    ensures Sum(held, Plain()) == |held|
    decreases |held|
  {
    if held == map[] {
      SumZero(held, Plain());
    } else {
      var id :| id in held;
      SumRemove(held, Plain(), id);
      OnesCount(held - {id});
      assert held.Keys == (held - {id}).Keys + {id};
      assert |held.Keys| == |(held - {id}).Keys| + 1;
    }
  }

  // ---- Runs ---------------------------------------------------------------

  ghost function RateCall(q: Quota, max: nat, width: int, call: PolicyCall): Quota {
    match call
    case Reserving(p, now) => RateReserve(q, max, width, p, now).0
    case Committing(id) => Commit(q, id)
    case Releasing(id) => Release(q, id)
  }

  /** The quota step behind a call. */
  ghost function RateOp(q: Quota, max: nat, width: int, call: PolicyCall): QuotaOp {
    match call
    case Reserving(p, now) =>
      if Replay(q, p).Some? || RateEvaluate(q, max, width, p, now) != APPROVED then Idle
      else TryHold(KeyFor(p), p.id, Digest(p), 1, now, true)
    case Committing(id) => DoCommit(id)
    case Releasing(id) => DoRelease(id)
  }

  lemma RateOpIsCall(q: Quota, max: nat, width: int, call: PolicyCall)
    ensures QuotaStep(q, RateOp(q, max, width, call), width) == RateCall(q, max, width, call)
    ensures Admits(q, RateOp(q, max, width, call), Some(max), width)
  {
    hide KeyFor, Digest, Usage, Hold, Commit, Release;
  }

  /** The quota after the calls. */
  ghost function RateAfter(max: nat, width: int, calls: seq<PolicyCall>): Quota {
    if calls == [] then EMPTY_QUOTA else RateCall(RateAfter(max, width, calls[..|calls| - 1]), max, width, calls[|calls| - 1])
  }

  lemma {:induction false} RateAfterFits(max: nat, width: int, calls: seq<PolicyCall>)
    requires width >= 1
    ensures CapFits(RateAfter(max, width, calls), Some(max))
  {
    if calls == [] {
      StartFits(Some(max));
    } else {
      var init, last := calls[..|calls| - 1], calls[|calls| - 1];
      RateAfterFits(max, width, init);
      var q := RateAfter(max, width, init);
      hide CapFits, QuotaStep, Admits, RateOp, RateCall;
      RateOpIsCall(q, max, width, last);
      StepKeepsCap(q, RateOp(q, max, width, last), Some(max), width);
    }
  }

  /**
   * After any calls, whatever the clock read at each of them: the committed and reserved
   * proposals of every key are within the maximum, and an operation is marked reserved exactly
   * when its bucket holds it.
   */
  lemma RateLimitHolds(max: nat, width: int, calls: seq<PolicyCall>, key: string, id: string)
    requires width >= 1
    ensures var q := RateAfter(max, width, calls);
            && MarkFits(q, id) && HoldFits(q, key, id)
            && (key in q.buckets ==> q.buckets[key].committed + HeldTotal(q.buckets[key]) <= max)
  {
    RateAfterFits(max, width, calls);
    assert BucketWithin(RateAfter(max, width, calls), key, Some(max));
    hide RateAfter, HeldTotal;
  }

  // ---- Runs with a log ----------------------------------------------------

  /** The quota steps behind the calls. */
  ghost function RateOps(max: nat, width: int, calls: seq<PolicyCall>): (ops: seq<QuotaOp>)
    ensures |ops| == |calls|
  {
    if calls == [] then []
    else
      var init := calls[..|calls| - 1];
      RateOps(max, width, init) + [RateOp(RateAfter(max, width, init), max, width, calls[|calls| - 1])]
  }

  lemma {:induction false} RateOpsAreAdmitted(max: nat, width: int, calls: seq<PolicyCall>)
    ensures Ran(RateOps(max, width, calls), width).quota == RateAfter(max, width, calls)
    ensures AllAdmitted(RateOps(max, width, calls), Some(max), width)
  {
    if calls != [] {
      var init, last := calls[..|calls| - 1], calls[|calls| - 1];
      RateOpsAreAdmitted(max, width, init);
      var ops, op := RateOps(max, width, init), RateOp(RateAfter(max, width, init), max, width, last);
      RateOpIsCall(RateAfter(max, width, init), max, width, last);
      AdvanceQuota(Ran(ops, width), op, width);
      assert (ops + [op])[..|ops|] == ops;
      hide Advance, RateOp, RateCall, QuotaStep, Admits;
    }
  }

  /**
   * When no reservation is newly held at a reading before the start of its key's current
   * window: out of any interval of one window length, at most twice the maximum is ever
   * committed.
   */
  lemma RateLimitTwice(max: nat, width: int, calls: seq<PolicyCall>, key: string, from: int)
    requires width >= 1 && AllInTime(RateOps(max, width, calls), width)
    ensures IntervalSum(Ran(RateOps(max, width, calls), width).log, key, from, width) <= 2 * max
  {
    RateOpsAreAdmitted(max, width, calls);
    hide RateOps, Ran, AllInTime, AllAdmitted, IntervalSum;
    TwiceTheCap(RateOps(max, width, calls), max, width, key, from);
  }

  lemma {:induction false} RateOpsRead(max: nat, width: int, calls: seq<PolicyCall>, k: nat)
    requires k < |calls|
    ensures var op := RateOps(max, width, calls)[k]; op.TryHold? ==>
              calls[k].Reserving? && op.now == calls[k].now && op.key == KeyFor(calls[k].p) && op.amount == 1
  {
    hide RateAfter, KeyFor, Digest, Replay, Usage;
    if k < |calls| - 1 { RateOpsRead(max, width, calls[..|calls| - 1], k); }
  }

  /** A clock that does not run backwards reads nothing before a window. */
  lemma RateLimitForward(max: nat, width: int, calls: seq<PolicyCall>)
    requires width >= 1 && InOrder(calls)
    ensures AllInTime(RateOps(max, width, calls), width)
  {
    RateOpsAreAdmitted(max, width, calls);
    var ops := RateOps(max, width, calls);
    forall p | 0 <= p < |ops| ensures ops[p].TryHold? ==> calls[p].Reserving? && ops[p].now == calls[p].now { RateOpsRead(max, width, calls, p); }
    hide RateOps, AllInTime, AllAdmitted, RateAfter;
    Overruns.ForwardIsInTime(ops, Some(max), width);
  }

  /** On an id not seen before, evaluate tells what reserve will answer. */
  lemma EvaluatePredictsReserve(q: Quota, max: nat, width: int, p: AgentProposal, now: int)
    requires p.id !in q.operations
    ensures RateEvaluate(q, max, width, p, now).outcome == RateReserve(q, max, width, p, now).1.outcome
    ensures RateEvaluate(q, max, width, p, now).outcome == Approved <==> RateReserve(q, max, width, p, now).1.state == Some(New)
  {
    hide KeyFor, Digest, Usage, Hold, Rollover;
  }

  /** Releasing a new reservation takes the hold back, and nothing else with it. */
  lemma ReleaseUndoesReserve(q: Quota, max: nat, width: int, p: AgentProposal, now: int)
    requires Fits(q) && width >= 1 && RateReserve(q, max, width, p, now).1.state == Some(New)
    ensures var rolled := Rollover(q, KeyFor(p), now, width);
            var r := Release(RateReserve(q, max, width, p, now).0, p.id);
            && !IsReserved(r, p.id)
            && (forall key :: Usage(r, key, now, width) == Usage(rolled, key, now, width))
            && (forall id | id != p.id :: IsReserved(r, id) <==> IsReserved(rolled, id))
  {
    var key, rolled := KeyFor(p), Rollover(q, KeyFor(p), now, width);
    RolloverFits(q, key, now, width);
    assert !IsReserved(rolled, p.id);
    hide KeyFor, Digest, Rollover, Fits, Release, Hold;
    ReleaseLeavesNoTrace(rolled, key, now, p.id, Digest(p), 1, width);
  }
}
