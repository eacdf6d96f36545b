/** AmountCapPolicy: a cap per transaction and a cap per fixed 24-hour window. */
module AmountCap {
  import opened Outcomes
  import opened Digits
  import opened Sums
  import opened DigestPreimages
  import opened FixedWindows
  import Overruns
  import opened Policies

  const DAY: int := 86_400_000

  datatype Parsed = NoAmount | Amount(units: nat) | BadAmount

  /** BigInt of a digit string; every other text is taken as invalid. */
  function ParseAmount(p: AgentProposal): Parsed {
    if p.amount.None? then NoAmount
    else if p.amount.value != "" && AllDigits(p.amount.value) then Amount(NatOf(p.amount.value))
    else BadAmount
  }

  predicate Above(amount: nat, cap: Option<nat>) { cap.Some? && amount > cap.value }

  /** The daily cap would be exceeded. */
  ghost predicate OverDay(q: Quota, perDay: Option<nat>, key: string, amount: nat, now: int) {
    perDay.Some? && Usage(q, key, now, DAY) + amount > perDay.value
  }

  ghost function CapEvaluate(q: Quota, perTx: Option<nat>, perDay: Option<nat>, p: AgentProposal, now: int): PolicyResult {
    match ParseAmount(p)
    case BadAmount => REJECTED
    case NoAmount => APPROVED
    case Amount(n) => if Above(n, perTx) || OverDay(q, perDay, KeyFor(p), n, now) then REJECTED else APPROVED
  }

  /** An elapsed window is rolled over before the daily cap is looked at, even when the answer is no. */
  ghost function CapReserve(q: Quota, perTx: Option<nat>, perDay: Option<nat>, p: AgentProposal, now: int): (Quota, PolicyResult) {
    if Replay(q, p).Some? then (q, Replay(q, p).value)
    else match ParseAmount(p)
      case BadAmount => (q, REJECTED)
      case NoAmount => (q, APPROVED)
      case Amount(n) =>
        var rolled := Rollover(q, KeyFor(p), now, DAY);
        if Above(n, perTx) then (q, REJECTED)
        else if OverDay(rolled, perDay, KeyFor(p), n, now) then (rolled, REJECTED)
        else (Hold(rolled, KeyFor(p), now, p.id, Digest(p), n), PolicyResult(Approved, Some(New)))
  }

  class AmountCapPolicy {
    const perTx: Option<nat>
    const perDay: Option<nat>
    var buckets: map<string, Bucket>
    var operations: map<string, Operation>

    function Contents(): Quota
      reads this
    {
      Quota(buckets, operations)
    }

    constructor (perTx: Option<nat>, perDay: Option<nat>)
      ensures Contents() == EMPTY_QUOTA && this.perTx == perTx && this.perDay == perDay
    {
      this.perTx := perTx;
      this.perDay := perDay;
      buckets := map[];
      operations := map[];
    }

    /** Committed and reserved usage of the current window; the reservations are added up in a loop. */
    method WindowUsage(key: string, now: int) returns (total: int)
      ensures total == Usage(Contents(), key, now, DAY)
    {
      if key !in buckets || now - buckets[key].windowStart >= DAY { return 0; }
      var b := buckets[key];
      total := b.committed;
      var left := b.held;
      SumZero<string, nat>(map[], Plain());
      while left != map[]
        invariant total + Sum(left, Plain()) == b.committed + HeldTotal(b)
        decreases |left|
      {
        var id :| id in left;
        SumRemove(left, Plain(), id);
        total := total + left[id];
        left := left - {id};
      }
    }

    method Evaluate(p: AgentProposal, now: int) returns (r: PolicyResult)
      ensures r == CapEvaluate(Contents(), perTx, perDay, p, now)
    {
      hide KeyFor, Usage;
      var parsed := ParseAmount(p);
      if parsed.BadAmount? { return REJECTED; }
      if parsed.NoAmount? { return APPROVED; }
      if perTx.Some? && parsed.units > perTx.value { return REJECTED; }
      var used := WindowUsage(KeyFor(p), now);
      if perDay.Some? && used + parsed.units > perDay.value { return REJECTED; }
      return APPROVED;
    }

    method RollOver(key: string, now: int)
      modifies this
      ensures Contents() == Rollover(old(Contents()), key, now, DAY)
    {
      if key !in buckets || now - buckets[key].windowStart < DAY { return; }
      var stale := buckets[key].held.Keys;
      var left := stale;
      while left != {}
        invariant left <= stale && buckets == old(buckets) && operations.Keys == old(operations).Keys
        invariant forall id | id in operations ::
          operations[id] == if id in stale && id !in left then old(operations)[id].(status := Released) else old(operations)[id]
      {
        var id :| id in left;
        left := left - {id};
        if id in operations { operations := operations[id := operations[id].(status := Released)]; }
      }
      assert operations == ReleaseAll(old(operations), stale);
      buckets := buckets[key := Bucket(now, 0, map[])];
    }

    method Reserve(p: AgentProposal, now: int) returns (r: PolicyResult)
      modifies this
      ensures (Contents(), r) == CapReserve(old(Contents()), perTx, perDay, p, now)
    {
      hide KeyFor, Digest, Rollover, Usage;
      var key, digest := KeyFor(p), Digest(p);
      if p.id in operations {
        var known := operations[p.id];
        if known.digest != digest { return REJECTED; }
        if known.key != key { return REJECTED; }
        if known.status.Reserved? { return PolicyResult(Approved, Some(AlreadyReserved)); }
        if known.status.Committed? { return PolicyResult(Approved, Some(AlreadyCommitted)); }
      }
      var parsed := ParseAmount(p);
      if parsed.BadAmount? { return REJECTED; }
      if parsed.NoAmount? { return APPROVED; }
      if perTx.Some? && parsed.units > perTx.value { return REJECTED; }
      RollOver(key, now);
      var used := WindowUsage(key, now);
      if perDay.Some? && used + parsed.units > perDay.value { return REJECTED; }
      var b := if key in buckets then buckets[key] else Bucket(now, 0, map[]);
      buckets := buckets[key := b.(held := b.held[p.id := parsed.units])];
      operations := operations[p.id := Operation(key, parsed.units, digest, Reserved)];
      return PolicyResult(Approved, Some(New));
    }

    method Commit(id: string)
      modifies this
      ensures Contents() == FixedWindows.Commit(old(Contents()), id)
    {
      if id !in operations || !operations[id].status.Reserved? { return; }
      var o := operations[id];
      if !HeldIn(Contents(), o.key, id) {
        operations := operations[id := o.(status := Released)];
        return;
      }
      var b := buckets[o.key];
      buckets := buckets[o.key := Bucket(b.windowStart, b.committed + o.amount, b.held - {id})];
      operations := operations[id := o.(status := Committed)];
    }

    method Release(id: string)
      modifies this
      ensures Contents() == FixedWindows.Release(old(Contents()), id)
    {
      if id !in operations || !operations[id].status.Reserved? { return; }
      var o := operations[id];
      if o.key in buckets {
        var b := buckets[o.key];
        buckets := buckets[o.key := Bucket(b.windowStart, b.committed, b.held - {id})];
      }
      operations := operations[id := o.(status := Released)];
    }
  }

  // ---- Runs ---------------------------------------------------------------

  ghost function CapCall(q: Quota, perTx: Option<nat>, perDay: Option<nat>, call: PolicyCall): Quota {
    match call
    case Reserving(p, now) => CapReserve(q, perTx, perDay, p, now).0
    case Committing(id) => Commit(q, id)
    case Releasing(id) => Release(q, id)
  }

  /** The quota step behind a call: a refusal by the daily cap still rolls the window over. */
  ghost function CapOp(q: Quota, perTx: Option<nat>, perDay: Option<nat>, call: PolicyCall): QuotaOp {
    match call
    case Reserving(p, now) =>
      if Replay(q, p).Some? || !ParseAmount(p).Amount? || Above(ParseAmount(p).units, perTx) then Idle
      else TryHold(KeyFor(p), p.id, Digest(p), ParseAmount(p).units, now,
                   !OverDay(Rollover(q, KeyFor(p), now, DAY), perDay, KeyFor(p), ParseAmount(p).units, now))
    case Committing(id) => DoCommit(id)
    case Releasing(id) => DoRelease(id)
  }

  lemma CapOpIsCall(q: Quota, perTx: Option<nat>, perDay: Option<nat>, call: PolicyCall)
    ensures QuotaStep(q, CapOp(q, perTx, perDay, call), DAY) == CapCall(q, perTx, perDay, call)
    ensures Admits(q, CapOp(q, perTx, perDay, call), perDay, DAY)
  {
    if call.Reserving? { RolledUsage(q, KeyFor(call.p), call.now, DAY); }
    hide KeyFor, Digest, Usage, Hold, Commit, Release;
  }

  /** The quota after the calls. */
  ghost function CapAfter(perTx: Option<nat>, perDay: Option<nat>, calls: seq<PolicyCall>): Quota {
    if calls == [] then EMPTY_QUOTA else CapCall(CapAfter(perTx, perDay, calls[..|calls| - 1]), perTx, perDay, calls[|calls| - 1])
  }

  lemma {:induction false} CapAfterFits(perTx: Option<nat>, perDay: Option<nat>, calls: seq<PolicyCall>)
    ensures CapFits(CapAfter(perTx, perDay, calls), perDay)
  {
    if calls == [] {
      StartFits(perDay);
    } else {
      var init, last := calls[..|calls| - 1], calls[|calls| - 1];
      CapAfterFits(perTx, perDay, init);
      var q := CapAfter(perTx, perDay, init);
      hide CapFits, QuotaStep, Admits, CapOp, CapCall;
      CapOpIsCall(q, perTx, perDay, last);
      StepKeepsCap(q, CapOp(q, perTx, perDay, last), perDay, DAY);
    }
  }

  /**
   * After any calls, whatever the clock read at each of them: the committed and reserved
   * amounts of every key are within the daily cap if there is one, and an operation is marked
   * reserved exactly when its bucket holds it.
   */
  lemma AmountCapHolds(perTx: Option<nat>, perDay: Option<nat>, calls: seq<PolicyCall>, key: string, id: string)
    ensures var q := CapAfter(perTx, perDay, calls);
            && MarkFits(q, id) && HoldFits(q, key, id)
            && (key in q.buckets && perDay.Some? ==> q.buckets[key].committed + HeldTotal(q.buckets[key]) <= perDay.value)
  {
    CapAfterFits(perTx, perDay, calls);
    assert BucketWithin(CapAfter(perTx, perDay, calls), key, perDay);
    hide CapAfter, HeldTotal;
  }

  // ---- Runs with a log ----------------------------------------------------

  /** The quota steps behind the calls. */
  ghost function CapOps(perTx: Option<nat>, perDay: Option<nat>, calls: seq<PolicyCall>): (ops: seq<QuotaOp>)
    ensures |ops| == |calls|
  {
    if calls == [] then []
    else
      var init := calls[..|calls| - 1];
      CapOps(perTx, perDay, init) + [CapOp(CapAfter(perTx, perDay, init), perTx, perDay, calls[|calls| - 1])]
  }

  lemma {:induction false} CapOpsAreAdmitted(perTx: Option<nat>, perDay: Option<nat>, calls: seq<PolicyCall>)
    ensures Ran(CapOps(perTx, perDay, calls), DAY).quota == CapAfter(perTx, perDay, calls)
    ensures AllAdmitted(CapOps(perTx, perDay, calls), perDay, DAY)
  {
    if calls != [] {
      var init, last := calls[..|calls| - 1], calls[|calls| - 1];
      CapOpsAreAdmitted(perTx, perDay, init);
      var ops, op := CapOps(perTx, perDay, init), CapOp(CapAfter(perTx, perDay, init), perTx, perDay, last);
      CapOpIsCall(CapAfter(perTx, perDay, init), perTx, perDay, last);
      AdvanceQuota(Ran(ops, DAY), op, DAY);
      assert (ops + [op])[..|ops|] == ops;
      hide Advance, CapOp, CapCall, QuotaStep, Admits;
    }
  }

  /**
   * When no reservation is newly held at a reading before the start of its key's current
   * window: out of any 24 hours of reservations, at most twice the cap is ever
   * committed.
   */
  lemma AmountCapTwice(perTx: Option<nat>, cap: nat, calls: seq<PolicyCall>, key: string, from: int)
    requires AllInTime(CapOps(perTx, Some(cap), calls), DAY)
    ensures IntervalSum(Ran(CapOps(perTx, Some(cap), calls), DAY).log, key, from, DAY) <= 2 * cap
  {
    CapOpsAreAdmitted(perTx, Some(cap), calls);
    hide CapOps, Ran, AllInTime, AllAdmitted, IntervalSum;
    TwiceTheCap(CapOps(perTx, Some(cap), calls), cap, DAY, key, from);
  }

  lemma {:induction false} CapOpsRead(perTx: Option<nat>, perDay: Option<nat>, calls: seq<PolicyCall>, k: nat)
    requires k < |calls|
    ensures var op := CapOps(perTx, perDay, calls)[k]; op.TryHold? ==>
              calls[k].Reserving? && op.now == calls[k].now && op.key == KeyFor(calls[k].p) && !Above(op.amount, perTx)
  {
    hide CapAfter, KeyFor, Digest, Replay, Usage, OverDay, ParseAmount;
    if k < |calls| - 1 { CapOpsRead(perTx, perDay, calls[..|calls| - 1], k); }
  }

  /** A clock that does not run backwards reads nothing before a window. */
  lemma AmountCapForward(perTx: Option<nat>, perDay: Option<nat>, calls: seq<PolicyCall>)
    requires InOrder(calls)
    ensures AllInTime(CapOps(perTx, perDay, calls), DAY)
  {
    CapOpsAreAdmitted(perTx, perDay, calls);
    var ops := CapOps(perTx, perDay, calls);
    forall p | 0 <= p < |ops| ensures ops[p].TryHold? ==> calls[p].Reserving? && ops[p].now == calls[p].now { CapOpsRead(perTx, perDay, calls, p); }
    hide CapOps, AllInTime, AllAdmitted, CapAfter;
    Overruns.ForwardIsInTime(ops, perDay, DAY);
  }

  /** On an id not seen before, evaluate tells what reserve will answer. */
  lemma EvaluatePredictsReserve(q: Quota, perTx: Option<nat>, perDay: Option<nat>, p: AgentProposal, now: int)
    requires p.id !in q.operations
    ensures CapEvaluate(q, perTx, perDay, p, now).outcome == CapReserve(q, perTx, perDay, p, now).1.outcome
    ensures CapReserve(q, perTx, perDay, p, now).1.state == Some(New)
       <==> CapEvaluate(q, perTx, perDay, p, now).outcome == Approved && p.amount.Some?
  {
    RolledUsage(q, KeyFor(p), now, DAY);
    hide KeyFor, Digest, Usage, Hold, Rollover;
  }

  /** Releasing a new reservation takes the hold back, and nothing else with it. */
  lemma ReleaseUndoesReserve(q: Quota, perTx: Option<nat>, perDay: Option<nat>, p: AgentProposal, now: int)
    requires Fits(q) && CapReserve(q, perTx, perDay, p, now).1.state == Some(New)
    ensures var rolled := Rollover(q, KeyFor(p), now, DAY);
            var r := Release(CapReserve(q, perTx, perDay, p, now).0, p.id);
            && !IsReserved(r, p.id)
            && (forall key :: Usage(r, key, now, DAY) == Usage(rolled, key, now, DAY))
            && (forall id | id != p.id :: IsReserved(r, id) <==> IsReserved(rolled, id))
  {
    var key, rolled := KeyFor(p), Rollover(q, KeyFor(p), now, DAY);
    RolloverFits(q, key, now, DAY);
    assert !IsReserved(rolled, p.id);
    hide KeyFor, Digest, Rollover, Fits, Release, Hold;
    ReleaseLeavesNoTrace(rolled, key, now, p.id, Digest(p), ParseAmount(p).units, DAY);
  }
}
