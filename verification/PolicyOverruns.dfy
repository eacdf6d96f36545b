/**
 * Exactly which clock readings let the calls of a rate limit, or of an amount cap, commit more
 * than twice the limit out of the reservations of one window length.
 */
module PolicyOverruns {
  import opened Outcomes
  import opened Digits
  import opened Sums
  import opened DigestPreimages
  import opened FixedWindows
  import opened Policies
  import opened Overruns
  import opened Plans
  import RateLimit
  import AmountCap

  /** The reserve calls on the key read the clock at the times, in their order, each time at most once. */
  predicate CallsRead(calls: seq<PolicyCall>, at: seq<nat>, times: seq<int>, key: string) {
    && |at| == |calls|
    && (forall k | 0 <= k < |calls| && OnKey(calls[k], key) :: at[k] < |times| && calls[k].now == times[at[k]])
    && forall j, k | 0 <= j < k < |calls| && OnKey(calls[j], key) && OnKey(calls[k], key) :: at[j] < at[k]
  }

  predicate OnKey(call: PolicyCall, key: string) { call.Reserving? && KeyFor(call.p) == key }

  /** The quota step of a call that is admitted, for an amount. */
  function StepOf(call: PolicyCall, amount: AgentProposal -> nat): QuotaOp {
    match call
    case Reserving(p, now) => TryHold(KeyFor(p), p.id, Digest(p), amount(p), now, true)
    case Committing(id) => DoCommit(id)
    case Releasing(id) => DoRelease(id)
  }

  function StepsOf(calls: seq<PolicyCall>, amount: AgentProposal -> nat): seq<QuotaOp> {
    if calls == [] then [] else StepsOf(calls[..|calls| - 1], amount) + [StepOf(calls[|calls| - 1], amount)]
  }

  lemma {:induction false} StepsConcat(a: seq<PolicyCall>, b: seq<PolicyCall>, amount: AgentProposal -> nat)
    ensures StepsOf(a + b, amount) == StepsOf(a, amount) + StepsOf(b, amount)
    decreases |b|
  {
    hide StepOf;
    if b == [] {
      assert a + b == a;
    } else {
      assert (a + b)[..|a + b| - 1] == a + b[..|b| - 1];
      StepsConcat(a, b[..|b| - 1], amount);
    }
  }

  // ---- The calls of a plan ------------------------------------------------

  /** The calls of one turn: reserve and commit a pick, or reserve and release to open a window. */
  function TurnCalls(picks: Picks, times: seq<int>, make: (nat, nat) -> AgentProposal, p: nat): seq<PolicyCall>
    requires p < |times|
  {
    if p in picks then [Reserving(make(p, picks[p].amount), times[p]), Committing(Show(p))]
    else if IsOpener(picks, p) then [Reserving(make(p, 1), times[p]), Releasing(Show(p))]
    else []
  }

  function PlanCalls(picks: Picks, times: seq<int>, make: (nat, nat) -> AgentProposal, n: nat): seq<PolicyCall>
    requires n <= |times|
  {
    if n == 0 then [] else PlanCalls(picks, times, make, n - 1) + TurnCalls(picks, times, make, n - 1)
  }

  /** The proposal for reading p of an amount: the base one under its own id. */
  ghost predicate Makes(make: (nat, nat) -> AgentProposal, key: string, amount: AgentProposal -> nat, most: nat) {
    forall p, a | 1 <= a <= most :: Made(make, key, amount, p, a)
  }

  predicate Made(make: (nat, nat) -> AgentProposal, key: string, amount: AgentProposal -> nat, p: nat, a: nat) {
    make(p, a).id == Show(p) && KeyFor(make(p, a)) == key && amount(make(p, a)) == a
  }

  function DigestOf(make: (nat, nat) -> AgentProposal): (nat, nat) -> string { (p: nat, a: nat) => Digest(make(p, a)) }

  lemma TurnSteps(picks: Picks, times: seq<int>, make: (nat, nat) -> AgentProposal, key: string, amount: AgentProposal -> nat, most: nat, p: nat)
    requires p < |times| && Makes(make, key, amount, most) && most >= 1 && (p in picks ==> 1 <= picks[p].amount <= most)
    ensures StepsOf(TurnCalls(picks, times, make, p), amount) == Turn(picks, times, key, DigestOf(make), p)
  {
    assert Made(make, key, amount, p, 1);
    assert p in picks ==> Made(make, key, amount, p, picks[p].amount);
    hide KeyFor, Digest, Show, IsOpener, Makes;
    var calls := TurnCalls(picks, times, make, p);
    if calls != [] {
      assert calls[..1] == [calls[0]] && [calls[0]][..0] == [];
      assert StepsOf([calls[0]], amount) == [StepOf(calls[0], amount)];
      assert StepsOf(calls, amount) == [StepOf(calls[0], amount)] + [StepOf(calls[1], amount)];
    }
  }

  lemma {:induction false} PlanSteps(picks: Picks, times: seq<int>, make: (nat, nat) -> AgentProposal, key: string, amount: AgentProposal -> nat,
                                     most: nat, n: nat)
    requires n <= |times| && Makes(make, key, amount, most) && most >= 1 && forall p | p in picks :: 1 <= picks[p].amount <= most
    ensures StepsOf(PlanCalls(picks, times, make, n), amount) == Turns(picks, times, key, DigestOf(make), n)
  {
    hide TurnCalls, Turn, Makes, DigestOf;
    if n > 0 {
      PlanSteps(picks, times, make, key, amount, most, n - 1);
      TurnSteps(picks, times, make, key, amount, most, n - 1);
      StepsConcat(PlanCalls(picks, times, make, n - 1), TurnCalls(picks, times, make, n - 1), amount);
    }
  }

  lemma TurnCallsRead(picks: Picks, times: seq<int>, make: (nat, nat) -> AgentProposal, key: string, p: nat)
    requires p < |times|
    ensures CallsRead(TurnCalls(picks, times, make, p), TurnAt(picks, p), times, key)
    ensures forall k | 0 <= k < |TurnAt(picks, p)| :: TurnAt(picks, p)[k] == p
  {
    hide KeyFor, Show, IsOpener;
  }

  lemma CallsConcat(a: seq<PolicyCall>, at: seq<nat>, b: seq<PolicyCall>, bt: seq<nat>, times: seq<int>, key: string, limit: nat)
    requires CallsRead(a, at, times, key) && CallsRead(b, bt, times, key)
    requires AllBelow(at, limit) && forall k | 0 <= k < |bt| :: limit <= bt[k]
    ensures CallsRead(a + b, at + bt, times, key)
  {
    hide OnKey;
  }

  lemma {:induction false} PlanCallsRead(picks: Picks, times: seq<int>, make: (nat, nat) -> AgentProposal, key: string, n: nat)
    requires n <= |times|
    ensures CallsRead(PlanCalls(picks, times, make, n), TurnsAt(picks, n), times, key) && AllBelow(TurnsAt(picks, n), n)
  {
    hide TurnCalls, TurnAt, OnKey;
    if n > 0 {
      PlanCallsRead(picks, times, make, key, n - 1);
      TurnCallsRead(picks, times, make, key, n - 1);
      hide CallsRead;
      CallsConcat(PlanCalls(picks, times, make, n - 1), TurnsAt(picks, n - 1), TurnCalls(picks, times, make, n - 1), TurnAt(picks, n - 1),
                  times, key, n - 1);
    }
  }

  // ---- The rate limit -----------------------------------------------------

  /** Calls over the readings that commit more than twice the maximum out of one interval. */
  ghost predicate RateOverrunsBy(calls: seq<PolicyCall>, at: seq<nat>, times: seq<int>, key: string, max: nat, width: int, from: int) {
    && CallsRead(calls, at, times, key)
    && IntervalSum(Ran(RateLimit.RateOps(max, width, calls), width).log, key, from, width) > 2 * max
  }

  ghost predicate RateCanOverrun(times: seq<int>, key: string, max: nat, width: int) {
    exists calls, at, from :: RateOverrunsBy(calls, at, times, key, max, width, from)
  }

  function One(): AgentProposal -> nat { (p: AgentProposal) => 1 }

  /** An admitted step under a fresh id is the step of its call. */
  lemma RateStep(q: Quota, max: nat, width: int, call: PolicyCall)
    requires call.Reserving? ==> call.p.id !in q.operations && Admits(q, StepOf(call, One()), Some(max), width)
    ensures RateLimit.RateOp(q, max, width, call) == StepOf(call, One())
  {
    hide KeyFor, Digest, Usage, IsReserved, Rollover;
  }

  lemma {:induction false} RateSteps(max: nat, width: int, calls: seq<PolicyCall>)
    requires AllAdmitted(StepsOf(calls, One()), Some(max), width) && FreshFrom(START, StepsOf(calls, One()), width)
    ensures RateLimit.RateOps(max, width, calls) == StepsOf(calls, One())
  {
    if calls != [] {
      var init, last := calls[..|calls| - 1], calls[|calls| - 1];
      var steps := StepsOf(calls, One());
      assert steps[..|steps| - 1] == StepsOf(init, One());
      RateSteps(max, width, init);
      RateLimit.RateOpsAreAdmitted(max, width, init);
      hide Admits, Advance, RateLimit.RateOp, KeyFor, Digest;
      RateStep(RateLimit.RateAfter(max, width, init), max, width, last);
    }
  }

  lemma RateReading(calls: seq<PolicyCall>, at: seq<nat>, times: seq<int>, key: string, max: nat, width: int)
    requires CallsRead(calls, at, times, key)
    ensures Reading(RateLimit.RateOps(max, width, calls), at, times, key) && OpsWithin(RateLimit.RateOps(max, width, calls), key, 1)
  {
    var ops := RateLimit.RateOps(max, width, calls);
    forall k | 0 <= k < |ops|
      ensures ops[k].TryHold? ==> calls[k].Reserving? && ops[k].now == calls[k].now && ops[k].key == KeyFor(calls[k].p) && ops[k].amount == 1
    {
      RateLimit.RateOpsRead(max, width, calls, k);
    }
    hide KeyFor, RateLimit.RateOps;
  }

  lemma RateOverrunHasPlan(calls: seq<PolicyCall>, at: seq<nat>, times: seq<int>, key: string, max: nat, width: int, from: int)
    requires RateOverrunsBy(calls, at, times, key, max, width, from) && width >= 1
    ensures HasPlan(times, width, max, 1)
  {
    var ops := RateLimit.RateOps(max, width, calls);
    RateReading(calls, at, times, key, max, width);
    RateLimit.RateOpsAreAdmitted(max, width, calls);
    hide CallsRead, Reading, OpsWithin, EntriesWithin, HasPlan, RateLimit.RateOps, IntervalSum, Ran, AllAdmitted;
    OpsBoundEntries(ops, key, Some(max), 1, width);
    OverrunHasPlan(ops, at, times, key, max, 1, width, from);
  }

  /** The key does not depend on the id. */
  function RateProposal(base: AgentProposal): (nat, nat) -> AgentProposal { (p: nat, a: nat) => base.(id := Show(p)) }

  lemma RateMakes(base: AgentProposal)
    ensures Makes(RateProposal(base), KeyFor(base), One(), 1)
  {
    forall p: nat, a: nat | 1 <= a <= 1 ensures Made(RateProposal(base), KeyFor(base), One(), p, a) {
      hide Show;
    }
  }

  lemma RatePlanOverruns(times: seq<int>, base: AgentProposal, max: nat, width: int, from: int, picks: Picks)
    requires Plan(times, width, max, 1, from, picks) && width >= 1
    ensures RateCanOverrun(times, KeyFor(base), max, width)
  {
    var key, make := KeyFor(base), RateProposal(base);
    var calls, at := PlanCalls(picks, times, make, |times|), TurnsAt(picks, |times|);
    PlanAmounts(times, width, max, 1, from, picks);
    PlanRuns(picks, times, key, DigestOf(make), width, max, 1, from);
    RateMakes(base);
    PlanSteps(picks, times, make, key, One(), 1, |times|);
    PlanCallsRead(picks, times, make, key, |times|);
    hide Plan, Makes, Turns, TurnsAt, PlanCalls, CallsRead, Reading, AllAdmitted, FreshFrom, Ran, IntervalSum, KeyFor, DigestOf, RateProposal;
    RateSteps(max, width, calls);
    assert RateOverrunsBy(calls, at, times, key, max, width, from);
  }

  /**
   * Exactly when the calls of a rate limit over a list of readings can overrun it: the readings
   * have a plan of reservations that weigh one each.
   */
  lemma RateOverrunsExactly(times: seq<int>, base: AgentProposal, max: nat, width: int)
    requires width >= 1
    ensures RateCanOverrun(times, KeyFor(base), max, width) <==> HasPlan(times, width, max, 1)
  {
    hide RateOverrunsBy, Plan, KeyFor;
    if calls, at, from :| RateOverrunsBy(calls, at, times, KeyFor(base), max, width, from) {
      RateOverrunHasPlan(calls, at, times, KeyFor(base), max, width, from);
    }
    if from, picks :| Plan(times, width, max, 1, from, picks) { RatePlanOverruns(times, base, max, width, from, picks); }
  }

  // ---- The amount cap -----------------------------------------------------

  ghost predicate CapOverrunsBy(calls: seq<PolicyCall>, at: seq<nat>, times: seq<int>, key: string, perTx: Option<nat>, cap: nat, from: int) {
    && CallsRead(calls, at, times, key)
    && IntervalSum(Ran(AmountCap.CapOps(perTx, Some(cap), calls), AmountCap.DAY).log, key, from, AmountCap.DAY) > 2 * cap
  }

  ghost predicate CapCanOverrun(times: seq<int>, key: string, perTx: Option<nat>, cap: nat) {
    exists calls, at, from :: CapOverrunsBy(calls, at, times, key, perTx, cap, from)
  }

  function AmountOf(): AgentProposal -> nat {
    (p: AgentProposal) => var parsed := AmountCap.ParseAmount(p); if parsed.Amount? then parsed.units else 0
  }

  /** The largest amount one call can reserve. */
  function Largest(perTx: Option<nat>, cap: nat): nat { if perTx.Some? && perTx.value < cap then perTx.value else cap }

  /** Every reserve call has an amount within the per-transaction cap. */
  predicate CallFits(call: PolicyCall, perTx: Option<nat>) {
    call.Reserving? ==> AmountCap.ParseAmount(call.p).Amount? && !AmountCap.Above(AmountCap.ParseAmount(call.p).units, perTx)
  }

  predicate CallsFit(calls: seq<PolicyCall>, perTx: Option<nat>) { forall k | 0 <= k < |calls| :: CallFits(calls[k], perTx) }

  lemma CapStep(q: Quota, perTx: Option<nat>, cap: nat, call: PolicyCall)
    requires call.Reserving? ==> call.p.id !in q.operations && Admits(q, StepOf(call, AmountOf()), Some(cap), AmountCap.DAY)
    requires CallFits(call, perTx)
    ensures AmountCap.CapOp(q, perTx, Some(cap), call) == StepOf(call, AmountOf())
  {
    if call.Reserving? { RolledUsage(q, KeyFor(call.p), call.now, AmountCap.DAY); }
    hide KeyFor, Digest, Usage, IsReserved, Rollover, AmountCap.ParseAmount;
  }

  lemma {:induction false} CapSteps(perTx: Option<nat>, cap: nat, calls: seq<PolicyCall>)
    requires AllAdmitted(StepsOf(calls, AmountOf()), Some(cap), AmountCap.DAY) && FreshFrom(START, StepsOf(calls, AmountOf()), AmountCap.DAY)
    requires CallsFit(calls, perTx)
    ensures AmountCap.CapOps(perTx, Some(cap), calls) == StepsOf(calls, AmountOf())
  {
    if calls != [] {
      var init, last := calls[..|calls| - 1], calls[|calls| - 1];
      var steps := StepsOf(calls, AmountOf());
      assert steps[..|steps| - 1] == StepsOf(init, AmountOf());
      assert CallFits(last, perTx);
      CapSteps(perTx, cap, init);
      AmountCap.CapOpsAreAdmitted(perTx, Some(cap), init);
      hide Admits, Advance, AmountCap.CapOp, KeyFor, Digest, CallFits, AmountOf;
      CapStep(AmountCap.CapAfter(perTx, Some(cap), init), perTx, cap, last);
    }
  }

  lemma CapReading(calls: seq<PolicyCall>, at: seq<nat>, times: seq<int>, key: string, perTx: Option<nat>, cap: nat)
    requires CallsRead(calls, at, times, key)
    ensures Reading(AmountCap.CapOps(perTx, Some(cap), calls), at, times, key)
    ensures perTx.Some? ==> OpsWithin(AmountCap.CapOps(perTx, Some(cap), calls), key, perTx.value)
  {
    var ops := AmountCap.CapOps(perTx, Some(cap), calls);
    forall k | 0 <= k < |ops|
      ensures ops[k].TryHold? ==> calls[k].Reserving? && ops[k].now == calls[k].now && ops[k].key == KeyFor(calls[k].p)
      ensures ops[k].TryHold? ==> !AmountCap.Above(ops[k].amount, perTx)
    {
      AmountCap.CapOpsRead(perTx, Some(cap), calls, k);
    }
    hide KeyFor, AmountCap.CapOps;
  }

  lemma CapEntries(ops: seq<QuotaOp>, key: string, perTx: Option<nat>, cap: nat)
    requires AllAdmitted(ops, Some(cap), AmountCap.DAY) && (perTx.Some? ==> OpsWithin(ops, key, perTx.value))
    ensures EntriesWithin(Ran(ops, AmountCap.DAY).log, key, Largest(perTx, cap))
  {
    CapBoundsEntries(ops, key, cap, AmountCap.DAY);
    if perTx.Some? { OpsBoundEntries(ops, key, Some(cap), perTx.value, AmountCap.DAY); }
    hide Ran, OpsWithin, AllAdmitted;
  }

  lemma CapOverrunHasPlan(calls: seq<PolicyCall>, at: seq<nat>, times: seq<int>, key: string, perTx: Option<nat>, cap: nat, from: int)
    requires CapOverrunsBy(calls, at, times, key, perTx, cap, from)
    ensures HasPlan(times, AmountCap.DAY, cap, Largest(perTx, cap))
  {
    var ops := AmountCap.CapOps(perTx, Some(cap), calls);
    CapReading(calls, at, times, key, perTx, cap);
    AmountCap.CapOpsAreAdmitted(perTx, Some(cap), calls);
    hide CallsRead, Reading, OpsWithin, EntriesWithin, HasPlan, AmountCap.CapOps, IntervalSum, Ran, AllAdmitted;
    CapEntries(ops, key, perTx, cap);
    OverrunHasPlan(ops, at, times, key, cap, Largest(perTx, cap), AmountCap.DAY, from);
  }

  function CapProposal(base: AgentProposal): (nat, nat) -> AgentProposal {
    (p: nat, a: nat) => base.(id := Show(p), amount := Some(Show(a)))
  }

  lemma Parsed(base: AgentProposal, p: nat, a: nat)
    ensures AmountCap.ParseAmount(CapProposal(base)(p, a)) == AmountCap.Amount(a) && KeyFor(CapProposal(base)(p, a)) == KeyFor(base)
  {
    NatOfShow(a);
    hide Show, NatOf;
  }

  lemma CapMakes(base: AgentProposal, most: nat)
    ensures Makes(CapProposal(base), KeyFor(base), AmountOf(), most)
  {
    forall p: nat, a: nat | 1 <= a <= most ensures Made(CapProposal(base), KeyFor(base), AmountOf(), p, a) {
      Parsed(base, p, a);
      hide Show, AmountCap.ParseAmount, KeyFor;
    }
  }

  lemma {:induction false} PlanCallsFit(picks: Picks, times: seq<int>, base: AgentProposal, perTx: Option<nat>, cap: nat, n: nat)
    requires n <= |times| && (forall p | p in picks :: picks[p].amount <= Largest(perTx, cap)) && Largest(perTx, cap) >= 1
    ensures CallsFit(PlanCalls(picks, times, CapProposal(base), n), perTx)
  {
    hide TurnCalls, CallFits, CapProposal;
    if n > 0 {
      PlanCallsFit(picks, times, base, perTx, cap, n - 1);
      TurnCallsFit(picks, times, base, perTx, cap, n - 1);
    }
  }

  lemma TurnCallsFit(picks: Picks, times: seq<int>, base: AgentProposal, perTx: Option<nat>, cap: nat, p: nat)
    requires p < |times| && (p in picks ==> picks[p].amount <= Largest(perTx, cap)) && Largest(perTx, cap) >= 1
    ensures CallsFit(TurnCalls(picks, times, CapProposal(base), p), perTx)
  {
    Parsed(base, p, 1);
    if p in picks { Parsed(base, p, picks[p].amount); }
    hide CapProposal, AmountCap.ParseAmount, Show, IsOpener;
  }

  lemma CapPlanOverruns(times: seq<int>, base: AgentProposal, perTx: Option<nat>, cap: nat, from: int, picks: Picks)
    requires Plan(times, AmountCap.DAY, cap, Largest(perTx, cap), from, picks)
    ensures CapCanOverrun(times, KeyFor(base), perTx, cap)
  {
    var key, make, most := KeyFor(base), CapProposal(base), Largest(perTx, cap);
    var calls, at := PlanCalls(picks, times, make, |times|), TurnsAt(picks, |times|);
    PlanAmounts(times, AmountCap.DAY, cap, most, from, picks);
    CapIsPositive(times, AmountCap.DAY, cap, most, from, picks);
    PlanRuns(picks, times, key, DigestOf(make), AmountCap.DAY, cap, most, from);
    CapMakes(base, most);
    PlanSteps(picks, times, make, key, AmountOf(), most, |times|);
    PlanCallsRead(picks, times, make, key, |times|);
    hide Plan, Makes, Turns, TurnsAt, PlanCalls, CallsRead, Reading, AllAdmitted, FreshFrom, Ran, IntervalSum, KeyFor, DigestOf, CapProposal;
    hide CallsFit, AmountOf, Largest;
    PlanCallsFit(picks, times, base, perTx, cap, |times|);
    CapSteps(perTx, cap, calls);
    assert CapOverrunsBy(calls, at, times, key, perTx, cap, from);
  }

  /**
   * Exactly when the calls of an amount cap over a list of readings can overrun it: the readings
   * have a plan of amounts within the per-transaction cap.
   */
  lemma CapOverrunsExactly(times: seq<int>, base: AgentProposal, perTx: Option<nat>, cap: nat)
    ensures CapCanOverrun(times, KeyFor(base), perTx, cap) <==> HasPlan(times, AmountCap.DAY, cap, Largest(perTx, cap))
  {
    hide CapOverrunsBy, Plan, KeyFor, Largest;
    if calls, at, from :| CapOverrunsBy(calls, at, times, KeyFor(base), perTx, cap, from) {
      CapOverrunHasPlan(calls, at, times, KeyFor(base), perTx, cap, from);
    }
    if from, picks :| Plan(times, AmountCap.DAY, cap, Largest(perTx, cap), from, picks) { CapPlanOverruns(times, base, perTx, cap, from, picks); }
  }

  /** Without a smaller per-transaction cap that is: three windows with a reservation of each in one interval. */
  lemma FreeCapOverrunsExactly(times: seq<int>, base: AgentProposal, perTx: Option<nat>, cap: nat)
    requires perTx.Some? ==> perTx.value >= cap
    ensures CapCanOverrun(times, KeyFor(base), perTx, cap) <==> cap >= 1 && ThreeWindows(times, AmountCap.DAY)
  {
    CapOverrunsExactly(times, base, perTx, cap);
    FreePlansAreThreeWindows(times, cap, AmountCap.DAY);
    hide CapCanOverrun, HasPlan, ThreeWindows, KeyFor;
  }

  // ---- Readings that overrun a cap but not a rate limit -------------------

  lemma {:induction false} WeightOne(picks: Picks)
    requires forall p | p in picks :: picks[p].amount <= 1
    ensures Sum(picks, Amounts()) <= |picks|
    decreases |picks|
  {
    if picks == map[] {
      SumZero(picks, Amounts());
    } else {
      var p :| p in picks;
      SumRemove(picks, Amounts(), p);
      WeightOne(picks - {p});
      assert picks.Keys == (picks - {p}).Keys + {p};
      assert |picks.Keys| == |(picks - {p}).Keys| + 1;
    }
  }

  lemma AtMostThree(s: set<nat>, a: nat, b: nat, c: nat)
    requires s <= {a, b, c}
    ensures |s| <= 3
  {
    assert s - {a} - {b} - {c} == {};
    assert |s| <= |s - {a}| + 1 && |s - {a}| <= |s - {a} - {b}| + 1 && |s - {a} - {b}| <= |s - {a} - {b} - {c}| + 1;
  }

  /** The readings 0, w, 0, 2w, 0 let every amount cap be overrun, and no rate limit of two or more. */
  lemma RateHoldsSteppingBack(base: AgentProposal, max: nat, width: int)
    requires width >= 1 && max >= 2
    ensures !RateCanOverrun([0, width, 0, 2 * width, 0], KeyFor(base), max, width)
  {
    var times := [0, width, 0, 2 * width, 0];
    RateOverrunsExactly(times, base, max, width);
    hide RateCanOverrun, KeyFor;
    forall from, picks ensures !Plan(times, width, max, 1, from, picks) { NoRatePlan(max, width, from, picks); }
  }

  /** The readings that can be picked in the interval from `from`: those of one of the three windows. */
  function Pickable(width: int, from: int): set<nat> {
    if from <= width < from + width then {1} else if from <= 2 * width < from + width then {3} else {0, 2, 4}
  }

  lemma OnlyPickable(width: int, from: int, p: nat, pick: Pick)
    requires width >= 1 && PickFits([0, width, 0, 2 * width, 0], width, from, 1, p, pick)
    ensures p in Pickable(width, from) && pick.amount <= 1
  {
  }

  lemma NoRatePlan(max: nat, width: int, from: int, picks: Picks)
    requires width >= 1 && max >= 2
    ensures !Plan([0, width, 0, 2 * width, 0], width, max, 1, from, picks)
  {
    hide InTurn, PickFits;
    if Plan([0, width, 0, 2 * width, 0], width, max, 1, from, picks) {
      forall p | p in picks ensures p in Pickable(width, from) && picks[p].amount <= 1 {
        OnlyPickable(width, from, p, picks[p]);
      }
      FewPicks(width, from, picks);
    }
  }

  lemma FewPicks(width: int, from: int, picks: Picks)
    requires forall p | p in picks :: p in Pickable(width, from) && picks[p].amount <= 1
    ensures Sum(picks, Amounts()) <= 3
  {
    hide Sum, Amounts;
    WeightOne(picks);
    if 1 in Pickable(width, from) {
      AtMostThree(picks.Keys, 1, 1, 1);
    } else if 3 in Pickable(width, from) {
      AtMostThree(picks.Keys, 3, 3, 3);
    } else {
      AtMostThree(picks.Keys, 0, 2, 4);
    }
    assert |picks| == |picks.Keys|;
  }
}
