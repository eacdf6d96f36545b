/**
 * Run-level autonomy: the limits checked before a step is reserved, and how they bound
 * what a run can spend. authorizeAndReserve is taken as one atomic step. The verdicts on
 * transitions, obligations, physical and compute limits and mandates are inputs.
 */
module Autonomy {
  import opened Arithmetic
  import opened Outcomes
  import opened Digits
  import opened Decimals
  import opened ScaledAmounts
  import opened Settlement
  import opened Sums
  import opened RunLedger

  datatype Cap = Cap(tokenId: string, amount: string)

  datatype RunLimits = RunLimits(
    maxSteps: Option<int>, maxParallel: Option<int>, maxFailures: Option<int>, maxDurationMs: Option<int>,
    maxStepSpend: Option<Cap>, maxGrossSpend: Option<Cap>, maxFees: Option<Cap>, maxExposure: Option<Cap>)

  datatype Requirement = Requirement(allOf: seq<string>, anyOf: seq<string>)

  datatype Profile = Profile(limits: RunLimits, escalates: bool, requirements: map<string, Requirement>)

  datatype Boundary = MaxSteps | MaxParallel | MaxFailures | MaxDuration | MaxStepSpend | MaxGrossSpend | MaxFees | MaxExposure

  // ---- checkRunLimits -----------------------------------------------------

  predicate Gt(a: string, b: string) { ToScaled(a) > ToScaled(b) }

  function Add(a: string, b: string): string { FromScaled(ToScaled(a) + ToScaled(b)) }

  /** A running total with one more amount passes a cap on that token. */
  predicate Passes(cap: Option<Cap>, totals: map<string, string>, e: Spend) {
    cap.Some? && cap.value.tokenId == e.tokenId && Gt(Add(Coalesce(Lookup(totals, e.tokenId), "0"), e.amount), cap.value.amount)
  }

  function SpendHit(limits: RunLimits, totals: Totals, e: Spend): Option<Boundary> {
    if limits.maxStepSpend.Some? && limits.maxStepSpend.value.tokenId == e.tokenId && Gt(e.amount, limits.maxStepSpend.value.amount) then
      Some(MaxStepSpend)
    else if Passes(limits.maxGrossSpend, totals.spentByToken, e) then Some(MaxGrossSpend)
    else None
  }

  function FeeHit(limits: RunLimits, totals: Totals, e: Spend): Option<Boundary> {
    if Passes(limits.maxFees, totals.feesByToken, e) then Some(MaxFees) else None
  }

  function ChannelHit(limits: RunLimits, totals: Totals, e: Spend): Option<Boundary> {
    if limits.maxExposure.Some? && Gt(Add(Coalesce(Lookup(totals.outstandingByToken, e.tokenId), "0"), "0"), limits.maxExposure.value.amount)
    then Some(MaxExposure) else None
  }

  function EntryHit(limits: RunLimits, totals: Totals, c: Column, e: Spend): Option<Boundary> {
    match c
    case Spends => SpendHit(limits, totals, e)
    case Fees => FeeHit(limits, totals, e)
    case Channels => ChannelHit(limits, totals, e)
  }

  /** The first boundary one of the entries hits. */
  function FirstHit(limits: RunLimits, totals: Totals, c: Column, entries: seq<Spend>): Option<Boundary> {
    if entries == [] then None
    else
      var before := FirstHit(limits, totals, c, entries[..|entries| - 1]);
      if before.Some? then before else EntryHit(limits, totals, c, entries[|entries| - 1])
  }

  function CountHit(limits: RunLimits, totals: Totals, now: int, startedAt: int): Option<Boundary> {
    if limits.maxSteps.Some? && totals.committedSteps + totals.reservedSteps >= limits.maxSteps.value then Some(MaxSteps)
    else if limits.maxParallel.Some? && totals.reservedSteps >= limits.maxParallel.value then Some(MaxParallel)
    else if limits.maxFailures.Some? && totals.abortedSteps >= limits.maxFailures.value then Some(MaxFailures)
    else if limits.maxDurationMs.Some? && now - startedAt > limits.maxDurationMs.value then Some(MaxDuration)
    else None
  }

  function LimitHit(limits: RunLimits, effects: StepEffects, totals: Totals, now: int, startedAt: int): Option<Boundary> {
    var counts := CountHit(limits, totals, now, startedAt);
    var spends := FirstHit(limits, totals, Spends, Entries(Some(effects), Spends));
    var fees := FirstHit(limits, totals, Fees, Entries(Some(effects), Fees));
    if counts.Some? then counts
    else if spends.Some? then spends
    else if fees.Some? then fees
    else FirstHit(limits, totals, Channels, Entries(Some(effects), Channels))
  }

  method CheckEntryLimits(limits: RunLimits, totals: Totals, c: Column, entries: seq<Spend>) returns (hit: Option<Boundary>)
    ensures hit == FirstHit(limits, totals, c, entries)
  {
    hide EntryHit;
    for k := 0 to |entries|
      invariant FirstHit(limits, totals, c, entries[..k]) == None
    {
      assert entries[..k + 1][..k] == entries[..k];
      hit := EntryHit(limits, totals, c, entries[k]);
      if hit.Some? {
        HitStays(limits, totals, c, entries, k + 1);
        return;
      }
    }
    assert entries[..|entries|] == entries;
    return None;
  }

  lemma {:induction false} HitStays(limits: RunLimits, totals: Totals, c: Column, entries: seq<Spend>, k: nat)
    requires k <= |entries| && FirstHit(limits, totals, c, entries[..k]).Some?
    ensures FirstHit(limits, totals, c, entries) == FirstHit(limits, totals, c, entries[..k])
  {
    if k == |entries| {
      assert entries[..k] == entries;
    } else {
      assert entries[..|entries| - 1][..k] == entries[..k];
      HitStays(limits, totals, c, entries[..|entries| - 1], k);
    }
  }

  method CheckRunLimits(limits: RunLimits, effects: StepEffects, totals: Totals, now: int, startedAt: int) returns (hit: Option<Boundary>)
    ensures hit == LimitHit(limits, effects, totals, now, startedAt)
  {
    hide FirstHit;
    if limits.maxSteps.Some? && totals.committedSteps + totals.reservedSteps >= limits.maxSteps.value { return Some(MaxSteps); }
    if limits.maxParallel.Some? && totals.reservedSteps >= limits.maxParallel.value { return Some(MaxParallel); }
    if limits.maxFailures.Some? && totals.abortedSteps >= limits.maxFailures.value { return Some(MaxFailures); }
    if limits.maxDurationMs.Some? && now - startedAt > limits.maxDurationMs.value { return Some(MaxDuration); }
    hit := CheckEntryLimits(limits, totals, Spends, Entries(Some(effects), Spends));
    if hit.Some? { return; }
    hit := CheckEntryLimits(limits, totals, Fees, Entries(Some(effects), Fees));
    if hit.Some? { return; }
    hit := CheckEntryLimits(limits, totals, Channels, Entries(Some(effects), Channels));
  }

  // ---- authorizeAndReserve ------------------------------------------------

  datatype Request = Request(runId: string, stepId: string, action: string, actionDigest: string, effects: StepEffects, nonce: string)

  /**
   * Verdicts taken as given: the transition and obligation checks, the physical and compute
   * limits (`Some(escalates)` when one is hit), and the usage delta of every mandate that authorises.
   */
  datatype Verdicts = Verdicts(transition: bool, obligations: bool, otherLimit: Option<bool>, mandates: map<string, Usage>)

  datatype Answer = Approved(reservationId: string, usageDeltas: seq<MandateUsage>, expiresAt: int) | Rejected | RequiresHuman

  const RESERVATION_TTL_MS := 60_000

  function ReservationId(runId: string, stepId: string, now: nat): string { "res:" + runId + ":" + stepId + ":" + Show(now) }

  /** evaluateGrantRequirement */
  predicate RequirementMet(requirement: Option<Requirement>, authorized: seq<MandateUsage>) {
    requirement.None? ||
    (&& (forall g | g in requirement.value.allOf :: Names(authorized, g))
     && (|requirement.value.anyOf| > 0 ==> exists g :: g in requirement.value.anyOf && Names(authorized, g)))
  }

  predicate Names(authorized: seq<MandateUsage>, g: string) { exists k :: 0 <= k < |authorized| && authorized[k].mandateId == g }

  /** The grants of a run that authorise the action, in order, with the usage each reserves. */
  function AuthorizedDeltas(grants: seq<string>, mandates: map<string, Usage>): seq<MandateUsage> {
    if grants == [] then []
    else
      var before, g := AuthorizedDeltas(grants[..|grants| - 1], mandates), grants[|grants| - 1];
      if g in mandates then before + [MandateUsage(g, mandates[g])] else before
  }

  function Escalates(hit: Boundary): bool { hit.MaxGrossSpend? || hit.MaxFees? }

  /** The answer to a limit that is hit. */
  function Refusal(profile: Profile, escalation: bool): Answer {
    if escalation && profile.escalates then RequiresHuman else Rejected
  }

  function NewReservation(q: Request, deltas: seq<MandateUsage>, now: int): Reservation {
    Reservation(q.runId, q.stepId, q.actionDigest, Some(q.effects), Some(deltas), now + RESERVATION_TTL_MS, Reserved, None)
  }

  function Authorize(l: Ledger, profiles: map<string, Profile>, q: Request, v: Verdicts, now: nat): (Ledger, Answer) {
    if q.runId !in l.runs || l.runs[q.runId].profileId !in profiles then (l, Rejected)
    else
      var run := l.runs[q.runId];
      var profile := profiles[run.profileId];
      var hit := LimitHit(profile.limits, q.effects, run.totals, now, run.startedAt);
      var deltas := AuthorizedDeltas(run.grantProofIds, v.mandates);
      if UseNonce(l, q.runId, q.nonce).1 != Ok(true) then (l, Rejected)
      else
        var l1 := UseNonce(l, q.runId, q.nonce).0;
        if !v.transition || !v.obligations then (l1, Rejected)
        else if hit.Some? then (l1, Refusal(profile, Escalates(hit.value)))
        else if v.otherLimit.Some? then (l1, Refusal(profile, v.otherLimit.value))
        else if !RequirementMet(Lookup(profile.requirements, q.action), deltas) || deltas == [] then (l1, RequiresHuman)
        else
          var id := ReservationId(q.runId, q.stepId, now);
          (Reserve(l1, id, NewReservation(q, deltas, now)), Approved(id, deltas, now + RESERVATION_TTL_MS))
  }

  class GrantBoundAutonomyPolicy {
    const profiles: map<string, Profile>
    const stateStore: MemoryRunStateStore

    constructor (profiles: map<string, Profile>, stateStore: MemoryRunStateStore)
      ensures this.profiles == profiles && this.stateStore == stateStore
    {
      this.profiles := profiles;
      this.stateStore := stateStore;
    }

    method AuthorizeAndReserve(q: Request, v: Verdicts, now: nat) returns (answer: Answer)
      modifies stateStore
      ensures (stateStore.Contents(), answer) == Authorize(old(stateStore.Contents()), profiles, q, v, now)
    {
      hide LimitHit, RequirementMet;
      if q.runId !in stateStore.runs || stateStore.runs[q.runId].profileId !in profiles { return Rejected; }
      var run := stateStore.runs[q.runId];
      var profile := profiles[run.profileId];
      var accepted := stateStore.CheckNonce(q.runId, q.nonce);
      if accepted != Ok(true) { return Rejected; }
      if !v.transition || !v.obligations { return Rejected; }
      var hit := CheckRunLimits(profile.limits, q.effects, run.totals, now, run.startedAt);
      if hit.Some? { return Refusal(profile, Escalates(hit.value)); }
      if v.otherLimit.Some? { return Refusal(profile, v.otherLimit.value); }
      var deltas := CollectDeltas(run.grantProofIds, v.mandates);
      if !RequirementMet(Lookup(profile.requirements, q.action), deltas) || deltas == [] { return RequiresHuman; }
      var id := ReservationId(q.runId, q.stepId, now);
      stateStore.ReserveStep(id, NewReservation(q, deltas, now));
      return Approved(id, deltas, now + RESERVATION_TTL_MS);
    }

    static method CollectDeltas(grants: seq<string>, mandates: map<string, Usage>) returns (deltas: seq<MandateUsage>)
      ensures deltas == AuthorizedDeltas(grants, mandates)
    {
      deltas := [];
      for k := 0 to |grants|
        invariant deltas == AuthorizedDeltas(grants[..k], mandates)
      {
        assert grants[..k + 1][..k] == grants[..k];
        if grants[k] in mandates { deltas := deltas + [MandateUsage(grants[k], mandates[grants[k]])]; }
      }
      assert grants[..|grants|] == grants;
    }

    /** The receipt carries the executor's effects, or the authorised ones when it gives none. */
    method Commit(now: int, id: string, effects: Option<StepEffects>) returns (error: Option<RunError>)
      modifies stateStore
      ensures var l := old(stateStore.Contents());
              var used := if effects.Some? || id !in l.reservations then effects else l.reservations[id].effects;
              (stateStore.Contents(), error) == RunLedger.Commit(l, now, id, Receipt(now, used, None))
    {
      if id !in stateStore.reservations { return Some(NotFound); }
      var res := stateStore.reservations[id];
      error := stateStore.CommitStep(now, id, Receipt(now, if effects.Some? then effects else res.effects, None));
    }
  }

  // ---- Runs under one policy ----------------------------------------------

  datatype Move = DoAuthorize(request: Request, verdicts: Verdicts, now: nat) | DoStore(op: Op)

  function Play(l: Ledger, profiles: map<string, Profile>, m: Move): Ledger {
    match m
    case DoAuthorize(q, v, now) => Authorize(l, profiles, q, v, now).0
    case DoStore(op) => Apply(l, op)
  }

  function Played(l: Ledger, profiles: map<string, Profile>, moves: seq<Move>): Ledger
    decreases |moves|
  {
    if moves == [] then l else Played(Play(l, profiles, moves[0]), profiles, moves[1..])
  }

  predicate ClosesWith(l: Ledger, id: string, receipt: Receipt) {
    id in l.reservations ==> receipt.effects == l.reservations[id].effects
  }

  /**
   * The discipline the bound rests on: steps are reserved through the policy, under ids that
   * are not those of closed reservations, with at most one entry of the token per action, and
   * are closed with the authorised effects or by a settlement.
   */
  predicate Disciplined(l: Ledger, m: Move, c: Column, tok: string) {
    match m
    case DoAuthorize(q, _, now) =>
      var id := ReservationId(q.runId, q.stepId, now);
      (id in l.reservations ==> l.reservations[id].status.Reserved?) && EntryCount(Entries(Some(q.effects), c), tok) <= 1
    case DoStore(op) =>
      && Proper(l, op) && !op.DoReserve?
      && (op.DoCommit? ==> ClosesWith(l, op.id, op.committed))
      && (op.DoReconcile? && op.receipt.Some? ==> ClosesWith(l, op.id, op.receipt.value))
  }

  predicate AllDisciplined(l: Ledger, profiles: map<string, Profile>, moves: seq<Move>, c: Column, tok: string)
    decreases |moves|
  {
    moves == [] || (Disciplined(l, moves[0], c, tok) && AllDisciplined(Play(l, profiles, moves[0]), profiles, moves[1..], c, tok))
  }

  /** The run-wide cap of a column. */
  function Ceiling(limits: RunLimits, c: Column): Option<Cap> {
    match c
    case Spends => limits.maxGrossSpend
    case Fees => limits.maxFees
    case Channels => None
  }

  predicate Limited(l: Ledger, profiles: map<string, Profile>, runId: string, c: Column, cap: Cap, p: nat) {
    && runId in l.runs && l.runs[runId].profileId in profiles
    && var limits := profiles[l.runs[runId].profileId].limits;
       limits.maxParallel == Some(p as int) && Ceiling(limits, c) == Some(cap)
  }

  /** What a held reservation of the run is authorised to move. */
  function HeldAmount(r: Reservation, runId: string, c: Column, tok: string): nat {
    if r.runId == runId && IsHeld(r) then EntryUnits(Entries(r.effects, c), tok) else 0
  }

  function HeldShare(runId: string, c: Column, tok: string): Reservation -> int {
    (r: Reservation) => HeldAmount(r, runId, c, tok)
  }

  ghost function Held(l: Ledger, runId: string, c: Column, tok: string): int { Sum(l.reservations, HeldShare(runId, c, tok)) }

  lemma HeldNonNegative(l: Ledger, runId: string, c: Column, tok: string)
    ensures Held(l, runId, c, tok) >= 0
  {
    hide HeldAmount;
    SumNonNegative(l.reservations, HeldShare(runId, c, tok));
  }

  function Moved(l: Ledger, runId: string, c: Column, tok: string): int
    requires runId in l.runs
  {
    Recorded(l.runs[runId].totals, RunLedger.Moved(c, tok))
  }

  ghost predicate Bounded(l: Ledger, runId: string, c: Column, cap: Cap, p: nat)
    requires runId in l.runs
  {
    && l.runs[runId].totals.reservedSteps <= p
    && (forall id | id in l.reservations :: AuthorizedWithin(l.reservations[id], runId, c, cap))
    && Moved(l, runId, c, cap.tokenId) + Held(l, runId, c, cap.tokenId) <= p * ToScaled(cap.amount)
  }

  predicate AuthorizedWithin(r: Reservation, runId: string, c: Column, cap: Cap) {
    HeldAmount(r, runId, c, cap.tokenId) <= ToScaled(cap.amount)
    && (r.runId == runId ==> EntryCount(Entries(r.effects, c), cap.tokenId) <= 1)
  }

  // ---- What a passed check gives ------------------------------------------

  lemma PassesMeans(total: Option<string>, amount: string, cap: string)
    ensures Gt(Add(Coalesce(total, "0"), amount), cap) <==> StoredUnits(total) + ToScaled(amount) > ToScaled(cap)
  {
    hide ToScaled, FromScaled;
    ToScaledFromScaled(ToScaled(Coalesce(total, "0")) + ToScaled(amount));
  }

  lemma NotPassed(limits: RunLimits, totals: Totals, c: Column, e: Spend, cap: Cap)
    requires Ceiling(limits, c) == Some(cap) && e.tokenId == cap.tokenId && EntryHit(limits, totals, c, e).None?
    ensures StoredUnits(Lookup(ColumnOf(totals, c), cap.tokenId)) + ToScaled(e.amount) <= ToScaled(cap.amount)
  {
    hide Gt, Add, StoredUnits, ToScaled;
    PassesMeans(Lookup(ColumnOf(totals, c), cap.tokenId), e.amount, cap.amount);
  }

  /** An action that passes the limits has no entry of the token, or fits into what is left of the cap. */
  lemma {:induction false} OneEntryFits(limits: RunLimits, totals: Totals, c: Column, entries: seq<Spend>, cap: Cap)
    requires Ceiling(limits, c) == Some(cap) && FirstHit(limits, totals, c, entries).None? && EntryCount(entries, cap.tokenId) <= 1
    ensures var units := EntryUnits(entries, cap.tokenId);
            if EntryCount(entries, cap.tokenId) == 0 then units == 0
            else StoredUnits(Lookup(ColumnOf(totals, c), cap.tokenId)) + units <= ToScaled(cap.amount)
  {
    hide ToScaled, StoredUnits, EntryHit, Ceiling;
    if entries != [] {
      var init, last := entries[..|entries| - 1], entries[|entries| - 1];
      OneEntryFits(limits, totals, c, init, cap);
      if last.tokenId == cap.tokenId { NotPassed(limits, totals, c, last, cap); }
    }
  }

  // ---- Settled amounts stay within the authorised ones --------------------

  lemma {:induction false} CutTotals(entries: seq<Spend>, tok: string)
    requires TokenTotals(entries).Ok?
    ensures var m := TokenTotals(entries).value;
            && EntryUnits(entries, tok) <= (if tok in m then ToScaled(m[tok]) else 0)
            && (EntryCount(entries, tok) == 0 ==> tok !in m)
            && (EntryCount(entries, tok) <= 1 ==> EntryUnits(entries, tok) == if tok in m then ToScaled(m[tok]) else 0)
  {
    hide ToScaled, IsDecimal, AddDecimal;
    if entries != [] {
      var init, last := entries[..|entries| - 1], entries[|entries| - 1];
      CutTotals(init, tok);
      var before := TokenTotals(init).value;
      if last.tokenId in before {
        DecimalIsAmount(before[last.tokenId]);
        DecimalIsAmount(last.amount);
        ToScaledSuperadditive(before[last.tokenId], last.amount);
      }
    }
  }

  /** An accepted actual consumption moves no more of a token than a single authorised entry. */
  lemma AcceptedWithinAuthorized(reserved: seq<Spend>, actual: seq<Spend>, outside: SettlementError, tok: string)
    requires CheckEntries(reserved, actual, outside).None? && EntryCount(reserved, tok) <= 1
    ensures EntryUnits(actual, tok) <= EntryUnits(reserved, tok)
  {
    CutTotals(reserved, tok);
    CutTotals(actual, tok);
    var r, a := TokenTotals(reserved).value, TokenTotals(actual).value;
    hide ToScaled, IsDecimal, CompareDecimal, EntryUnits, EntryCount, TokenTotals;
    if tok in a {
      DecimalIsAmount(a[tok]);
      DecimalIsAmount(r[tok]);
      ToScaledMonotone(a[tok], r[tok]);
    }
  }

  lemma SettledWithinAuthorized(res: Reservation, now: int, i: Instruction, c: Column, tok: string)
    requires SettlementReceipt(res, now, i).Ok? && !i.disposition.ReleaseNonexecution? && !c.Channels?
    requires EntryCount(Entries(res.effects, c), tok) <= 1
    ensures EntryUnits(Entries(SettlementReceipt(res, now, i).value.effects, c), tok) <= EntryUnits(Entries(res.effects, c), tok)
  {
    hide EntryUnits, EntryCount, CheckEntries, CheckUsages, UsageTotal, UsageReleased;
    if i.disposition.SettleActual? {
      var a := i.actual.value;
      assert ActualCheck(a, res.effects, res.usageDeltas).None?;
      if c.Spends? {
        AcceptedWithinAuthorized(SpendsOf(res.effects), a.spends, SpendOutsideReserved, tok);
      } else {
        AcceptedWithinAuthorized(FeesOf(res.effects), Coalesce(a.fees, []), FeeOutsideReserved, tok);
      }
    }
  }

  // ---- The bound is kept --------------------------------------------------

  /** One reservation changes, together with the totals of its run. */
  lemma ReplaceBounded(l: Ledger, id: string, r: Reservation, totals: Totals, runId: string, c: Column, cap: Cap, p: nat)
    requires runId in l.runs && Bounded(l, runId, c, cap, p)
    requires id in l.reservations && r.runId == l.reservations[id].runId && r.runId in l.runs
    requires r.effects == l.reservations[id].effects && (IsHeld(r) ==> IsHeld(l.reservations[id]))
    requires totals.reservedSteps <= l.runs[r.runId].totals.reservedSteps
    requires r.runId == runId ==>
      Recorded(totals, RunLedger.Moved(c, cap.tokenId)) + HeldAmount(r, runId, c, cap.tokenId)
        <= Moved(l, runId, c, cap.tokenId) + HeldAmount(l.reservations[id], runId, c, cap.tokenId)
    ensures Bounded(Ledger(PutTotals(l.runs, r.runId, totals), l.reservations[id := r]), runId, c, cap, p)
  {
    var l' := Ledger(PutTotals(l.runs, r.runId, totals), l.reservations[id := r]);
    SumReplace(l.reservations, HeldShare(runId, c, cap.tokenId), id, r);
    WithinKept(l.reservations[id], r, runId, c, cap);
    hide HeldAmount, AuthorizedWithin, Recorded, IsHeld;
    assert AuthorizedWithin(l.reservations[id], runId, c, cap);
    assert r.runId != runId ==> Moved(l', runId, c, cap.tokenId) == Moved(l, runId, c, cap.tokenId);
  }

  lemma WithinKept(r: Reservation, r': Reservation, runId: string, c: Column, cap: Cap)
    requires r.runId == r'.runId && r.effects == r'.effects && (IsHeld(r') ==> IsHeld(r))
    ensures AuthorizedWithin(r, runId, c, cap) ==> AuthorizedWithin(r', runId, c, cap)
    ensures r.runId != runId ==> HeldAmount(r, runId, c, cap.tokenId) == HeldAmount(r', runId, c, cap.tokenId) == 0
  {
    hide EntryUnits, EntryCount;
  }

  lemma CommittedMoves(t: Totals, r: Reservation, receipt: Receipt, c: Column, tok: string)
    requires IsHeld(r) && t.reservedSteps >= 1
    requires EntryUnits(Entries(receipt.effects, c), tok) <= EntryUnits(Entries(r.effects, c), tok)
    ensures Recorded(CommitTotals(t, receipt.effects), RunLedger.Moved(c, tok)) <= Recorded(t, RunLedger.Moved(c, tok)) + HeldAmount(r, r.runId, c, tok)
    ensures CommitTotals(t, receipt.effects).reservedSteps <= t.reservedSteps
  {
    hide Entries, EntryUnits, Recorded, Fold;
    CommittedTotals(t, r, receipt, RunLedger.Moved(c, tok));
  }

  lemma CommittedBounded(l: Ledger, id: string, receipt: Receipt, runId: string, c: Column, cap: Cap, p: nat)
    requires Agrees(l) && runId in l.runs && Bounded(l, runId, c, cap, p) && id in l.reservations && IsHeld(l.reservations[id])
    requires EntryUnits(Entries(receipt.effects, c), cap.tokenId) <= EntryUnits(Entries(l.reservations[id].effects, c), cap.tokenId)
    ensures Bounded(CloseCommitted(l, id, receipt), runId, c, cap, p)
  {
    var r := l.reservations[id];
    var t := l.runs[r.runId].totals;
    var r' := r.(status := Status.Committed, receipt := Some(receipt));
    ClampNeverActs(l, id);
    CommittedMoves(t, r, receipt, c, cap.tokenId);
    assert HeldAmount(r', runId, c, cap.tokenId) == 0 && !IsHeld(r');
    assert CloseCommitted(l, id, receipt) == Ledger(PutTotals(l.runs, r.runId, CommitTotals(t, receipt.effects)), l.reservations[id := r']);
    assert Moved(l, runId, c, cap.tokenId) == Recorded(l.runs[runId].totals, RunLedger.Moved(c, cap.tokenId));
    hide *;
    ReplaceBounded(l, id, r', CommitTotals(t, receipt.effects), runId, c, cap, p);
  }

  lemma AbortedBounded(l: Ledger, id: string, receipt: Option<Receipt>, runId: string, c: Column, cap: Cap, p: nat)
    requires Agrees(l) && runId in l.runs && Bounded(l, runId, c, cap, p) && id in l.reservations && IsHeld(l.reservations[id])
    ensures Bounded(CloseAborted(l, id, receipt), runId, c, cap, p)
  {
    var r := l.reservations[id];
    var t := l.runs[r.runId].totals;
    ClampNeverActs(l, id);
    hide Agrees, Bounded, Entries, EntryUnits, StoredUnits;
    ReplaceBounded(l, id, r.(status := Status.Aborted, receipt := receipt), AbortTotals(t), runId, c, cap, p);
  }

  predicate SameHold(r: Reservation, r': Reservation) {
    r.runId == r'.runId && r.effects == r'.effects && IsHeld(r) == IsHeld(r')
  }

  /** Changes that close nothing: becoming outcome-unknown, a longer lease. */
  lemma HoldsKept(l: Ledger, changed: map<string, Reservation>, runId: string, c: Column, cap: Cap, p: nat)
    requires runId in l.runs && Bounded(l, runId, c, cap, p) && changed.Keys == l.reservations.Keys
    requires forall id | id in changed :: SameHold(l.reservations[id], changed[id])
    ensures Bounded(l.(reservations := changed), runId, c, cap, p)
  {
    hide Recorded, EntryUnits, EntryCount, Entries;
    SumSame(l.reservations, changed, HeldShare(runId, c, cap.tokenId));
    forall id | id in changed ensures AuthorizedWithin(changed[id], runId, c, cap) {
      assert AuthorizedWithin(l.reservations[id], runId, c, cap);
    }
  }

  lemma ExpireBounded(l: Ledger, now: int, id: string, runId: string, c: Column, cap: Cap, p: nat)
    requires id in l.reservations && runId in l.runs && Bounded(l, runId, c, cap, p)
    ensures Bounded(Expire(l, now, id), runId, c, cap, p)
  {
    hide Bounded;
    HoldsKept(l, l.reservations[id := Expired(l.reservations[id], now)], runId, c, cap, p);
  }

  lemma SettleBounded(l: Ledger, now: int, i: Instruction, runId: string, c: Column, cap: Cap, p: nat)
    requires Agrees(l) && runId in l.runs && Bounded(l, runId, c, cap, p) && !c.Channels?
    ensures runId in Settle(l, now, i).0.runs && Bounded(Settle(l, now, i).0, runId, c, cap, p)
  {
    if i.reservationId in l.reservations && IsHeld(l.reservations[i.reservationId]) {
      var id := i.reservationId;
      var l1 := Expire(l, now, id);
      ExpireAgrees(l, now, id);
      ExpireBounded(l, now, id, runId, c, cap, p);
      var receipt := SettlementReceipt(l1.reservations[id], now, i);
      hide Agrees, CloseCommitted, CloseAborted, SettlementReceipt, HeldAmount, Entries, EntryCount, EntryUnits, Held;
      RunsKept(l1, id);
      if receipt.Ok? {
        if i.disposition.ReleaseNonexecution? {
          AbortedBounded(l1, id, Some(receipt.value), runId, c, cap, p);
        } else if l.reservations[id].runId == runId {
          assert AuthorizedWithin(l1.reservations[id], runId, c, cap);
          SettledWithinAuthorized(l1.reservations[id], now, i, c, cap.tokenId);
          CommittedBounded(l1, id, receipt.value, runId, c, cap, p);
        } else {
          OtherRunBounded(l1, id, receipt.value, runId, c, cap, p);
        }
      }
    }
  }

  lemma RunsKept(l: Ledger, id: string)
    requires id in l.reservations
    ensures forall receipt :: CloseCommitted(l, id, receipt).runs.Keys == l.runs.Keys
    ensures forall receipt :: CloseAborted(l, id, receipt).runs.Keys == l.runs.Keys
  {}

  lemma OtherRunBounded(l: Ledger, id: string, receipt: Receipt, runId: string, c: Column, cap: Cap, p: nat)
    requires Agrees(l) && runId in l.runs && Bounded(l, runId, c, cap, p) && id in l.reservations && IsHeld(l.reservations[id])
    requires l.reservations[id].runId != runId
    ensures Bounded(CloseCommitted(l, id, receipt), runId, c, cap, p)
  {
    var r := l.reservations[id];
    ClampNeverActs(l, id);
    hide Agrees, Bounded, Entries, EntryUnits, Recorded, Fold;
    ReplaceBounded(l, id, r.(status := Status.Committed, receipt := Some(receipt)), CommitTotals(l.runs[r.runId].totals, receipt.effects),
                   runId, c, cap, p);
  }

  lemma ReconcileBounded(l: Ledger, now: int, id: string, verdict: Verdict, receipt: Option<Receipt>,
                         runId: string, c: Column, cap: Cap, p: nat)
    requires Agrees(l) && runId in l.runs && Bounded(l, runId, c, cap, p) && (receipt.Some? ==> ClosesWith(l, id, receipt.value))
    ensures var l' := Reconcile(l, now, id, verdict, receipt).0; runId in l'.runs && Bounded(l', runId, c, cap, p)
  {
    if id in l.reservations {
      var l1 := Expire(l, now, id);
      ExpireAgrees(l, now, id);
      ExpireBounded(l, now, id, runId, c, cap, p);
      hide Agrees, CloseCommitted, CloseAborted, Bounded, Entries, EntryUnits;
      RunsKept(l1, id);
      if l1.reservations[id].status.Unknown? {
        var used := Coalesce(receipt, Receipt(now, l1.reservations[id].effects, None));
        AbortedBounded(l1, id, l1.reservations[id].receipt, runId, c, cap, p);
        CommittedBounded(l1, id, used, runId, c, cap, p);
      }
    }
  }

  lemma CommitBounded(l: Ledger, now: int, id: string, receipt: Receipt, runId: string, c: Column, cap: Cap, p: nat)
    requires Agrees(l) && runId in l.runs && Bounded(l, runId, c, cap, p) && ClosesWith(l, id, receipt)
    ensures var l' := RunLedger.Commit(l, now, id, receipt).0; runId in l'.runs && Bounded(l', runId, c, cap, p)
  {
    if id in l.reservations && l.reservations[id].status.Reserved? {
      hide Agrees, CloseCommitted, Bounded, Entries, EntryUnits;
      RunsKept(l, id);
      ExpireBounded(l, now, id, runId, c, cap, p);
      CommittedBounded(l, id, receipt, runId, c, cap, p);
    }
  }

  /** Opening another run or using a nonce moves nothing. */
  lemma TotalsKept(l: Ledger, runs: map<string, Run>, runId: string, c: Column, cap: Cap, p: nat)
    requires runId in l.runs && Bounded(l, runId, c, cap, p) && runId in runs && runs[runId].totals == l.runs[runId].totals
    ensures Bounded(l.(runs := runs), runId, c, cap, p)
  {
    hide Recorded, AuthorizedWithin, HeldAmount;
  }

  lemma StoreBounded(l: Ledger, op: Op, runId: string, c: Column, cap: Cap, p: nat)
    requires Agrees(l) && runId in l.runs && Bounded(l, runId, c, cap, p) && !c.Channels? && Disciplined(l, DoStore(op), c, cap.tokenId)
    ensures runId in Apply(l, op).runs && Bounded(Apply(l, op), runId, c, cap, p)
  {
    hide Agrees, Bounded, CloseAborted, RunLedger.Commit, Settle, Reconcile;
    match op
    case DoOpenRun(other, run) => TotalsKept(l, OpenRun(l, other, run).0.runs, runId, c, cap, p);
    case DoCommit(now, id, receipt) => CommitBounded(l, now, id, receipt, runId, c, cap, p);
    case DoAbort(id) =>
      if id in l.reservations && l.reservations[id].status.Reserved? {
        RunsKept(l, id);
        AbortedBounded(l, id, l.reservations[id].receipt, runId, c, cap, p);
      }
    case DoRecover(now, only) => HoldsKept(l, Recover(l, now, only).reservations, runId, c, cap, p);
    case DoReconcile(now, id, verdict, receipt) => ReconcileBounded(l, now, id, verdict, receipt, runId, c, cap, p);
    case DoSettle(now, i) => SettleBounded(l, now, i, runId, c, cap, p);
    case DoRenew(now, id, extendsTo) =>
      if id in l.reservations {
        ExpireBounded(l, now, id, runId, c, cap, p);
        HoldsKept(l, l.reservations[id := l.reservations[id].(expiresAt := extendsTo)], runId, c, cap, p);
      }
    case DoUseNonce(other, nonce) => TotalsKept(l, UseNonce(l, other, nonce).0.runs, runId, c, cap, p);
  }

  // ---- Reserving ----------------------------------------------------------

  lemma HeldInSlot(r: Reservation, runId: string, c: Column, cap: Cap)
    requires AuthorizedWithin(r, runId, c, cap)
    ensures HeldAmount(r, runId, c, cap.tokenId) <= Share(r, runId, HeldSteps) * ToScaled(cap.amount)
  {
    hide ToScaled, EntryUnits, EntryCount, Entries;
  }

  /** What is held is at most the number of held reservations times the cap. */
  lemma HeldPerSlot(l: Ledger, runId: string, c: Column, cap: Cap, p: nat)
    requires Agrees(l) && runId in l.runs && Bounded(l, runId, c, cap, p)
    ensures Held(l, runId, c, cap.tokenId) <= l.runs[runId].totals.reservedSteps * ToScaled(cap.amount)
  {
    var slots, none, held, units := ShareOf(runId, HeldSteps), (r: Reservation) => 0, HeldShare(runId, c, cap.tokenId), ToScaled(cap.amount);
    assert TallyAgrees(l, runId, HeldSteps);
    assert l.runs[runId].totals.reservedSteps == Sum(l.reservations, slots);
    forall id | id in l.reservations
      ensures none(l.reservations[id]) * units <= held(l.reservations[id])
      ensures held(l.reservations[id]) <= none(l.reservations[id]) * units + slots(l.reservations[id]) * units
    {
      assert AuthorizedWithin(l.reservations[id], runId, c, cap);
      hide ToScaled, AuthorizedWithin, HeldAmount, Share;
      HeldInSlot(l.reservations[id], runId, c, cap);
    }
    assert Held(l, runId, c, cap.tokenId) == Sum(l.reservations, held);
    SumZero(l.reservations, none);
    hide *;
    SumBetween(l.reservations, none, held, slots, units);
  }

  lemma SlotArithmetic(moved: nat, held: nat, units: nat, n: nat, p: nat, cap: nat)
    requires n < p && held <= n * cap && moved + held <= p * cap && (units == 0 || moved + units <= cap)
    ensures moved + held + units <= p * cap
  {
    if units != 0 {
      DistributeSum(n, 1, cap);
      if n + 1 < p { DistributeSum(n + 1, p - n - 1, cap); }
    }
  }

  /** A new reservation that passed the limits of its run. */
  lemma ReserveBounded(l: Ledger, id: string, r: Reservation, limits: RunLimits, runId: string, c: Column, cap: Cap, p: nat)
    requires Agrees(l) && runId in l.runs && Bounded(l, runId, c, cap, p)
    requires id !in l.reservations && r.runId == runId && r.status.Reserved? && Ceiling(limits, c) == Some(cap)
    requires l.runs[runId].totals.reservedSteps < p
    requires FirstHit(limits, l.runs[runId].totals, c, Entries(r.effects, c)).None? && EntryCount(Entries(r.effects, c), cap.tokenId) <= 1
    ensures runId in Reserve(l, id, r).runs && Bounded(Reserve(l, id, r), runId, c, cap, p)
  {
    var t, l', units := l.runs[runId].totals, Reserve(l, id, r), EntryUnits(Entries(r.effects, c), cap.tokenId);
    OneEntryFits(limits, t, c, Entries(r.effects, c), cap);
    HeldPerSlot(l, runId, c, cap, p);
    NewHold(l, id, r, c, cap.tokenId);
    MovedIsStored(l, runId, c, cap.tokenId);
    HeldNonNegative(l, runId, c, cap.tokenId);
    hide Entries, EntryUnits, EntryCount, ToScaled, HeldAmount, TallyAgrees, Moved, FirstHit, Ceiling, StoredUnits, Held;
    SlotArithmetic(Moved(l, runId, c, cap.tokenId), Held(l, runId, c, cap.tokenId), units, t.reservedSteps, p, ToScaled(cap.amount));
  }

  lemma MovedIsStored(l: Ledger, runId: string, c: Column, tok: string)
    requires runId in l.runs
    ensures Moved(l, runId, c, tok) == StoredUnits(Lookup(ColumnOf(l.runs[runId].totals, c), tok)) >= 0
  {}

  lemma NewHold(l: Ledger, id: string, r: Reservation, c: Column, tok: string)
    requires Agrees(l) && id !in l.reservations && r.status.Reserved? && r.runId in l.runs
    ensures HeldAmount(r, r.runId, c, tok) == EntryUnits(Entries(r.effects, c), tok)
    ensures Held(Reserve(l, id, r), r.runId, c, tok) == Held(l, r.runId, c, tok) + EntryUnits(Entries(r.effects, c), tok)
    ensures Moved(Reserve(l, id, r), r.runId, c, tok) == Moved(l, r.runId, c, tok)
    ensures l.runs[r.runId].totals.reservedSteps >= 0
  {
    assert TallyAgrees(l, r.runId, HeldSteps);
    hide Entries, EntryUnits, StoredUnits, TallyAgrees;
    SumNonNegative(l.reservations, ShareOf(r.runId, HeldSteps));
    SumInsert(l.reservations, HeldShare(r.runId, c, tok), id, r);
  }

  lemma OtherReserveBounded(l: Ledger, id: string, r: Reservation, runId: string, c: Column, cap: Cap, p: nat)
    requires runId in l.runs && Bounded(l, runId, c, cap, p) && id !in l.reservations && r.runId != runId
    ensures runId in Reserve(l, id, r).runs && Bounded(Reserve(l, id, r), runId, c, cap, p)
  {
    SumInsert(l.reservations, HeldShare(runId, c, cap.tokenId), id, r);
    assert HeldAmount(r, runId, c, cap.tokenId) == 0;
    hide Entries, EntryUnits, EntryCount, ToScaled, HeldAmount, Recorded;
  }

  predicate ReservesWith(l: Ledger, profiles: map<string, Profile>, q: Request, v: Verdicts, now: nat, deltas: seq<MandateUsage>) {
    Authorize(l, profiles, q, v, now).0
      == Reserve(UseNonce(l, q.runId, q.nonce).0, ReservationId(q.runId, q.stepId, now), NewReservation(q, deltas, now))
  }

  /** What an approval tells about the ledger. */
  lemma ApprovalMeans(l: Ledger, profiles: map<string, Profile>, q: Request, v: Verdicts, now: nat)
    requires Authorize(l, profiles, q, v, now).1.Approved?
    ensures q.runId in l.runs && l.runs[q.runId].profileId in profiles
    ensures var run := l.runs[q.runId];
            && var limits := profiles[run.profileId].limits;
            && CountHit(limits, run.totals, now, run.startedAt).None?
            && forall c: Column :: FirstHit(limits, run.totals, c, Entries(Some(q.effects), c)).None?
    ensures q.nonce !in l.runs[q.runId].usedNonces
    ensures exists deltas :: ReservesWith(l, profiles, q, v, now, deltas)
  {
    hide FirstHit, CountHit, RequirementMet, NewReservation, ReservationId;
    var deltas := AuthorizedDeltas(l.runs[q.runId].grantProofIds, v.mandates);
    assert ReservesWith(l, profiles, q, v, now, deltas);
  }

  /** A refusal uses up at most the nonce. */
  lemma RefusalMeans(l: Ledger, profiles: map<string, Profile>, q: Request, v: Verdicts, now: nat)
    requires !Authorize(l, profiles, q, v, now).1.Approved?
    ensures Authorize(l, profiles, q, v, now).0 in {l, UseNonce(l, q.runId, q.nonce).0}
  {
    hide LimitHit, RequirementMet, Reserve;
  }

  lemma AuthorizeAgrees(l: Ledger, profiles: map<string, Profile>, q: Request, v: Verdicts, now: nat)
    requires Agrees(l)
    requires var id := ReservationId(q.runId, q.stepId, now); id in l.reservations ==> l.reservations[id].status.Reserved?
    ensures Agrees(Authorize(l, profiles, q, v, now).0)
  {
    hide Agrees, Authorize;
    var id, l1 := ReservationId(q.runId, q.stepId, now), UseNonce(l, q.runId, q.nonce).0;
    NonceAgrees(l, q.runId, q.nonce);
    if Authorize(l, profiles, q, v, now).1.Approved? {
      ApprovalMeans(l, profiles, q, v, now);
      var deltas :| ReservesWith(l, profiles, q, v, now, deltas);
      if id !in l.reservations { ReserveAgrees(l1, id, NewReservation(q, deltas, now)); }
    } else {
      RefusalMeans(l, profiles, q, v, now);
    }
  }

  lemma AuthorizeBounded(l: Ledger, profiles: map<string, Profile>, q: Request, v: Verdicts, now: nat,
                         runId: string, c: Column, cap: Cap, p: nat)
    requires Agrees(l) && Limited(l, profiles, runId, c, cap, p) && Bounded(l, runId, c, cap, p)
    requires Disciplined(l, DoAuthorize(q, v, now), c, cap.tokenId)
    ensures var l' := Authorize(l, profiles, q, v, now).0; runId in l'.runs && Bounded(l', runId, c, cap, p)
  {
    var id, l1 := ReservationId(q.runId, q.stepId, now), UseNonce(l, q.runId, q.nonce).0;
    NonceAgrees(l, q.runId, q.nonce);
    TotalsKept(l, l1.runs, runId, c, cap, p);
    assert l1 == l.(runs := l1.runs);
    hide Agrees, Bounded, Authorize, FirstHit, EntryCount, Entries;
    if Authorize(l, profiles, q, v, now).1.Approved? {
      ApprovalMeans(l, profiles, q, v, now);
      var deltas :| ReservesWith(l, profiles, q, v, now, deltas);
      var r := NewReservation(q, deltas, now);
      if id !in l.reservations && q.runId == runId {
        ReserveBounded(l1, id, r, profiles[l.runs[runId].profileId].limits, runId, c, cap, p);
      } else if id !in l.reservations {
        OtherReserveBounded(l1, id, r, runId, c, cap, p);
      }
    } else {
      RefusalMeans(l, profiles, q, v, now);
    }
  }

  // ---- Whole runs ---------------------------------------------------------

  /** A run stays, with its profile, and forgets no nonce. */
  predicate Continues(l: Ledger, l': Ledger, runId: string) {
    runId in l.runs ==>
      && runId in l'.runs && l'.runs[runId].profileId == l.runs[runId].profileId
      && l.runs[runId].usedNonces <= l'.runs[runId].usedNonces
  }

  lemma StoreContinues(l: Ledger, op: Op, runId: string)
    ensures Continues(l, Apply(l, op), runId)
  {
    hide SettlementReceipt, CommitTotals, AbortTotals, Expired, Recovered, SettledBy;
  }

  lemma AuthorizeContinues(l: Ledger, profiles: map<string, Profile>, q: Request, v: Verdicts, now: nat, runId: string)
    ensures Continues(l, Authorize(l, profiles, q, v, now).0, runId)
  {
    hide LimitHit, RequirementMet, NewReservation, ReservationId, Authorize, AuthorizedDeltas;
    if Authorize(l, profiles, q, v, now).1.Approved? {
      ApprovalMeans(l, profiles, q, v, now);
      var deltas :| ReservesWith(l, profiles, q, v, now, deltas);
    } else {
      RefusalMeans(l, profiles, q, v, now);
    }
  }

  lemma PlayContinues(l: Ledger, profiles: map<string, Profile>, m: Move, runId: string)
    ensures Continues(l, Play(l, profiles, m), runId)
  {
    hide Continues, Authorize, Apply;
    match m
    case DoAuthorize(q, v, now) => AuthorizeContinues(l, profiles, q, v, now, runId);
    case DoStore(op) => StoreContinues(l, op, runId);
  }

  lemma {:induction false} PlayedContinues(l: Ledger, profiles: map<string, Profile>, moves: seq<Move>, runId: string)
    ensures Continues(l, Played(l, profiles, moves), runId)
    decreases |moves|
  {
    hide Play;
    if moves != [] {
      PlayContinues(l, profiles, moves[0], runId);
      PlayedContinues(Play(l, profiles, moves[0]), profiles, moves[1..], runId);
    }
  }

  /** A nonce gets at most one step of a run past the check, whatever happens in between. */
  lemma NonceAdmitsOnce(l: Ledger, profiles: map<string, Profile>, q: Request, v: Verdicts, now: nat, moves: seq<Move>,
                        q': Request, v': Verdicts, now': nat)
    requires Authorize(l, profiles, q, v, now).1.Approved? && q'.runId == q.runId && q'.nonce == q.nonce
    ensures var l' := Played(Authorize(l, profiles, q, v, now).0, profiles, moves);
            Authorize(l', profiles, q', v', now') == (l', Rejected)
  {
    var l1 := Authorize(l, profiles, q, v, now).0;
    ApprovalMeans(l, profiles, q, v, now);
    var deltas :| ReservesWith(l, profiles, q, v, now, deltas);
    hide LimitHit, RequirementMet, NewReservation, ReservationId, Authorize;
    assert q.nonce in l1.runs[q.runId].usedNonces;
    PlayedContinues(l1, profiles, moves, q.runId);
    UsedNonceRejects(Played(l1, profiles, moves), profiles, q', v', now');
  }

  lemma UsedNonceRejects(l: Ledger, profiles: map<string, Profile>, q: Request, v: Verdicts, now: nat)
    requires q.runId in l.runs && q.nonce in l.runs[q.runId].usedNonces
    ensures Authorize(l, profiles, q, v, now) == (l, Rejected)
  {
    hide LimitHit, RequirementMet, NewReservation, ReservationId;
  }

  lemma PlayAgrees(l: Ledger, profiles: map<string, Profile>, m: Move, c: Column, tok: string)
    requires Agrees(l) && Disciplined(l, m, c, tok)
    ensures Agrees(Play(l, profiles, m))
  {
    hide Agrees, Authorize, Apply;
    match m
    case DoAuthorize(q, v, now) => AuthorizeAgrees(l, profiles, q, v, now);
    case DoStore(op) => StepAgrees(l, op);
  }

  lemma NothingMoved(c: Column, tok: string)
    ensures Recorded(ZERO_TOTALS, RunLedger.Moved(c, tok)) == 0
  {
    ToScaledZero();
    hide ToScaled;
  }

  lemma HoldsNothing(r: Reservation, runId: string, c: Column, cap: Cap)
    requires r.runId != runId
    ensures HeldAmount(r, runId, c, cap.tokenId) == 0 && AuthorizedWithin(r, runId, c, cap)
  {}

  /** A run just opened has moved and holds nothing. */
  lemma OpenedBounded(l: Ledger, runId: string, run: Run, c: Column, cap: Cap, p: nat)
    requires Agrees(l) && runId !in l.runs && run.totals == ZERO_TOTALS
    ensures Bounded(OpenRun(l, runId, run).0, runId, c, cap, p)
  {
    assert forall id | id in l.reservations :: l.reservations[id].runId != runId;
    NothingMoved(c, cap.tokenId);
    hide ToScaled, Agrees, Recorded, HeldAmount, AuthorizedWithin;
    forall id | id in l.reservations
      ensures HeldAmount(l.reservations[id], runId, c, cap.tokenId) == 0 && AuthorizedWithin(l.reservations[id], runId, c, cap)
    {
      HoldsNothing(l.reservations[id], runId, c, cap);
    }
    SumZero(l.reservations, HeldShare(runId, c, cap.tokenId));
    NoRoomNeeded(p, ToScaled(cap.amount));
    var l' := OpenRun(l, runId, run).0;
    assert Moved(l', runId, c, cap.tokenId) + Held(l', runId, c, cap.tokenId) == 0;
    assert l'.runs[runId].totals.reservedSteps == 0 && l'.reservations == l.reservations;
    hide Moved, Held, OpenRun, HeldShare;
  }

  lemma NoRoomNeeded(p: nat, cap: nat)
    ensures 0 <= p * cap
  {}

  ghost predicate Kept(l: Ledger, profiles: map<string, Profile>, runId: string, c: Column, cap: Cap, p: nat) {
    Agrees(l) && (Limited(l, profiles, runId, c, cap, p) ==> Bounded(l, runId, c, cap, p))
  }

  lemma OnlyOpeningAddsRuns(l: Ledger, profiles: map<string, Profile>, m: Move, runId: string)
    requires runId !in l.runs && runId in Play(l, profiles, m).runs
    ensures m.DoStore? && m.op.DoOpenRun? && m.op.runId == runId
  {
    hide SettlementReceipt, CommitTotals, AbortTotals, Expired, Recovered, SettledBy, LimitHit, RequirementMet, NewReservation, ReservationId;
  }

  lemma PlayKeeps(l: Ledger, profiles: map<string, Profile>, m: Move, runId: string, c: Column, cap: Cap, p: nat)
    requires Kept(l, profiles, runId, c, cap, p) && Disciplined(l, m, c, cap.tokenId)
    ensures Kept(Play(l, profiles, m), profiles, runId, c, cap, p)
  {
    var l' := Play(l, profiles, m);
    PlayAgrees(l, profiles, m, c, cap.tokenId);
    PlayContinues(l, profiles, m, runId);
    hide Agrees, Bounded, Authorize, Apply, Disciplined;
    if Limited(l', profiles, runId, c, cap, p) {
      if runId in l.runs {
        match m
        case DoAuthorize(q, v, now) => AuthorizeBounded(l, profiles, q, v, now, runId, c, cap, p);
        case DoStore(op) => StoreBounded(l, op, runId, c, cap, p);
      } else {
        OnlyOpeningAddsRuns(l, profiles, m, runId);
        OpeningBounded(l, m.op, runId, c, cap, p);
      }
    }
  }

  lemma OpeningBounded(l: Ledger, op: Op, runId: string, c: Column, cap: Cap, p: nat)
    requires Agrees(l) && runId !in l.runs && op.DoOpenRun? && op.runId == runId && Disciplined(l, DoStore(op), c, cap.tokenId)
    ensures runId in Apply(l, op).runs && Bounded(Apply(l, op), runId, c, cap, p)
  {
    OpenedBounded(l, runId, op.run, c, cap, p);
    hide Agrees, Bounded;
  }

  lemma {:induction false} PlayedKeeps(l: Ledger, profiles: map<string, Profile>, moves: seq<Move>, runId: string, c: Column, cap: Cap, p: nat)
    requires Kept(l, profiles, runId, c, cap, p) && AllDisciplined(l, profiles, moves, c, cap.tokenId)
    ensures Kept(Played(l, profiles, moves), profiles, runId, c, cap, p)
    decreases |moves|
  {
    hide Kept, Play, Disciplined;
    if moves != [] {
      PlayKeeps(l, profiles, moves[0], runId, c, cap, p);
      PlayedKeeps(Play(l, profiles, moves[0]), profiles, moves[1..], runId, c, cap, p);
    }
  }

  /**
   * The spend bound: with at most p parallel steps and a run-wide cap on a token, what a run
   * has spent plus what its open steps hold never exceeds p times the cap (in units of
   * 10^-8). With one step at a time the spend itself stays within the cap.
   */
  lemma SpendBound(profiles: map<string, Profile>, moves: seq<Move>, runId: string, c: Column, cap: Cap, p: nat)
    requires AllDisciplined(EMPTY_LEDGER, profiles, moves, c, cap.tokenId)
    requires Limited(Played(EMPTY_LEDGER, profiles, moves), profiles, runId, c, cap, p)
    ensures var l := Played(EMPTY_LEDGER, profiles, moves);
            && Moved(l, runId, c, cap.tokenId) + Held(l, runId, c, cap.tokenId) <= p * ToScaled(cap.amount)
            && l.runs[runId].totals.reservedSteps <= p
            && (p == 1 ==> Moved(l, runId, c, cap.tokenId) <= ToScaled(cap.amount))
  {
    hide ToScaled, Played, AllDisciplined;
    PlayedKeeps(EMPTY_LEDGER, profiles, moves, runId, c, cap, p);
    assert Bounded(Played(EMPTY_LEDGER, profiles, moves), runId, c, cap, p);
    HeldNonNegative(Played(EMPTY_LEDGER, profiles, moves), runId, c, cap.tokenId);
  }

  // ---- The number of steps ------------------------------------------------

  function StepsTaken(l: Ledger, runId: string): int
    requires runId in l.runs
  {
    l.runs[runId].totals.committedSteps + l.runs[runId].totals.reservedSteps
  }

  lemma ClosingTakesNoStep(l: Ledger, id: string, runId: string)
    requires Agrees(l) && runId in l.runs && id in l.reservations && IsHeld(l.reservations[id])
    ensures forall receipt :: runId in CloseCommitted(l, id, receipt).runs && StepsTaken(CloseCommitted(l, id, receipt), runId) <= StepsTaken(l, runId)
    ensures forall receipt :: runId in CloseAborted(l, id, receipt).runs && StepsTaken(CloseAborted(l, id, receipt), runId) <= StepsTaken(l, runId)
  {
    ClampNeverActs(l, id);
    hide Agrees, Fold, Entries;
  }

  lemma StoreTakesNoStep(l: Ledger, op: Op, runId: string)
    requires Agrees(l) && runId in l.runs && !op.DoReserve?
    ensures runId in Apply(l, op).runs && StepsTaken(Apply(l, op), runId) <= StepsTaken(l, runId)
  {
    var (id, now) := match op
      case DoCommit(now, id, _) => (id, now)
      case DoAbort(id) => (id, 0)
      case DoReconcile(now, id, _, _) => (id, now)
      case DoSettle(now, i) => (i.reservationId, now)
      case _ => ("", 0);
    if id in l.reservations && IsHeld(l.reservations[id]) {
      ClosingTakesNoStep(l, id, runId);
      ExpireAgrees(l, now, id);
      ClosingTakesNoStep(Expire(l, now, id), id, runId);
    }
    hide Agrees, CloseCommitted, CloseAborted, SettlementReceipt;
  }

  ghost predicate StepsWithin(l: Ledger, profiles: map<string, Profile>, runId: string) {
    runId in l.runs && l.runs[runId].profileId in profiles ==>
      var most := profiles[l.runs[runId].profileId].limits.maxSteps;
      most.Some? && most.value >= 0 ==> StepsTaken(l, runId) <= most.value
  }

  lemma AuthorizeWithinSteps(l: Ledger, profiles: map<string, Profile>, q: Request, v: Verdicts, now: nat, runId: string)
    requires StepsWithin(l, profiles, runId)
    ensures StepsWithin(Authorize(l, profiles, q, v, now).0, profiles, runId)
  {
    hide FirstHit, RequirementMet, NewReservation, ReservationId, Authorize;
    if Authorize(l, profiles, q, v, now).1.Approved? {
      ApprovalMeans(l, profiles, q, v, now);
      var deltas :| ReservesWith(l, profiles, q, v, now, deltas);
      assert NewReservation(q, deltas, now).runId == q.runId by { RequestKept(q, deltas, now); }
    } else {
      RefusalMeans(l, profiles, q, v, now);
    }
  }

  lemma RequestKept(q: Request, deltas: seq<MandateUsage>, now: int)
    ensures NewReservation(q, deltas, now).runId == q.runId
  {}

  lemma PlayWithinSteps(l: Ledger, profiles: map<string, Profile>, m: Move, runId: string, c: Column, tok: string)
    requires Agrees(l) && Disciplined(l, m, c, tok) && StepsWithin(l, profiles, runId)
    ensures StepsWithin(Play(l, profiles, m), profiles, runId)
  {
    var l' := Play(l, profiles, m);
    PlayContinues(l, profiles, m, runId);
    hide Agrees, Authorize, Apply;
    if m.DoAuthorize? {
      AuthorizeWithinSteps(l, profiles, m.request, m.verdicts, m.now, runId);
    } else if runId in l.runs {
      StoreTakesNoStep(l, m.op, runId);
    } else if runId in l'.runs {
      OnlyOpeningAddsRuns(l, profiles, m, runId);
      OpenedTotals(l, m.op, runId);
    }
  }

  lemma OpenedTotals(l: Ledger, op: Op, runId: string)
    requires runId !in l.runs && op.DoOpenRun? && op.runId == runId && Proper(l, op)
    ensures runId in Apply(l, op).runs && Apply(l, op).runs[runId].totals == ZERO_TOTALS
  {}

  lemma {:induction false} PlayedWithinSteps(l: Ledger, profiles: map<string, Profile>, moves: seq<Move>, runId: string, c: Column, tok: string)
    requires Agrees(l) && StepsWithin(l, profiles, runId) && AllDisciplined(l, profiles, moves, c, tok)
    ensures StepsWithin(Played(l, profiles, moves), profiles, runId)
    decreases |moves|
  {
    hide Agrees, StepsWithin, Play, Disciplined;
    if moves != [] {
      PlayAgrees(l, profiles, moves[0], c, tok);
      PlayWithinSteps(l, profiles, moves[0], runId, c, tok);
      PlayedWithinSteps(Play(l, profiles, moves[0]), profiles, moves[1..], runId, c, tok);
    }
  }

  /** No run commits and holds more steps than its profile allows. */
  lemma StepBound(profiles: map<string, Profile>, moves: seq<Move>, runId: string, c: Column, tok: string)
    requires AllDisciplined(EMPTY_LEDGER, profiles, moves, c, tok)
    ensures StepsWithin(Played(EMPTY_LEDGER, profiles, moves), profiles, runId)
  {
    hide Played, AllDisciplined;
    PlayedWithinSteps(EMPTY_LEDGER, profiles, moves, runId, c, tok);
  }

  // ---- How many entries of a token an action may have ---------------------

  /** Each entry is compared with the cap on its own, so several move at most their number times what is left of it. */
  lemma {:induction false} EntriesBound(limits: RunLimits, totals: Totals, c: Column, entries: seq<Spend>, cap: Cap)
    requires Ceiling(limits, c) == Some(cap) && FirstHit(limits, totals, c, entries).None?
    ensures var stored, n := StoredUnits(Lookup(ColumnOf(totals, c), cap.tokenId)), EntryCount(entries, cap.tokenId);
            && EntryUnits(entries, cap.tokenId) <= n * (ToScaled(cap.amount) - stored)
            && (n > 0 ==> stored <= ToScaled(cap.amount))
  {
    hide ToScaled, StoredUnits, EntryHit, Ceiling;
    if entries != [] {
      var init, last := entries[..|entries| - 1], entries[|entries| - 1];
      EntriesBound(limits, totals, c, init, cap);
      if last.tokenId == cap.tokenId {
        NotPassed(limits, totals, c, last, cap);
        DistributeSum(EntryCount(init, cap.tokenId), 1, ToScaled(cap.amount) - StoredUnits(Lookup(ColumnOf(totals, c), cap.tokenId)));
      }
    }
  }

  function Copies(e: Spend, k: nat): seq<Spend> { if k == 0 then [] else Copies(e, k - 1) + [e] }

  lemma {:induction false} CopiesPass(limits: RunLimits, totals: Totals, c: Column, e: Spend, k: nat)
    requires EntryHit(limits, totals, c, e).None?
    ensures FirstHit(limits, totals, c, Copies(e, k)).None?
    ensures EntryCount(Copies(e, k), e.tokenId) == k && EntryUnits(Copies(e, k), e.tokenId) == k * ToScaled(e.amount)
  {
    hide EntryHit, ToScaled;
    if k > 0 {
      CopiesPass(limits, totals, c, e, k - 1);
      assert Copies(e, k)[..|Copies(e, k)| - 1] == Copies(e, k - 1);
      DistributeSum(k - 1, 1, ToScaled(e.amount));
    }
  }

  /** A profile with one cap, and one step at a time. */
  function OneCap(c: Column, cap: Cap): RunLimits {
    RunLimits(None, Some(1), None, None, None, if c.Spends? then Some(cap) else None, if c.Fees? then Some(cap) else None, None)
  }

  function EffectsIn(c: Column, entries: seq<Spend>): StepEffects {
    if c.Fees? then StepEffects([], Some(entries), None) else StepEffects(entries, None, None)
  }

  /**
   * An action with k entries of the whole cap passes the limits of a run that has moved
   * nothing, and committing it moves k times the cap, one step at a time.
   */
  lemma WholeCapsPass(c: Column, cap: Cap, k: nat)
    requires !c.Channels?
    ensures var effects := EffectsIn(c, Copies(Spend(cap.tokenId, cap.amount), k));
            && Ceiling(OneCap(c, cap), c) == Some(cap)
            && LimitHit(OneCap(c, cap), effects, ZERO_TOTALS, 0, 0).None?
            && Recorded(CommitTotals(ZERO_TOTALS, Some(effects)), RunLedger.Moved(c, cap.tokenId)) == k * ToScaled(cap.amount)
  {
    var e, limits := Spend(cap.tokenId, cap.amount), OneCap(c, cap);
    WholeCapFits(c, cap);
    CopiesPass(limits, ZERO_TOTALS, c, e, k);
    OnlyColumn(c, Copies(e, k));
    CommittedFromZero(EffectsIn(c, Copies(e, k)), c, cap.tokenId);
    NothingHit(limits, ZERO_TOTALS);
    hide EntryHit, FirstHit, EntryUnits, EntryCount, Entries, EffectsIn, CommitTotals, Recorded, ToScaled, Copies;
  }

  lemma OnlyColumn(c: Column, entries: seq<Spend>)
    requires !c.Channels?
    ensures forall d: Column :: Entries(Some(EffectsIn(c, entries)), d) == if d == c then entries else []
  {}

  lemma CommittedFromZero(effects: StepEffects, c: Column, tok: string)
    ensures Recorded(CommitTotals(ZERO_TOTALS, Some(effects)), RunLedger.Moved(c, tok)) == EntryUnits(Entries(Some(effects), c), tok)
  {
    FoldUnits(map[], Entries(Some(effects), c), tok);
    ToScaledZero();
    hide EntryUnits, Fold, ToScaled;
  }

  lemma NothingHit(limits: RunLimits, totals: Totals)
    ensures forall c :: FirstHit(limits, totals, c, []).None?
  {}

  lemma WholeCapFits(c: Column, cap: Cap)
    requires !c.Channels?
    ensures EntryHit(OneCap(c, cap), ZERO_TOTALS, c, Spend(cap.tokenId, cap.amount)).None?
  {
    PassesMeans(None, cap.amount, cap.amount);
    ToScaledZero();
    hide ToScaled, Gt, Add;
  }

  /** What the run has moved and what the action moves are within the cap, if the action has the token at all. */
  predicate FitsCap(totals: Totals, c: Column, entries: seq<Spend>, cap: Cap) {
    EntryCount(entries, cap.tokenId) > 0 ==>
      StoredUnits(Lookup(ColumnOf(totals, c), cap.tokenId)) + EntryUnits(entries, cap.tokenId) <= ToScaled(cap.amount)
  }

  predicate PassesWith(limits: RunLimits, totals: Totals, c: Column, entries: seq<Spend>, cap: Cap, k: nat) {
    Ceiling(limits, c) == Some(cap) && FirstHit(limits, totals, c, entries).None? && EntryCount(entries, cap.tokenId) <= k
  }

  /** Every action that passes with at most k entries of the token fits. */
  ghost predicate PassingFits(c: Column, cap: Cap, k: nat) {
    forall limits, totals, entries :: PassesWith(limits, totals, c, entries, cap, k) ==> FitsCap(totals, c, entries, cap)
  }

  /**
   * Exactly how many entries keep a passing action within a cap: at most one, unless the cap
   * is zero. With k entries and more, k times the cap can be moved at once.
   */
  lemma FitsExactly(c: Column, cap: Cap, k: nat)
    requires !c.Channels?
    ensures PassingFits(c, cap, k) <==> k <= 1 || ToScaled(cap.amount) == 0
  {
    hide PassesWith, FitsCap, ToScaled;
    if k <= 1 || ToScaled(cap.amount) == 0 {
      forall limits, totals, entries | PassesWith(limits, totals, c, entries, cap, k) ensures FitsCap(totals, c, entries, cap) {
        FewFit(limits, totals, c, entries, cap, k);
      }
    } else {
      CapsDoNotFit(c, cap, k);
    }
  }

  lemma FewFit(limits: RunLimits, totals: Totals, c: Column, entries: seq<Spend>, cap: Cap, k: nat)
    requires PassesWith(limits, totals, c, entries, cap, k) && (k <= 1 || ToScaled(cap.amount) == 0)
    ensures FitsCap(totals, c, entries, cap)
  {
    hide FirstHit, Ceiling, EntryCount, EntryUnits, StoredUnits, ToScaled, ColumnOf, Lookup;
    var n, units := EntryCount(entries, cap.tokenId), EntryUnits(entries, cap.tokenId);
    var stored, most := StoredUnits(Lookup(ColumnOf(totals, c), cap.tokenId)), ToScaled(cap.amount);
    assert n > 0 ==> stored + units <= most by {
      EntriesBound(limits, totals, c, entries, cap);
      FewArithmetic(n, units, stored, most);
    }
  }

  lemma FewArithmetic(n: nat, units: nat, stored: nat, cap: nat)
    requires units <= n * (cap - stored) && (n > 0 ==> stored <= cap) && (n <= 1 || cap == 0)
    ensures n > 0 ==> stored + units <= cap
  {
    if n > 1 { assert cap - stored == 0 && n * 0 == 0; }
  }

  lemma CapsDoNotFit(c: Column, cap: Cap, k: nat)
    requires !c.Channels? && k >= 2 && ToScaled(cap.amount) > 0
    ensures !PassingFits(c, cap, k)
  {
    var e, limits := Spend(cap.tokenId, cap.amount), OneCap(c, cap);
    WholeCapFits(c, cap);
    CopiesPass(limits, ZERO_TOTALS, c, e, k);
    hide EntryHit, FirstHit, EntryCount, EntryUnits, StoredUnits, ToScaled, Copies;
    assert PassesWith(limits, ZERO_TOTALS, c, Copies(e, k), cap, k);
    DistributeSum(k - 1, 1, ToScaled(cap.amount));
    MulAtLeast(k - 1, ToScaled(cap.amount));
    assert !FitsCap(ZERO_TOTALS, c, Copies(e, k), cap);
  }

  // ---- When an approval holds something new -------------------------------

  /**
   * An approval takes a step and holds its effects exactly when its reservation id is not
   * that of a live reservation; else it leaves all but the nonce as it was. The id is made of
   * the run, the step and the millisecond, so a second request for a step in one millisecond
   * is approved on the hold of the first.
   */
  lemma ApprovalHolds(l: Ledger, profiles: map<string, Profile>, q: Request, v: Verdicts, now: nat, c: Column, tok: string)
    requires Agrees(l) && Authorize(l, profiles, q, v, now).1.Approved?
    requires Disciplined(l, DoAuthorize(q, v, now), c, tok)
    ensures var (l', answer) := Authorize(l, profiles, q, v, now);
            && q.runId in l.runs && q.runId in l'.runs
            && (answer.reservationId in l.reservations <==> l'.reservations == l.reservations)
            && (answer.reservationId !in l.reservations <==> StepsTaken(l', q.runId) == StepsTaken(l, q.runId) + 1)
            && Held(l', q.runId, c, tok) == Held(l, q.runId, c, tok)
                 + if answer.reservationId in l.reservations then 0 else EntryUnits(Entries(Some(q.effects), c), tok)
  {
    var id, l1 := ReservationId(q.runId, q.stepId, now), UseNonce(l, q.runId, q.nonce).0;
    NonceAgrees(l, q.runId, q.nonce);
    var deltas := AuthorizedDeltas(l.runs[q.runId].grantProofIds, v.mandates);
    var r := NewReservation(q, deltas, now);
    hide LimitHit, RequirementMet, ReservationId, Agrees, EntryUnits, Entries;
    assert Authorize(l, profiles, q, v, now).0 == Reserve(l1, id, r);
    if id !in l.reservations { NewHold(l1, id, r, c, tok); }
  }
}
