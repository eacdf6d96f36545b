/**
 * MemoryGrantUsageStore: usage of mandates (grants), reserved against a limit and charged
 * when a step is committed or settled. Each method is one atomic step.
 */
module GrantUsage {
  import opened Outcomes
  import opened Digits
  import opened Decimals
  import opened Settlement
  import opened Sums
  import opened RunLedger

  datatype GrantReceipt = GrantReceipt(committedAt: int, mandateId: string, settled: Option<Settled>)

  datatype Grant = Grant(
    runId: string, stepId: string, mandateId: string, actionDigest: string, delta: Usage, reservedAt: int, expiresAt: int,
    status: Status, receipt: Option<GrantReceipt>, actual: Option<Usage>)

  type Grants = map<string, Grant>

  datatype Limit = Limit(maxCount: Option<int>, maxTotal: Option<string>, windowMs: Option<int>)

  datatype Ask = Ask(
    runId: string, stepId: string, mandateId: string, actionDigest: string, delta: Usage, now: nat, ttlMs: int, limit: Option<Limit>)

  datatype GrantError = NoSuchGrant | GrantNotReserved | GrantExpired | GrantClosed | GrantCollision | RenewalTooShort
                      | LimitExceeded | UnreadableAmount | Refused(error: SettlementError)

  // ---- Usage counted against a limit --------------------------------------

  /** The integer texts BigInt is given. */
  predicate Readable(amount: string) { amount != "" && AllDigits(amount) }

  predicate ReadableUsage(u: Usage) { u.amount.Some? ==> Readable(u.amount.value) }

  datatype Measure = Count | Total

  function ChargeOf(u: Usage, y: Measure): int {
    match y
    case Count => u.count
    case Total => if u.amount.Some? && Readable(u.amount.value) then NatOf(u.amount.value) else 0
  }

  function Charged(g: Grant): Usage {
    if g.status.Committed? then Coalesce(g.actual, g.delta) else g.delta
  }

  /** The start of the fixed window holding `now`, when the limit has one. */
  function WindowStart(now: int, windowMs: Option<int>): Option<int> {
    if windowMs.Some? && windowMs.value > 0 then Some(now / windowMs.value * windowMs.value) else None
  }

  /** Committed and reserved grants of the mandate count, inside the window; unknown ones do not. */
  predicate IsCounted(g: Grant, mandateId: string, windowStart: Option<int>) {
    g.mandateId == mandateId && (g.status.Committed? || g.status.Reserved?) && (windowStart.Some? ==> g.reservedAt >= windowStart.value)
  }

  function Weight(g: Grant, mandateId: string, windowStart: Option<int>, y: Measure): int {
    if IsCounted(g, mandateId, windowStart) then ChargeOf(Charged(g), y) else 0
  }

  function WeightOf(mandateId: string, windowStart: Option<int>, y: Measure): Grant -> int {
    (g: Grant) => Weight(g, mandateId, windowStart, y)
  }

  ghost function Counted(grants: Grants, mandateId: string, windowStart: Option<int>, y: Measure): int {
    Sum(grants, WeightOf(mandateId, windowStart, y))
  }

  predicate AllReadable(grants: Grants, mandateId: string, windowStart: Option<int>) {
    forall id | id in grants :: IsCounted(grants[id], mandateId, windowStart) ==> ReadableUsage(Charged(grants[id]))
  }

  /** The error assertWithinLimit throws, if any. */
  ghost function LimitError(grants: Grants, mandateId: string, delta: Usage, limit: Limit, now: int): Option<GrantError> {
    var w := WindowStart(now, limit.windowMs);
    if !AllReadable(grants, mandateId, w) then Some(UnreadableAmount)
    else if limit.maxCount.Some? && Counted(grants, mandateId, w, Count) + delta.count > limit.maxCount.value then Some(LimitExceeded)
    else if limit.maxTotal.None? then None
    else if !ReadableUsage(delta) || !Readable(limit.maxTotal.value) then Some(UnreadableAmount)
    else if Counted(grants, mandateId, w, Total) + ChargeOf(delta, Total) > NatOf(limit.maxTotal.value) then Some(LimitExceeded)
    else None
  }

  lemma NothingCounted(mandateId: string, windowStart: Option<int>, y: Measure)
    ensures Counted(map[], mandateId, windowStart, y) == 0
  {
    SumZero<string, Grant>(map[], WeightOf(mandateId, windowStart, y));
  }

  lemma TakeOut(grants: Grants, id: string, mandateId: string, windowStart: Option<int>, y: Measure)
    requires id in grants
    ensures Counted(grants, mandateId, windowStart, y) == Counted(grants - {id}, mandateId, windowStart, y)
      + if IsCounted(grants[id], mandateId, windowStart) then ChargeOf(Charged(grants[id]), y) else 0
  {
    SumRemove(grants, WeightOf(mandateId, windowStart, y), id);
  }

  lemma ChargeParts(u: Usage)
    ensures ChargeOf(u, Count) == u.count
    ensures ReadableUsage(u) <==> (u.amount.Some? ==> Readable(u.amount.value))
    ensures u.amount.None? ==> ChargeOf(u, Total) == 0
  {}

  // ---- The steps ----------------------------------------------------------

  function Lapsed(g: Grant, now: int): Grant {
    if g.status.Reserved? && now > g.expiresAt then g.(status := Unknown) else g
  }

  function CleanExpired(grants: Grants, now: int): Grants {
    map id | id in grants :: Lapsed(grants[id], now)
  }

  function GrantId(a: Ask): string {
    "res:" + a.runId + ":" + a.stepId + ":" + a.mandateId + ":" + a.actionDigest + ":" + Show(a.now)
  }

  function NewGrant(a: Ask): Grant {
    Grant(a.runId, a.stepId, a.mandateId, a.actionDigest, a.delta, a.now, a.now + a.ttlMs, Reserved, None, None)
  }

  predicate SameBinding(g: Grant, a: Ask) {
    g.runId == a.runId && g.stepId == a.stepId && g.mandateId == a.mandateId && g.actionDigest == a.actionDigest
  }

  ghost function ReserveGrant(grants: Grants, a: Ask): (Grants, Result<Grant, GrantError>) {
    var clean, id := CleanExpired(grants, a.now), GrantId(a);
    var error := if a.limit.Some? then LimitError(clean, a.mandateId, a.delta, a.limit.value, a.now) else None;
    if id in clean && clean[id].status.Reserved? then
      (clean, if SameBinding(clean[id], a) then Ok(clean[id]) else Err(GrantCollision))
    else if error.Some? then (clean, Err(error.value))
    else (clean[id := NewGrant(a)], Ok(NewGrant(a)))
  }

  function CommitGrant(grants: Grants, now: int, id: string, receipt: GrantReceipt): (Grants, Option<GrantError>) {
    if id !in grants then (grants, Some(NoSuchGrant))
    else
      var g := grants[id];
      if !g.status.Reserved? then (grants, Some(GrantNotReserved))
      else if now > g.expiresAt then (grants[id := g.(status := Unknown)], Some(GrantExpired))
      else (grants[id := g.(status := Status.Committed, receipt := Some(receipt), actual := Some(g.delta))], None)
  }

  function AbortGrant(grants: Grants, id: string): (Grants, Option<GrantError>) {
    if id !in grants then (grants, Some(NoSuchGrant))
    else if !grants[id].status.Reserved? then (grants, Some(GrantNotReserved))
    else (grants[id := grants[id].(status := Status.Aborted)], None)
  }

  function ReconcileGrant(grants: Grants, now: int, id: string, verdict: Verdict, receipt: Option<GrantReceipt>): (Grants, Option<GrantError>) {
    if id !in grants then (grants, Some(NoSuchGrant))
    else
      var g := Lapsed(grants[id], now);
      if !g.status.Unknown? then (grants, Some(GrantNotReserved))
      else if verdict.DefinitelyNotExecuted? then (grants[id := g.(status := Status.Aborted)], None)
      else
        (grants[id := g.(status := Status.Committed, actual := Some(g.delta),
                         receipt := Some(Coalesce(receipt, GrantReceipt(now, g.mandateId, None))))], None)
  }

  predicate GrantSettledBy(g: Grant, settlementId: string) {
    g.receipt.Some? && g.receipt.value.settled.Some? && g.receipt.value.settled.value.settlementId == settlementId
  }

  function ActualUsage(i: Instruction): Result<Option<Usage>, SettlementError> {
    if i.actual.None? then Ok(None)
    else match UsageTotal(i.actual.value.mandateUsage)
      case Ok(u) => Ok(Some(u))
      case Err(e) => Err(e)
  }

  /** The closed grant a settlement leaves, or the error it throws before changing it. */
  function SettledGrant(g: Grant, now: int, i: Instruction): (r: Result<Grant, SettlementError>)
    ensures r.Ok? ==> r.value.receipt.Some?
  {
    var own := [MandateUsage(g.mandateId, g.delta)];
    var check, reserved, actual := SettlementCheck(i, None, Some(own)), UsageTotal(own), ActualUsage(i);
    if check.Some? then Err(check.value)
    else if reserved.Err? then Err(reserved.error)
    else if actual.Err? then Err(actual.error)
    else
      var released := UsageReleased(i, reserved.value, actual.value);
      if released.Err? then Err(released.error)
      else
        var receipt := GrantReceipt(now, g.mandateId,
          Some(Settled(i.settlementId, i.dispatch, i.outcome, i.actual, reserved.value, released.value)));
        Ok(match i.disposition
           case ReleaseNonexecution => g.(receipt := Some(receipt), status := Status.Aborted)
           case CommitReserved => g.(receipt := Some(receipt), status := Status.Committed, actual := Some(g.delta))
           case SettleActual => g.(receipt := Some(receipt), status := Status.Committed, actual := actual.value))
  }

  function SettleGrant(grants: Grants, now: int, i: Instruction): (Grants, Result<GrantReceipt, GrantError>) {
    if i.reservationId !in grants then (grants, Err(NoSuchGrant))
    else
      var id, g := i.reservationId, grants[i.reservationId];
      if GrantSettledBy(g, i.settlementId) then (grants, Ok(g.receipt.value))
      else if g.status.Committed? || g.status.Aborted? then (grants, Err(GrantClosed))
      else
        var settled := SettledGrant(Lapsed(g, now), now, i);
        if settled.Err? then (grants[id := Lapsed(g, now)], Err(Refused(settled.error)))
        else (grants[id := settled.value], Ok(settled.value.receipt.value))
  }

  function RenewGrant(grants: Grants, now: int, id: string, extendsTo: int): (Grants, Option<GrantError>) {
    if id !in grants then (grants, Some(NoSuchGrant))
    else
      var g := grants[id];
      if !g.status.Reserved? then (grants, Some(GrantNotReserved))
      else if now > g.expiresAt then (grants[id := g.(status := Unknown)], Some(GrantExpired))
      else if extendsTo <= g.expiresAt then (grants, Some(RenewalTooShort))
      else (grants[id := g.(expiresAt := extendsTo)], None)
  }

  // ---- The store ----------------------------------------------------------

  class MemoryGrantUsageStore {
    var reservations: Grants

    constructor ()
      ensures reservations == map[]
    {
      reservations := map[];
    }

    method Clean(now: int)
      modifies this
      ensures reservations == CleanExpired(old(reservations), now)
    {
      var left := reservations.Keys;
      while left != {}
        invariant left <= reservations.Keys == old(reservations).Keys
        invariant forall id | id in reservations ::
          reservations[id] == if id in left then old(reservations)[id] else Lapsed(old(reservations)[id], now)
      {
        var id :| id in left;
        left := left - {id};
        var g := reservations[id];
        if g.status.Reserved? && now > g.expiresAt { reservations := reservations[id := g.(status := Unknown)]; }
      }
    }

    /** currentUsage: the loop that adds up what counts against the limit. */
    method CurrentUsage(mandateId: string, now: int, windowMs: Option<int>) returns (usage: Result<(int, int), GrantError>)
      ensures var w := WindowStart(now, windowMs);
              usage == if AllReadable(reservations, mandateId, w)
                       then Ok((Counted(reservations, mandateId, w, Count), Counted(reservations, mandateId, w, Total)))
                       else Err(UnreadableAmount)
    {
      hide Readable, Charged, IsCounted, ReadableUsage, ChargeOf, WindowStart, Counted;
      var w := WindowStart(now, windowMs);
      var count, amount := 0, 0;
      NothingCounted(mandateId, w, Count);
      NothingCounted(mandateId, w, Total);
      var left := reservations;
      while left != map[]
        invariant left.Keys <= reservations.Keys && forall id | id in left :: left[id] == reservations[id]
        invariant forall id | id in reservations && id !in left ::
          IsCounted(reservations[id], mandateId, w) ==> ReadableUsage(Charged(reservations[id]))
        invariant count + Counted(left, mandateId, w, Count) == Counted(reservations, mandateId, w, Count)
        invariant amount + Counted(left, mandateId, w, Total) == Counted(reservations, mandateId, w, Total)
        decreases |left|
      {
        var id :| id in left;
        var g := left[id];
        TakeOut(left, id, mandateId, w, Count);
        TakeOut(left, id, mandateId, w, Total);
        ChargeParts(Charged(g));
        left := left - {id};
        if IsCounted(g, mandateId, w) {
          var charged := Charged(g);
          if charged.amount.Some? {
            if !Readable(charged.amount.value) { return Err(UnreadableAmount); }
            amount := amount + ChargeOf(charged, Total);
          }
          count := count + charged.count;
        }
      }
      return Ok((count, amount));
    }

    method AssertWithinLimit(mandateId: string, delta: Usage, limit: Limit, now: int) returns (error: Option<GrantError>)
      ensures error == LimitError(reservations, mandateId, delta, limit, now)
    {
      hide AllReadable, Counted, Readable;
      var current := CurrentUsage(mandateId, now, limit.windowMs);
      if current.Err? { return Some(current.error); }
      if limit.maxCount.Some? && current.value.0 + delta.count > limit.maxCount.value { return Some(LimitExceeded); }
      if limit.maxTotal.Some? {
        if !ReadableUsage(delta) || !Readable(limit.maxTotal.value) { return Some(UnreadableAmount); }
        ReadableDigits(limit.maxTotal.value);
        if current.value.1 + ChargeOf(delta, Total) > NatOf(limit.maxTotal.value) { return Some(LimitExceeded); }
      }
      return None;
    }

    method AuthorizeAndReserve(a: Ask) returns (r: Result<Grant, GrantError>)
      modifies this
      ensures (reservations, r) == ReserveGrant(old(reservations), a)
    {
      hide CleanExpired, LimitError, GrantId, NewGrant;
      Clean(a.now);
      var id := GrantId(a);
      if id in reservations && reservations[id].status.Reserved? {
        if !SameBinding(reservations[id], a) { return Err(GrantCollision); }
        return Ok(reservations[id]);
      }
      if a.limit.Some? {
        var error := AssertWithinLimit(a.mandateId, a.delta, a.limit.value, a.now);
        if error.Some? { return Err(error.value); }
      }
      reservations := reservations[id := NewGrant(a)];
      return Ok(NewGrant(a));
    }

    method Commit(now: int, id: string, receipt: GrantReceipt) returns (error: Option<GrantError>)
      modifies this
      ensures (reservations, error) == CommitGrant(old(reservations), now, id, receipt)
    {
      if id !in reservations { return Some(NoSuchGrant); }
      var g := reservations[id];
      if !g.status.Reserved? { return Some(GrantNotReserved); }
      if now > g.expiresAt {
        reservations := reservations[id := g.(status := Unknown)];
        return Some(GrantExpired);
      }
      reservations := reservations[id := g.(status := Status.Committed, receipt := Some(receipt), actual := Some(g.delta))];
      return None;
    }

    method Abort(id: string) returns (error: Option<GrantError>)
      modifies this
      ensures (reservations, error) == AbortGrant(old(reservations), id)
    {
      if id !in reservations { return Some(NoSuchGrant); }
      var g := reservations[id];
      if !g.status.Reserved? { return Some(GrantNotReserved); }
      reservations := reservations[id := g.(status := Status.Aborted)];
      return None;
    }

    method ReconcileReservation(now: int, id: string, verdict: Verdict, receipt: Option<GrantReceipt>) returns (error: Option<GrantError>)
      modifies this
      ensures (reservations, error) == ReconcileGrant(old(reservations), now, id, verdict, receipt)
    {
      if id !in reservations { return Some(NoSuchGrant); }
      var g := reservations[id];
      if g.status.Reserved? && now > g.expiresAt { g := g.(status := Unknown); }
      if !g.status.Unknown? { return Some(GrantNotReserved); }
      if verdict.DefinitelyNotExecuted? {
        g := g.(status := Status.Aborted);
      } else {
        g := g.(status := Status.Committed, actual := Some(g.delta));
        g := g.(receipt := Some(Coalesce(receipt, GrantReceipt(now, g.mandateId, None))));
      }
      reservations := reservations[id := g];
      return None;
    }

    method SettleActual(now: int, i: Instruction) returns (r: Result<GrantReceipt, GrantError>)
      modifies this
      ensures (reservations, r) == SettleGrant(old(reservations), now, i)
    {
      hide SettlementCheck, UsageTotal, ReleasedUsage;
      if i.reservationId !in reservations { return Err(NoSuchGrant); }
      var id, g := i.reservationId, reservations[i.reservationId];
      if GrantSettledBy(g, i.settlementId) { return Ok(g.receipt.value); }
      if g.status.Committed? || g.status.Aborted? { return Err(GrantClosed); }
      if g.status.Reserved? && now > g.expiresAt { g := g.(status := Unknown); }
      reservations := reservations[id := g];
      var own := [MandateUsage(g.mandateId, g.delta)];
      var complaint := AssertSettlementInstruction(i, None, Some(own));
      if complaint.Some? { return Err(Refused(complaint.value)); }
      var reserved := SumReservedUsage(own);
      if reserved.Err? { return Err(Refused(reserved.error)); }
      var actual := None;
      if i.actual.Some? {
        var total := SumReservedUsage(i.actual.value.mandateUsage);
        if total.Err? { return Err(Refused(total.error)); }
        actual := Some(total.value);
      }
      var released := UsageReleased(i, reserved.value, actual);
      if released.Err? { return Err(Refused(released.error)); }
      var receipt := GrantReceipt(now, g.mandateId,
        Some(Settled(i.settlementId, i.dispatch, i.outcome, i.actual, reserved.value, released.value)));
      g := g.(receipt := Some(receipt));
      if i.disposition.ReleaseNonexecution? {
        g := g.(status := Status.Aborted);
      } else {
        g := g.(status := Status.Committed, actual := if i.disposition.CommitReserved? then Some(g.delta) else actual);
      }
      reservations := reservations[id := g];
      assert reservations == old(reservations)[id := g];
      return Ok(receipt);
    }

    method RenewReservation(now: int, id: string, extendsTo: int) returns (error: Option<GrantError>)
      modifies this
      ensures (reservations, error) == RenewGrant(old(reservations), now, id, extendsTo)
    {
      if id !in reservations { return Some(NoSuchGrant); }
      var g := reservations[id];
      if !g.status.Reserved? { return Some(GrantNotReserved); }
      if now > g.expiresAt {
        reservations := reservations[id := g.(status := Unknown)];
        return Some(GrantExpired);
      }
      if extendsTo <= g.expiresAt { return Some(RenewalTooShort); }
      reservations := reservations[id := g.(expiresAt := extendsTo)];
      return None;
    }
  }

  lemma ReadableDigits(amount: string)
    requires Readable(amount)
    ensures AllDigits(amount)
  {}

  // ---- Runs of the store --------------------------------------------------

  datatype GrantOp =
    | DoAsk(ask: Ask)
    | DoCommitGrant(now: int, id: string, committed: GrantReceipt)
    | DoAbortGrant(id: string)
    | DoClean(now: int)
    | DoReconcileGrant(now: int, id: string, verdict: Verdict, receipt: Option<GrantReceipt>)
    | DoSettleGrant(now: int, instruction: Instruction)
    | DoRenewGrant(now: int, id: string, extendsTo: int)

  ghost function Act(grants: Grants, op: GrantOp): Grants {
    match op
    case DoAsk(a) => ReserveGrant(grants, a).0
    case DoCommitGrant(now, id, receipt) => CommitGrant(grants, now, id, receipt).0
    case DoAbortGrant(id) => AbortGrant(grants, id).0
    case DoClean(now) => CleanExpired(grants, now)
    case DoReconcileGrant(now, id, verdict, receipt) => ReconcileGrant(grants, now, id, verdict, receipt).0
    case DoSettleGrant(now, i) => SettleGrant(grants, now, i).0
    case DoRenewGrant(now, id, extendsTo) => RenewGrant(grants, now, id, extendsTo).0
  }

  /** The grant an operation names. */
  function Target(op: GrantOp): Option<string> {
    match op
    case DoCommitGrant(_, id, _) => Some(id)
    case DoReconcileGrant(_, id, _, _) => Some(id)
    case DoSettleGrant(_, i) => Some(i.reservationId)
    case _ => None
  }

  /** What is charged when the operation commits a grant that had become outcome-unknown. */
  function LateCharge(before: Grants, after: Grants, op: GrantOp, mandateId: string, y: Measure): int {
    var id := Coalesce(Target(op), "");
    if Target(op).Some? && id in before && id in after && before[id].status.Unknown? && after[id].status.Committed?
       && after[id].mandateId == mandateId
    then ChargeOf(Charged(after[id]), y) else 0
  }

  ghost function Acted(grants: Grants, ops: seq<GrantOp>): Grants {
    if ops == [] then grants else Act(Acted(grants, ops[..|ops| - 1]), ops[|ops| - 1])
  }

  /** The charges of all late commits of a run. */
  ghost function LateTotal(grants: Grants, ops: seq<GrantOp>, mandateId: string, y: Measure): int {
    if ops == [] then 0
    else
      var before := Acted(grants, ops[..|ops| - 1]);
      LateTotal(grants, ops[..|ops| - 1], mandateId, y)
        + LateCharge(before, Act(before, ops[|ops| - 1]), ops[|ops| - 1], mandateId, y)
  }

  predicate Sound(u: Usage) { u.count >= 0 && ReadableUsage(u) }

  predicate SoundGrant(g: Grant) { Sound(g.delta) && (g.actual.Some? ==> Sound(g.actual.value)) }

  predicate SoundFor(grants: Grants, mandateId: string) {
    forall id | id in grants :: grants[id].mandateId == mandateId ==> SoundGrant(grants[id])
  }

  /** A settlement reports at most one usage entry, in whole units. */
  predicate OneUsage(i: Instruction) {
    i.actual.Some? ==> |i.actual.value.mandateUsage| <= 1 && forall u | u in i.actual.value.mandateUsage :: ReadableUsage(u.delta)
  }

  /** Every request on the mandate is checked against one limit without a window. */
  predicate Checked(op: GrantOp, mandateId: string, limit: Limit) {
    && (op.DoAsk? && op.ask.mandateId == mandateId ==> op.ask.limit == Some(limit) && Sound(op.ask.delta))
    && (op.DoSettleGrant? ==> OneUsage(op.instruction))
  }

  function Most(limit: Limit, y: Measure): Option<int> {
    match y
    case Count => limit.maxCount
    case Total => if limit.maxTotal.Some? && Readable(limit.maxTotal.value) then Some(NatOf(limit.maxTotal.value)) else None
  }

  // ---- One step -----------------------------------------------------------

  lemma ReadableAmount(s: string)
    requires Readable(s)
    ensures IsAmount(s) && Frac(s) == "" && At(s, 0) == NatOf(s)
  {
    MakeAmount(s, "");
    assert s + PadEnd("", 0) == s;
  }

  lemma ChargeSound(u: Usage, y: Measure)
    requires Sound(u)
    ensures ChargeOf(u, y) >= 0
  {}

  /** A single accepted usage entry charges no more than was reserved. */
  lemma EntryWithinDelta(u: Usage, delta: Usage, y: Measure)
    requires CheckUsage(u, Some(delta)).None? && ReadableUsage(u) && Sound(delta)
    ensures Sound(u) && ChargeOf(u, y) <= ChargeOf(delta, y)
  {
    hide IsAmount, IsDecimal, At, Frac, CompareDecimal, NatOf;
    if u.amount.Some? {
      var a, r := u.amount.value, delta.amount.value;
      ReadableAmount(a);
      ReadableAmount(r);
      CompareDecimalExact(a, r, 0);
    }
  }

  lemma OneEntryTotal(us: seq<MandateUsage>)
    requires |us| <= 1
    ensures UsageTotal(us) == Ok(if us == [] then Usage(0, None) else us[0].delta)
  {
    if us != [] { assert us[..0] == []; }
  }

  lemma OneEntryCheck(us: seq<MandateUsage>, mandateId: string, delta: Usage)
    requires |us| <= 1 && CheckUsages(us, [MandateUsage(mandateId, delta)]).None?
    ensures us != [] ==> CheckUsage(us[0].delta, Some(delta)).None?
  {
    hide CheckUsage;
    if us != [] {
      var own, last := [MandateUsage(mandateId, delta)], us[|us| - 1];
      assert us[..|us| - 1] == [] && own[..|own| - 1] == [];
      assert CheckUsages([], own) == None;
      assert CheckUsages(us, own) == CheckUsage(last.delta, ReservedFor(own, last.mandateId));
      MissingIsRefused(last.delta);
      assert ReservedFor(own, last.mandateId) == if last.mandateId == mandateId then Some(delta) else None;
    }
  }

  lemma MissingIsRefused(u: Usage)
    ensures CheckUsage(u, None).Some?
  {}

  /** What a settlement leaves is still sound and charges at most the reserved usage. */
  lemma SettledCharge(g: Grant, now: int, i: Instruction, y: Measure)
    requires SoundGrant(g) && OneUsage(i) && SettledGrant(g, now, i).Ok?
    ensures var r := SettledGrant(g, now, i).value;
            && r.mandateId == g.mandateId && r.delta == g.delta && SoundGrant(r)
            && (r.status.Committed? || r.status.Aborted?)
            && ChargeOf(Charged(r), y) <= ChargeOf(g.delta, y)
  {
    hide CheckUsages, CheckEntries, UsageReleased, UsageTotal, ChargeOf;
    if i.disposition.SettleActual? {
      var us := i.actual.value.mandateUsage;
      assert CheckUsages(us, [MandateUsage(g.mandateId, g.delta)]).None?;
      OneEntryTotal(us);
      OneEntryCheck(us, g.mandateId, g.delta);
      EmptyUsage(y);
      ChargeSound(g.delta, y);
      if us != [] { EntryWithinDelta(us[0].delta, g.delta, y); }
    }
  }

  lemma EmptyUsage(y: Measure)
    ensures ChargeOf(Usage(0, None), y) == 0 && Sound(Usage(0, None))
  {}

  /** One grant changes. */
  lemma ReplaceCounted(grants: Grants, id: string, g: Grant, mandateId: string, y: Measure)
    requires id in grants
    ensures Counted(grants[id := g], mandateId, None, y) + Weight(grants[id], mandateId, None, y)
         == Counted(grants, mandateId, None, y) + Weight(g, mandateId, None, y)
  {
    hide Weight;
    SumReplace(grants, WeightOf(mandateId, None, y), id, g);
  }

  lemma CleanCounted(grants: Grants, now: int, mandateId: string, y: Measure)
    requires SoundFor(grants, mandateId)
    ensures SoundFor(CleanExpired(grants, now), mandateId)
    ensures Counted(CleanExpired(grants, now), mandateId, None, y) <= Counted(grants, mandateId, None, y)
  {
    var clean := CleanExpired(grants, now);
    forall id | id in grants ensures Weight(clean[id], mandateId, None, y) <= Weight(grants[id], mandateId, None, y) {
      if grants[id].mandateId == mandateId { ChargeSound(grants[id].delta, y); }
    }
    hide Weight, Sound;
    SumMonotone(clean, grants, WeightOf(mandateId, None, y));
  }

  /** An operation on one grant raises what is counted by at most its late charge. */
  lemma TargetStep(grants: Grants, op: GrantOp, id: string, g: Grant, mandateId: string, y: Measure)
    requires SoundFor(grants, mandateId) && id in grants && Act(grants, op) == grants[id := g]
    requires g.mandateId == grants[id].mandateId && (g.mandateId == mandateId ==> SoundGrant(g))
    requires g.status.Committed? && g != grants[id] ==> Target(op) == Some(id)
    requires IsCounted(g, mandateId, None) && g != grants[id] && !grants[id].status.Unknown? ==>
      grants[id].status.Reserved? && ChargeOf(Charged(g), y) <= ChargeOf(grants[id].delta, y)
    requires g.status.Reserved? && g != grants[id] ==> grants[id].status.Reserved?
    ensures SoundFor(Act(grants, op), mandateId)
    ensures Counted(Act(grants, op), mandateId, None, y)
         <= Counted(grants, mandateId, None, y) + LateCharge(grants, Act(grants, op), op, mandateId, y)
  {
    hide Act, ReadableUsage;
    ReplaceCounted(grants, id, g, mandateId, y);
    if g.mandateId == mandateId {
      ChargeSound(Charged(grants[id]), y);
      ChargeSound(Charged(g), y);
    }
    if g == grants[id] { assert grants[id := g] == grants; }
    hide ChargeOf, Counted;
  }

  lemma CommitStepCounted(grants: Grants, now: int, id: string, receipt: GrantReceipt, mandateId: string, y: Measure)
    requires SoundFor(grants, mandateId)
    ensures Steps(grants, DoCommitGrant(now, id, receipt), mandateId, y)
  {
    if id in grants && grants[id].status.Reserved? {
      var g := grants[id];
      var g' := if now > g.expiresAt then g.(status := Unknown)
                else g.(status := Status.Committed, receipt := Some(receipt), actual := Some(g.delta));
      TargetStep(grants, DoCommitGrant(now, id, receipt), id, g', mandateId, y);
    }
  }

  /** The operation keeps grants sound and raises what is counted by at most its late charge. */
  ghost predicate Steps(grants: Grants, op: GrantOp, mandateId: string, y: Measure) {
    && SoundFor(Act(grants, op), mandateId)
    && Counted(Act(grants, op), mandateId, None, y)
         <= Counted(grants, mandateId, None, y) + LateCharge(grants, Act(grants, op), op, mandateId, y)
  }

  lemma AbortOrRenewCounted(grants: Grants, op: GrantOp, mandateId: string, y: Measure)
    requires SoundFor(grants, mandateId) && (op.DoAbortGrant? || op.DoRenewGrant?)
    ensures Steps(grants, op, mandateId, y)
  {
    if op.id in grants && grants[op.id].status.Reserved? && Act(grants, op) != grants {
      TargetStep(grants, op, op.id, Act(grants, op)[op.id], mandateId, y);
    }
  }

  lemma ReconcileCounted(grants: Grants, now: int, id: string, verdict: Verdict, receipt: Option<GrantReceipt>, mandateId: string, y: Measure)
    requires SoundFor(grants, mandateId)
    ensures Steps(grants, DoReconcileGrant(now, id, verdict, receipt), mandateId, y)
  {
    if id in grants {
      var g := Lapsed(grants[id], now);
      if g.status.Unknown? {
        var op := DoReconcileGrant(now, id, verdict, receipt);
        TargetStep(grants, op, id, Act(grants, op)[id], mandateId, y);
      }
    }
  }

  lemma SettleCounted(grants: Grants, now: int, i: Instruction, mandateId: string, y: Measure)
    requires SoundFor(grants, mandateId) && OneUsage(i)
    ensures Steps(grants, DoSettleGrant(now, i), mandateId, y)
  {
    hide SettledGrant;
    var id, op := i.reservationId, DoSettleGrant(now, i);
    if id in grants && !GrantSettledBy(grants[id], i.settlementId) && !grants[id].status.Committed? && !grants[id].status.Aborted? {
      var g := Lapsed(grants[id], now);
      var settled := SettledGrant(g, now, i);
      if settled.Err? {
        TargetStep(grants, op, id, g, mandateId, y);
      } else if g.mandateId == mandateId {
        SettledCharge(g, now, i, y);
        TargetStep(grants, op, id, settled.value, mandateId, y);
      } else {
        SettledKeeps(g, now, i);
        TargetStep(grants, op, id, settled.value, mandateId, y);
      }
    }
  }

  lemma SettledKeeps(g: Grant, now: int, i: Instruction)
    requires SettledGrant(g, now, i).Ok?
    ensures var r := SettledGrant(g, now, i).value; r.mandateId == g.mandateId && (r.status.Committed? || r.status.Aborted?)
  {
    hide SettlementCheck, UsageTotal, UsageReleased;
  }

  /** Every operation but a request. */
  lemma OpCounted(grants: Grants, op: GrantOp, mandateId: string, limit: Limit, y: Measure)
    requires SoundFor(grants, mandateId) && Checked(op, mandateId, limit) && !op.DoAsk?
    ensures Steps(grants, op, mandateId, y)
  {
    hide Steps, SoundFor;
    match op
    case DoCommitGrant(now, id, receipt) => CommitStepCounted(grants, now, id, receipt, mandateId, y);
    case DoAbortGrant(id) => AbortOrRenewCounted(grants, op, mandateId, y);
    case DoRenewGrant(_, _, _) => AbortOrRenewCounted(grants, op, mandateId, y);
    case DoClean(now) => CleanSteps(grants, now, mandateId, y);
    case DoReconcileGrant(now, id, verdict, receipt) => ReconcileCounted(grants, now, id, verdict, receipt, mandateId, y);
    case DoSettleGrant(now, i) => SettleCounted(grants, now, i, mandateId, y);
  }

  lemma CleanSteps(grants: Grants, now: int, mandateId: string, y: Measure)
    requires SoundFor(grants, mandateId)
    ensures Steps(grants, DoClean(now), mandateId, y)
  {
    CleanCounted(grants, now, mandateId, y);
    hide CleanExpired, Counted, SoundFor;
  }

  /** A request that passes the check leaves the counted usage within the limit. */
  lemma PassedCheck(grants: Grants, mandateId: string, delta: Usage, limit: Limit, now: int, y: Measure)
    requires LimitError(grants, mandateId, delta, limit, now).None? && WindowStart(now, limit.windowMs).None? && Sound(delta)
    ensures Most(limit, y).Some? ==> Counted(grants, mandateId, None, y) + ChargeOf(delta, y) <= Most(limit, y).value
  {
    hide Counted, AllReadable, Readable, NatOf;
  }

  lemma AskCounted(grants: Grants, a: Ask, mandateId: string, limit: Limit, y: Measure)
    requires SoundFor(grants, mandateId) && Checked(DoAsk(a), mandateId, limit) && WindowStart(a.now, limit.windowMs).None?
    ensures var after := ReserveGrant(grants, a).0;
            && SoundFor(after, mandateId)
            && (Counted(after, mandateId, None, y) <= Counted(grants, mandateId, None, y)
                || (Most(limit, y).Some? ==> Counted(after, mandateId, None, y) <= Most(limit, y).value))
  {
    var clean, id, g := CleanExpired(grants, a.now), GrantId(a), NewGrant(a);
    CleanCounted(grants, a.now, mandateId, y);
    hide CleanExpired, LimitError, GrantId, Counted, Most;
    if ReserveGrant(grants, a).0 != clean {
      if id in clean {
        ReplaceCounted(clean, id, g, mandateId, y);
        WeightSound(clean[id], mandateId, y);
      } else {
        InsertCounted(clean, id, g, mandateId, y);
      }
      if a.mandateId == mandateId { PassedCheck(clean, mandateId, a.delta, limit, a.now, y); }
    }
  }

  lemma WeightSound(g: Grant, mandateId: string, y: Measure)
    requires g.mandateId == mandateId ==> SoundGrant(g)
    ensures Weight(g, mandateId, None, y) >= 0
  {
    if g.mandateId == mandateId { ChargeSound(Charged(g), y); }
    hide ChargeOf;
  }

  lemma InsertCounted(grants: Grants, id: string, g: Grant, mandateId: string, y: Measure)
    requires id !in grants
    ensures Counted(grants[id := g], mandateId, None, y) == Counted(grants, mandateId, None, y) + Weight(g, mandateId, None, y)
  {
    hide Weight;
    SumInsert(grants, WeightOf(mandateId, None, y), id, g);
  }

  lemma LateIsCharge(before: Grants, after: Grants, op: GrantOp, mandateId: string, y: Measure)
    requires SoundFor(after, mandateId)
    ensures LateCharge(before, after, op, mandateId, y) >= 0
  {
    var id := Coalesce(Target(op), "");
    if id in after && after[id].mandateId == mandateId { ChargeSound(Charged(after[id]), y); }
    hide ChargeOf;
  }

  // ---- Whole runs ---------------------------------------------------------

  predicate NoWindow(limit: Limit) { limit.windowMs.Some? ==> limit.windowMs.value <= 0 }

  predicate AllChecked(ops: seq<GrantOp>, mandateId: string, limit: Limit) {
    forall k | 0 <= k < |ops| :: Checked(ops[k], mandateId, limit)
  }

  lemma {:induction false} BudgetFrom(ops: seq<GrantOp>, mandateId: string, limit: Limit, y: Measure)
    requires AllChecked(ops, mandateId, limit) && NoWindow(limit) && Most(limit, y).Some? && Most(limit, y).value >= 0
    ensures SoundFor(Acted(map[], ops), mandateId) && LateTotal(map[], ops, mandateId, y) >= 0
    ensures Counted(Acted(map[], ops), mandateId, None, y) <= Most(limit, y).value + LateTotal(map[], ops, mandateId, y)
  {
    if ops == [] {
      SumZero<string, Grant>(map[], WeightOf(mandateId, None, y));
    } else {
      var init, op := ops[..|ops| - 1], ops[|ops| - 1];
      BudgetFrom(init, mandateId, limit, y);
      var before := Acted(map[], init);
      assert Checked(op, mandateId, limit);
      BudgetStep(before, op, mandateId, limit, y, LateTotal(map[], init, mandateId, y));
      hide Act, Counted, Most, SoundFor, Checked;
    }
  }

  lemma BudgetStep(before: Grants, op: GrantOp, mandateId: string, limit: Limit, y: Measure, late: int)
    requires SoundFor(before, mandateId) && Checked(op, mandateId, limit) && NoWindow(limit) && Most(limit, y).Some?
    requires late >= 0 && Counted(before, mandateId, None, y) <= Most(limit, y).value + late
    ensures SoundFor(Act(before, op), mandateId)
    ensures var more := LateCharge(before, Act(before, op), op, mandateId, y);
            more >= 0 && Counted(Act(before, op), mandateId, None, y) <= Most(limit, y).value + late + more
  {
    hide Counted, Most, SoundFor, Checked, LateCharge, ReserveGrant, CommitGrant, AbortGrant, ReconcileGrant, SettleGrant, RenewGrant;
    if op.DoAsk? {
      AskCounted(before, op.ask, mandateId, limit, y);
    } else {
      OpCounted(before, op, mandateId, limit, y);
    }
    LateIsCharge(before, Act(before, op), op, mandateId, y);
  }

  /**
   * The grant budget over all runs: when every request on a mandate is checked against one
   * windowless limit and settlements report at most one usage entry, committed plus
   * reserved usage exceeds the limit by no more than what was committed late.
   */
  lemma GrantBudget(ops: seq<GrantOp>, mandateId: string, limit: Limit)
    requires AllChecked(ops, mandateId, limit) && NoWindow(limit)
    ensures forall y | Most(limit, y).Some? && Most(limit, y).value >= 0 ::
      Counted(Acted(map[], ops), mandateId, None, y) <= Most(limit, y).value + LateTotal(map[], ops, mandateId, y)
  {
    forall y | Most(limit, y).Some? && Most(limit, y).value >= 0
      ensures Counted(Acted(map[], ops), mandateId, None, y) <= Most(limit, y).value + LateTotal(map[], ops, mandateId, y)
    {
      BudgetFrom(ops, mandateId, limit, y);
    }
  }

  // ---- Late commits -------------------------------------------------------

  /** The operation will commit a grant of the mandate that is outcome-unknown now; no limit is consulted. */
  predicate CommitsLate(grants: Grants, op: GrantOp, mandateId: string) {
    match op
    case DoReconcileGrant(_, id, verdict, _) =>
      id in grants && grants[id].status.Unknown? && grants[id].mandateId == mandateId && !verdict.DefinitelyNotExecuted?
    case DoSettleGrant(now, i) =>
      && i.reservationId in grants && grants[i.reservationId].status.Unknown? && grants[i.reservationId].mandateId == mandateId
      && !GrantSettledBy(grants[i.reservationId], i.settlementId)
      && SettledGrant(grants[i.reservationId], now, i).Ok? && !i.disposition.ReleaseNonexecution?
    case _ => false
  }

  /** The usage it will charge: the reserved one, or the actual one a settlement reports. */
  function LateUsage(grants: Grants, op: GrantOp, mandateId: string): Usage
    requires CommitsLate(grants, op, mandateId)
  {
    match op
    case DoReconcileGrant(_, id, _, _) => grants[id].delta
    case DoSettleGrant(_, i) =>
      if i.disposition.SettleActual? then Coalesce(ActualUsage(i).value, grants[i.reservationId].delta) else grants[i.reservationId].delta
  }

  /**
   * A late commit keeps a limit exactly when it passes the check that is left out: what is
   * counted before it and what it charges are together within the limit.
   */
  lemma LateCommitExact(grants: Grants, op: GrantOp, mandateId: string, y: Measure, most: int)
    requires CommitsLate(grants, op, mandateId)
    ensures var charge := ChargeOf(LateUsage(grants, op, mandateId), y);
            && Counted(Act(grants, op), mandateId, None, y) == Counted(grants, mandateId, None, y) + charge
            && LateCharge(grants, Act(grants, op), op, mandateId, y) == charge
            && (Counted(Act(grants, op), mandateId, None, y) <= most <==> Counted(grants, mandateId, None, y) + charge <= most)
  {
    var id := Target(op).value;
    ReplaceCounted(grants, id, Act(grants, op)[id], mandateId, y);
    assert Act(grants, op) == grants[id := Act(grants, op)[id]];
    hide Counted, ChargeOf, SettlementCheck, UsageTotal, UsageReleased;
  }

  lemma OtherwiseNotLate(grants: Grants, op: GrantOp, mandateId: string, y: Measure)
    requires !CommitsLate(grants, op, mandateId)
    ensures LateCharge(grants, Act(grants, op), op, mandateId, y) == 0
  {
    hide ChargeOf, SettlementCheck, UsageTotal, UsageReleased, ReserveGrant;
  }

  /** The check a late commit skips. */
  ghost predicate PassesSkipped(grants: Grants, op: GrantOp, mandateId: string, y: Measure, most: int) {
    CommitsLate(grants, op, mandateId) ==> Counted(grants, mandateId, None, y) + ChargeOf(LateUsage(grants, op, mandateId), y) <= most
  }

  lemma StepWithin(before: Grants, op: GrantOp, mandateId: string, limit: Limit, y: Measure)
    requires SoundFor(before, mandateId) && Checked(op, mandateId, limit) && NoWindow(limit) && Most(limit, y).Some?
    requires Counted(before, mandateId, None, y) <= Most(limit, y).value
    ensures PassesSkipped(before, op, mandateId, y, Most(limit, y).value) <==> Counted(Act(before, op), mandateId, None, y) <= Most(limit, y).value
  {
    hide Counted, Most, SoundFor, Checked, CommitsLate, LateUsage, LateCharge, ChargeOf, Act;
    if CommitsLate(before, op, mandateId) {
      LateCommitExact(before, op, mandateId, y, Most(limit, y).value);
    } else {
      OtherwiseNotLate(before, op, mandateId, y);
      BudgetStep(before, op, mandateId, limit, y, 0);
    }
  }

  ghost predicate WithinAfter(ops: seq<GrantOp>, mandateId: string, y: Measure, most: int, k: nat)
    requires k <= |ops|
  {
    Counted(Acted(map[], ops[..k]), mandateId, None, y) <= most
  }

  ghost predicate PassesAt(ops: seq<GrantOp>, mandateId: string, y: Measure, most: int, k: nat)
    requires k < |ops|
  {
    PassesSkipped(Acted(map[], ops[..k]), ops[k], mandateId, y, most)
  }

  /** From within the limit, the operation at k stays within it exactly when it passes what it may skip. */
  lemma NextWithin(ops: seq<GrantOp>, mandateId: string, limit: Limit, y: Measure, k: nat)
    requires k < |ops| && AllChecked(ops, mandateId, limit) && NoWindow(limit) && Most(limit, y).Some? && Most(limit, y).value >= 0
    ensures var most := Most(limit, y).value;
            WithinAfter(ops, mandateId, y, most, k) ==> (WithinAfter(ops, mandateId, y, most, k + 1) <==> PassesAt(ops, mandateId, y, most, k))
  {
    BudgetFrom(ops[..k], mandateId, limit, y);
    assert Checked(ops[k], mandateId, limit);
    assert ops[..k + 1][..k] == ops[..k];
    var before := Acted(map[], ops[..k]);
    assert Acted(map[], ops[..k + 1]) == Act(before, ops[k]);
    hide Most, Checked, PassesSkipped, Counted, Act, Acted, AllChecked, SoundFor;
    if Counted(before, mandateId, None, y) <= Most(limit, y).value { StepWithin(before, ops[k], mandateId, limit, y); }
  }

  lemma WithinAtStart(ops: seq<GrantOp>, mandateId: string, y: Measure, most: int)
    requires most >= 0
    ensures WithinAfter(ops, mandateId, y, most, 0)
  {
    SumZero<string, Grant>(map[], WeightOf(mandateId, None, y));
  }

  /**
   * Exactly when a run keeps the limit: it holds after each of the first n operations if and
   * only if each late commit among them would have passed the check it skips.
   */
  lemma {:induction false} LimitKeptExactly(ops: seq<GrantOp>, mandateId: string, limit: Limit, y: Measure, n: nat)
    requires n <= |ops|
    requires AllChecked(ops, mandateId, limit) && NoWindow(limit) && Most(limit, y).Some? && Most(limit, y).value >= 0
    ensures (forall k | 0 <= k <= n :: WithinAfter(ops, mandateId, y, Most(limit, y).value, k))
       <==> (forall k | 0 <= k < n :: PassesAt(ops, mandateId, y, Most(limit, y).value, k))
  {
    hide Most, WithinAfter, PassesAt, AllChecked;
    if n == 0 {
      WithinAtStart(ops, mandateId, y, Most(limit, y).value);
    } else {
      LimitKeptExactly(ops, mandateId, limit, y, n - 1);
      NextWithin(ops, mandateId, limit, y, n - 1);
    }
  }

  /**
   * An outcome-unknown grant does not hold its budget: a second request passes the limit of
   * one, and completing both charges two.
   */
  lemma LateSettlementOverruns(a: Ask, b: Ask, receipt: GrantReceipt)
    requires a.mandateId == b.mandateId && a.delta == b.delta == Usage(1, None)
    requires a.limit == b.limit == Some(Limit(Some(1), None, None))
    requires GrantId(a) != GrantId(b) && b.now > a.now + a.ttlMs && b.ttlMs >= 0
    ensures var g1 := ReserveGrant(map[], a);
            var g2 := ReserveGrant(g1.0, b);
            var g3 := CommitGrant(g2.0, b.now, GrantId(b), receipt);
            var g4 := ReconcileGrant(g3.0, b.now, GrantId(a), Completed, None);
            && g1.1.Ok? && g2.1.Ok? && g3.1.None? && g4.1.None?
            && Counted(g4.0, a.mandateId, None, Count) == 2
  {
    var m, x, z := a.mandateId, GrantId(a), GrantId(b);
    var w := WeightOf(m, None, Count);
    hide GrantId;
    assert CleanExpired(map[], a.now) == map[];
    SumZero<string, Grant>(map[], w);
    SumZero<string, Grant>(map[], WeightOf(m, None, Total));
    var g1: Grants := map[x := NewGrant(a)];
    assert ReserveGrant(map[], a).0 == g1;
    var clean: Grants := map[x := NewGrant(a).(status := Unknown)];
    assert CleanExpired(g1, b.now) == clean;
    SumZero(clean, w);
    var g2 := clean[z := NewGrant(b)];
    assert ReserveGrant(g1, b).0 == g2;
    var g3 := CommitGrant(g2, b.now, z, receipt).0;
    var done := NewGrant(b).(status := Status.Committed, receipt := Some(receipt), actual := Some(b.delta));
    assert g3 == clean[z := done];
    InsertCounted(clean, z, done, m, Count);
    ReplaceCounted(g3, x, ReconcileGrant(g3, b.now, x, Completed, None).0[x], m, Count);
  }
}
