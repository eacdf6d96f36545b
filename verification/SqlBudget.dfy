/**
 * The budget of a mandate over whole runs of the database store. The limit is checked against
 * the joined sum, which also counts what run reservations hold, and overdue reservations.
 */
module SqlBudget {
  import opened Outcomes
  import opened Digits
  import opened Decimals
  import opened Settlement
  import opened Sums
  import opened RunLedger
  import opened GrantUsage
  import opened SqlLedger

  /** What a reservation draws from a mandate: its charge while it is reserved or committed. */
  function RowWeight(row: ReservationRow, mandateId: string, y: Measure): int {
    var usage := Scanned(row, mandateId);
    if usage.Some? && (row.status.Committed? || row.status.Reserved?) then ChargeOf(usage.value.usage, y) else 0
  }

  function RowWeightOf(mandateId: string, y: Measure): ReservationRow -> int { (row: ReservationRow) => RowWeight(row, mandateId, y) }

  ghost function Drawn(t: Tables, mandateId: string, y: Measure): int { Sum(t.reservations, RowWeightOf(mandateId, y)) }

  lemma JoinedWeight(t: Tables, mandateId: string, y: Measure, id: string)
    requires TablesAgree(t)
    ensures id in Joined(t, mandateId) ==> id in t.reservations
    ensures id in t.reservations ==>
      RowWeightOf(mandateId, y)(t.reservations[id]) == if id in Joined(t, mandateId) then JoinedCharge(None, y)(Joined(t, mandateId)[id]) else 0
  {
    assert RowAgrees(t, id, mandateId);
    hide ChargeFor, FirstDelta, DeltasOf, ChargeOf;
  }

  /** Without a window the joined sum is what is drawn. */
  lemma JoinedIsDrawn(t: Tables, mandateId: string, y: Measure)
    requires TablesAgree(t)
    ensures JoinedSum(t, mandateId, None, y) == Drawn(t, mandateId, y)
  {
    forall id
      ensures id in Joined(t, mandateId) ==> id in t.reservations
      ensures id in t.reservations ==>
        RowWeightOf(mandateId, y)(t.reservations[id]) == if id in Joined(t, mandateId) then JoinedCharge(None, y)(Joined(t, mandateId)[id]) else 0
    {
      JoinedWeight(t, mandateId, y, id);
    }
    hide TablesAgree, Joined, RowWeightOf, JoinedCharge;
    SumMatch(Joined(t, mandateId), JoinedCharge(None, y), t.reservations, RowWeightOf(mandateId, y));
  }

  // ---- Records ------------------------------------------------------------

  /** At most one delta of the record is for the mandate, and it is sound. */
  predicate DeltasSound(deltas: seq<MandateUsage>, mandateId: string) {
    && (forall k | 0 <= k < |deltas| && deltas[k].mandateId == mandateId :: Sound(deltas[k].delta))
    && forall k, n | 0 <= k < n < |deltas| && deltas[k].mandateId == mandateId :: deltas[n].mandateId != mandateId
  }

  predicate RowSound(row: ReservationRow, mandateId: string) { DeltasSound(DeltasOf(row.record), mandateId) }

  ghost predicate RowsSound(t: Tables, mandateId: string) {
    forall id | id in t.reservations :: RowSound(t.reservations[id], mandateId)
  }

  lemma {:induction false} TheDelta(deltas: seq<MandateUsage>, mandateId: string)
    requires DeltasSound(deltas, mandateId)
    ensures FirstDelta(deltas, mandateId) == ReservedFor(deltas, mandateId)
    ensures FirstDelta(deltas, mandateId).Some? ==> Sound(FirstDelta(deltas, mandateId).value)
    ensures FirstDelta(deltas, mandateId).None? <==> forall k | 0 <= k < |deltas| :: deltas[k].mandateId != mandateId
  {
    hide Sound;
    if deltas != [] {
      var init := deltas[..|deltas| - 1];
      assert forall k | 0 <= k < |init| :: init[k] == deltas[k];
      TheDelta(init, mandateId);
    }
  }

  lemma WeightNonNegative(row: ReservationRow, mandateId: string, y: Measure)
    requires RowSound(row, mandateId) && row.status.Reserved?
    ensures RowWeight(row, mandateId, y) >= 0
  {
    TheDelta(DeltasOf(row.record), mandateId);
    hide FirstDelta, DeltasOf, Sound;
    var d := FirstDelta(DeltasOf(row.record), mandateId);
    if d.Some? { ChargeSound(d.value, y); }
  }

  // ---- One reservation changes --------------------------------------------

  /** The reservation an operation names. */
  function SqlTarget(op: SqlOp): Option<string> {
    match op
    case SqlDoReserve(id, _, _) => Some(id)
    case SqlDoReconcile(_, id, _, _) => Some(id)
    case SqlDoSettleRun(_, i) => Some(i.reservationId)
    case SqlDoSettleGrant(_, i) => Some(i.reservationId)
    case _ => None
  }

  /**
   * What an operation draws that no limit check has seen: a run reservation that is new, or the
   * late commit of an outcome-unknown one.
   */
  function Unchecked(before: Tables, after: Tables, op: SqlOp, mandateId: string, y: Measure): int {
    var id := Coalesce(SqlTarget(op), "");
    if SqlTarget(op).Some? && id in after.reservations && (id !in before.reservations || before.reservations[id].status.Unknown?)
    then RowWeight(after.reservations[id], mandateId, y) else 0
  }

  /** The operation keeps records sound and raises what is drawn by no more than the unchecked part. */
  ghost predicate DrawsLittle(t: Tables, after: Tables, op: SqlOp, mandateId: string, y: Measure) {
    RowsSound(after, mandateId) && Drawn(after, mandateId, y) <= Drawn(t, mandateId, y) + Unchecked(t, after, op, mandateId, y)
  }

  /** A row stays what it records, and weighs no more unless it was outcome-unknown. */
  lemma RowReplaced(t: Tables, after: Tables, op: SqlOp, id: string, row: ReservationRow, mandateId: string, y: Measure)
    requires RowsSound(t, mandateId) && id in t.reservations && after.reservations == t.reservations[id := row]
    requires row.record == t.reservations[id].record
    requires t.reservations[id].status.Unknown? ==> SqlTarget(op) == Some(id) || row.status == Unknown
    requires !t.reservations[id].status.Unknown? ==> RowWeight(row, mandateId, y) <= RowWeight(t.reservations[id], mandateId, y)
    requires SqlTarget(op).Some? ==> SqlTarget(op) == Some(id)
    ensures DrawsLittle(t, after, op, mandateId, y)
  {
    SumReplace(t.reservations, RowWeightOf(mandateId, y), id, row);
    hide Scanned, ChargeOf, DeltasSound, DeltasOf;
    forall other | other in after.reservations ensures RowSound(after.reservations[other], mandateId) {
      assert RowSound(t.reservations[if other == id then id else other], mandateId);
    }
    assert t.reservations[id].status.Unknown? ==> RowWeight(t.reservations[id], mandateId, y) == 0;
  }

  lemma NothingChanges(t: Tables, after: Tables, op: SqlOp, mandateId: string, y: Measure)
    requires RowsSound(t, mandateId) && after.reservations == t.reservations
    ensures DrawsLittle(t, after, op, mandateId, y)
  {
    hide Scanned, ChargeOf;
    var id := Coalesce(SqlTarget(op), "");
    assert id in t.reservations && t.reservations[id].status.Unknown? ==> RowWeight(t.reservations[id], mandateId, y) == 0;
  }

  lemma RowAdded(t: Tables, after: Tables, op: SqlOp, id: string, row: ReservationRow, mandateId: string, y: Measure)
    requires RowsSound(t, mandateId) && id !in t.reservations && after.reservations == t.reservations[id := row] && RowSound(row, mandateId)
    ensures RowsSound(after, mandateId) && Drawn(after, mandateId, y) == Drawn(t, mandateId, y) + RowWeight(row, mandateId, y)
  {
    SumInsert(t.reservations, RowWeightOf(mandateId, y), id, row);
    hide RowSound, RowWeight;
  }

  /** Losing or keeping the reserved status, at the same charge, draws no more. */
  lemma SameCharge(row: ReservationRow, status: Status, receipt: Option<Receipt>, mandateId: string, y: Measure)
    requires RowSound(row, mandateId) && row.status.Reserved?
    requires status.Committed? ==> SqlLedger.Metered(receipt).None?
    ensures RowWeight(row.(status := status, receipt := receipt), mandateId, y) <= RowWeight(row, mandateId, y)
  {
    WeightNonNegative(row, mandateId, y);
    hide FirstDelta, DeltasOf, ChargeOf, SqlLedger.Metered, RowSound;
  }

  lemma StatusDraws(t: Tables, op: SqlOp, id: string, status: Status, receipt: Option<Receipt>, mandateId: string, y: Measure)
    requires RowsSound(t, mandateId) && id in t.reservations && (SqlTarget(op).Some? ==> SqlTarget(op) == Some(id))
    requires t.reservations[id].status.Reserved? || (t.reservations[id].status.Unknown? && SqlTarget(op) == Some(id))
    requires status.Committed? ==> SqlLedger.Metered(receipt).None?
    ensures DrawsLittle(t, SetStatus(t, id, status, receipt), op, mandateId, y)
  {
    var row := t.reservations[id];
    assert RowSound(row, mandateId);
    if row.status.Reserved? { SameCharge(row, status, receipt, mandateId, y); }
    hide RowSound, RowWeight, SqlLedger.Metered;
    RowReplaced(t, SetStatus(t, id, status, receipt), op, id, row.(status := status, receipt := receipt), mandateId, y);
  }

  // ---- Settlements --------------------------------------------------------

  /** The entry a mandate is charged for passed the check against its delta. */
  lemma {:induction false} CheckedEntry(usages: seq<MandateUsage>, deltas: seq<MandateUsage>, mandateId: string)
    requires CheckUsages(usages, deltas) == None
    ensures ReservedFor(usages, mandateId).Some? ==> CheckUsage(ReservedFor(usages, mandateId).value, ReservedFor(deltas, mandateId)) == None
  {
    hide CheckUsage;
    if usages != [] { CheckedEntry(usages[..|usages| - 1], deltas, mandateId); }
  }

  lemma EntryCharge(u: Usage, delta: Usage, y: Measure)
    requires CheckUsage(u, Some(delta)) == None && Sound(delta)
    ensures ChargeOf(u, y) <= ChargeOf(delta, y)
  {
    ChargeSound(delta, y);
    if ReadableUsage(u) { EntryWithinDelta(u, delta, y); }
    hide CompareDecimal, IsDecimal, IsAmount, NatOf;
  }

  /** A settled run reservation is charged no more than its delta. */
  lemma SettledRunWeight(row: ReservationRow, now: int, i: Instruction, mandateId: string, y: Measure)
    requires row.record.RunRecord? && row.status.Reserved? && RowSound(row, mandateId) && SettlementReceipt(AsRun(row), now, i).Ok?
    requires !i.disposition.ReleaseNonexecution?
    ensures RowWeight(row.(status := Status.Committed, receipt := Some(SettlementReceipt(AsRun(row), now, i).value)), mandateId, y)
         <= RowWeight(row, mandateId, y)
  {
    SettlementFacts(AsRun(row), now, i);
    TheDelta(DeltasOf(row.record), mandateId);
    var d := FirstDelta(DeltasOf(row.record), mandateId);
    if d.Some? && i.disposition.SettleActual? {
      AcceptedRun(row, now, i);
      CheckedEntry(i.actual.value.mandateUsage, DeltasOf(row.record), mandateId);
      var u := ActualFor(i.actual.value, mandateId);
      if ReservedFor(i.actual.value.mandateUsage, mandateId).Some? { EntryCharge(u, d.value, y); } else { ChargeSound(d.value, y); EmptyUsage(y); }
    }
    hide SettlementReceipt, FirstDelta, DeltasOf, ChargeOf, Sound, CheckUsages, CheckUsage, ReservedFor;
  }

  lemma AcceptedRun(row: ReservationRow, now: int, i: Instruction)
    requires row.record.RunRecord? && SettlementReceipt(AsRun(row), now, i).Ok? && i.disposition.SettleActual?
    requires DeltasOf(row.record) != []
    ensures i.actual.Some? && CheckUsages(i.actual.value.mandateUsage, DeltasOf(row.record)) == None
  {
    hide CheckUsages, CheckEntries, UsageTotal, UsageReleased;
  }

  lemma SettleRunDraws(t: Tables, now: int, i: Instruction, mandateId: string, y: Measure)
    requires RowsSound(t, mandateId) && (i.reservationId in t.reservations ==> t.reservations[i.reservationId].record.RunRecord?)
    ensures DrawsLittle(t, SqlSettleRun(t, now, i).0, SqlDoSettleRun(now, i), mandateId, y)
  {
    var op, after, id := SqlDoSettleRun(now, i), SqlSettleRun(t, now, i).0, i.reservationId;
    if after == t {
      NothingChanges(t, t, op, mandateId, y);
    } else {
      var row := t.reservations[id];
      assert RowSound(row, mandateId);
      var receipt := SettlementReceipt(AsRun(row), now, i).value;
      hide SettlementReceipt, RowWeight, RowsSound, RowSound, SettledRows, DrawsLittle;
      if i.disposition.ReleaseNonexecution? {
        StatusDraws(t, op, id, Status.Aborted, Some(receipt), mandateId, y);
      } else {
        if row.status.Reserved? { SettledRunWeight(row, now, i, mandateId, y); }
        RowReplaced(t, after, op, id, row.(status := Status.Committed, receipt := Some(receipt)), mandateId, y);
      }
    }
  }

  lemma SettledGrantWeight(row: ReservationRow, now: int, i: Instruction, mandateId: string, y: Measure)
    requires row.record.GrantRecord? && row.status.Reserved? && RowSound(row, mandateId) && OneUsage(i)
    requires SettledGrant(AsGrant(row), now, i).Ok? && SettledGrant(AsGrant(row), now, i).value.status.Committed?
    ensures var g := SettledGrant(AsGrant(row), now, i).value;
            g.receipt.Some? &&
            RowWeight(row.(status := Status.Committed, receipt := Some(Receipt(now, None, g.receipt.value.settled))), mandateId, y)
              <= RowWeight(row, mandateId, y)
  {
    var g := SettledGrant(AsGrant(row), now, i).value;
    GrantSettlementFacts(AsGrant(row), now, i);
    GrantScan(row, mandateId);
    GrantScan(row.(status := Status.Committed, receipt := Some(Receipt(now, None, g.receipt.value.settled))), mandateId);
    if mandateId == row.record.mandateId {
      assert DeltasOf(row.record)[0].mandateId == mandateId;
      SettledCharge(AsGrant(row), now, i, y);
    }
    hide SettledGrant, Scanned, UsageTotal, ChargeOf, Sound, OneUsage, DeltasSound, DeltasOf;
  }

  lemma SettleGrantDraws(t: Tables, now: int, i: Instruction, mandateId: string, y: Measure)
    requires RowsSound(t, mandateId) && OneUsage(i)
    ensures DrawsLittle(t, SqlSettleGrant(t, now, i).0, SqlDoSettleGrant(now, i), mandateId, y)
  {
    var op, after, id := SqlDoSettleGrant(now, i), SqlSettleGrant(t, now, i).0, i.reservationId;
    if after == t {
      NothingChanges(t, t, op, mandateId, y);
    } else {
      var row := t.reservations[id];
      assert RowSound(row, mandateId);
      GrantSettlementFacts(AsGrant(row), now, i);
      var g := SettledGrant(AsGrant(row), now, i).value;
      var receipt := Receipt(now, None, g.receipt.value.settled);
      hide SettledGrant, RowWeight, RowsSound, RowSound, DrawsLittle, OneUsage;
      if g.status.Aborted? {
        StatusDraws(t, op, id, Status.Aborted, Some(receipt), mandateId, y);
      } else {
        if row.status.Reserved? { SettledGrantWeight(row, now, i, mandateId, y); }
        RowReplaced(t, after, op, id, row.(status := Status.Committed, receipt := Some(receipt)), mandateId, y);
      }
    }
  }

  // ---- The other transactions ---------------------------------------------

  lemma ExpireDraws(t: Tables, now: int, only: Option<string>, mandateId: string, y: Measure)
    requires RowsSound(t, mandateId)
    ensures DrawsLittle(t, SqlExpire(t, now, only), SqlDoExpire(now, only), mandateId, y)
  {
    var after := SqlExpire(t, now, only);
    forall id | id in t.reservations
      ensures RowSound(after.reservations[id], mandateId)
      ensures RowWeightOf(mandateId, y)(after.reservations[id]) <= RowWeightOf(mandateId, y)(t.reservations[id])
    {
      assert RowSound(t.reservations[id], mandateId);
      if t.reservations[id].status.Reserved? { SameCharge(t.reservations[id], Unknown, t.reservations[id].receipt, mandateId, y); }
      hide RowWeight, RowSound;
    }
    hide RowWeight, RowSound, RowWeightOf;
    SumMonotone(after.reservations, t.reservations, RowWeightOf(mandateId, y));
  }

  lemma ReconcileDraws(t: Tables, now: int, id: string, verdict: Verdict, receipt: Option<Receipt>, mandateId: string, y: Measure)
    requires RowsSound(t, mandateId) && SqlLedger.Metered(receipt).None?
    ensures DrawsLittle(t, SqlReconcile(t, now, id, verdict, receipt).0, SqlDoReconcile(now, id, verdict, receipt), mandateId, y)
  {
    var op, after := SqlDoReconcile(now, id, verdict, receipt), SqlReconcile(t, now, id, verdict, receipt).0;
    if after == t {
      NothingChanges(t, t, op, mandateId, y);
    } else {
      var row := t.reservations[id];
      assert RowSound(row, mandateId);
      var status := if verdict.DefinitelyNotExecuted? then Status.Aborted else Status.Committed;
      var given := if verdict.DefinitelyNotExecuted? then None else Some(Coalesce(receipt, OwnReceipt(row, now)));
      assert row.status.Reserved? || row.status.Unknown?;
      assert after.reservations == t.reservations[id := row.(status := status, receipt := given)];
      hide RowWeight, RowsSound, RowSound, DrawsLittle;
      if row.status.Reserved? { SameCharge(row, status, given, mandateId, y); }
      RowReplaced(t, after, op, id, row.(status := status, receipt := given), mandateId, y);
    }
  }

  lemma RenewDraws(t: Tables, now: int, id: string, extendsTo: int, mandateId: string, y: Measure)
    requires RowsSound(t, mandateId)
    ensures DrawsLittle(t, SqlRenew(t, now, id, extendsTo).0, SqlDoRenew(now, id, extendsTo), mandateId, y)
  {
    var op, after := SqlDoRenew(now, id, extendsTo), SqlRenew(t, now, id, extendsTo).0;
    if after == t {
      NothingChanges(t, t, op, mandateId, y);
    } else {
      var row := t.reservations[id];
      assert RowWeight(row.(expiresAt := extendsTo), mandateId, y) == RowWeight(row, mandateId, y);
      hide RowWeight, RowsSound, DrawsLittle;
      RowReplaced(t, after, op, id, row.(expiresAt := extendsTo), mandateId, y);
    }
  }

  /** A grant request is checked against one windowless limit; run reservations give one sound delta per mandate. */
  predicate SqlChecked(op: SqlOp, mandateId: string, limit: Limit) {
    && (op.SqlDoAuthorize? && op.ask.mandateId == mandateId ==> op.ask.limit == Some(limit) && Sound(op.ask.delta))
    && (op.SqlDoReserve? ==> DeltasSound(Coalesce(op.reservation.usageDeltas, []), mandateId))
    && (op.SqlDoSettleGrant? ==> OneUsage(op.instruction))
  }

  lemma ReserveDraws(t: Tables, id: string, r: Reservation, reservedAt: int, mandateId: string, y: Measure)
    requires RowsSound(t, mandateId) && DeltasSound(Coalesce(r.usageDeltas, []), mandateId)
    requires SqlProper(t, SqlDoReserve(id, r, reservedAt))
    ensures DrawsLittle(t, SqlApply(t, SqlDoReserve(id, r, reservedAt)), SqlDoReserve(id, r, reservedAt), mandateId, y)
  {
    var op := SqlDoReserve(id, r, reservedAt);
    var after := SqlApply(t, op);
    if id in t.reservations {
      NothingChanges(t, after, op, mandateId, y);
    } else {
      hide RowWeight, DeltasSound;
      RowAdded(t, after, op, id, NewRunRow(r, reservedAt), mandateId, y);
    }
  }

  lemma StatusOps(t: Tables, op: SqlOp, mandateId: string, y: Measure)
    requires RowsSound(t, mandateId) && SqlProper(t, op) && (op.SqlDoCommit? || op.SqlDoAbort? || op.SqlDoAbortStep?)
    ensures DrawsLittle(t, SqlApply(t, op), op, mandateId, y)
  {
    hide RowsSound, DrawsLittle, SetStatus, SqlLedger.Metered;
    if op.id in t.reservations && t.reservations[op.id].status.Reserved? {
      match op
      case SqlDoCommit(now, id, receipt) =>
        if now > t.reservations[id].expiresAt { StatusDraws(t, op, id, Unknown, None, mandateId, y); }
        else { StatusDraws(t, op, id, Status.Committed, Some(receipt), mandateId, y); }
      case SqlDoAbort(id) => StatusDraws(t, op, id, Status.Aborted, None, mandateId, y);
      case SqlDoAbortStep(id) => StatusDraws(t, op, id, Status.Aborted, None, mandateId, y);
    } else {
      NothingChanges(t, SqlApply(t, op), op, mandateId, y);
    }
  }

  /** Every transaction but a grant request. */
  lemma OpDraws(t: Tables, op: SqlOp, mandateId: string, limit: Limit, y: Measure)
    requires RowsSound(t, mandateId) && SqlProper(t, op) && SqlChecked(op, mandateId, limit) && !op.SqlDoAuthorize?
    ensures DrawsLittle(t, SqlApply(t, op), op, mandateId, y)
  {
    hide DrawsLittle, RowsSound, SqlExpire, SqlReconcile, SqlSettleRun, SqlSettleGrant, SqlRenew, SqlReserve, SqlCommit, SqlAbort, SqlAbortStep;
    hide DeltasSound, OneUsage;
    match op
    case SqlDoReserve(id, r, reservedAt) => ReserveDraws(t, id, r, reservedAt, mandateId, y);
    case SqlDoExpire(now, only) => ExpireDraws(t, now, only, mandateId, y);
    case SqlDoReconcile(now, id, verdict, receipt) => ReconcileDraws(t, now, id, verdict, receipt, mandateId, y);
    case SqlDoSettleRun(now, i) => SettleRunDraws(t, now, i, mandateId, y);
    case SqlDoSettleGrant(now, i) => SettleGrantDraws(t, now, i, mandateId, y);
    case SqlDoRenew(now, id, extendsTo) => RenewDraws(t, now, id, extendsTo, mandateId, y);
    case _ => StatusOps(t, op, mandateId, y);
  }

  /** A request that passes the check leaves what is drawn within the limit. */
  lemma SqlPassedCheck(t: Tables, mandateId: string, delta: Usage, limit: Limit, now: int, y: Measure)
    requires SqlLimitError(t, mandateId, delta, limit, now).None? && NoWindow(limit) && Sound(delta) && TablesAgree(t)
    ensures Most(limit, y).Some? ==> Drawn(t, mandateId, y) + ChargeOf(delta, y) <= Most(limit, y).value
  {
    JoinedIsDrawn(t, mandateId, y);
    hide JoinedSum, JoinReadable, Readable, NatOf, TablesAgree, Drawn;
  }

  lemma NewGrantWeight(a: Ask, mandateId: string, y: Measure)
    ensures RowWeight(NewGrantRow(a), mandateId, y) == if a.mandateId == mandateId then ChargeOf(a.delta, y) else 0
    ensures RowSound(NewGrantRow(a), mandateId) <==> (a.mandateId == mandateId ==> Sound(a.delta))
  {
    GrantScan(NewGrantRow(a), mandateId);
    assert a.mandateId == mandateId ==> DeltasOf(NewGrantRow(a).record)[0] == MandateUsage(mandateId, a.delta);
    hide Scanned, ChargeOf, Sound;
  }

  lemma AuthorizeDraws(t: Tables, a: Ask, mandateId: string, limit: Limit, y: Measure)
    requires RowsSound(t, mandateId) && TablesAgree(t) && SqlChecked(SqlDoAuthorize(a), mandateId, limit) && NoWindow(limit)
    requires SqlProper(t, SqlDoAuthorize(a))
    ensures var after := SqlAuthorize(t, a).0;
            && RowsSound(after, mandateId)
            && (Drawn(after, mandateId, y) <= Drawn(t, mandateId, y)
                || (Most(limit, y).Some? ==> Drawn(after, mandateId, y) <= Most(limit, y).value))
  {
    var after, id := SqlAuthorize(t, a).0, SqlGrantId(a);
    if after != t && id !in t.reservations {
      NewGrantWeight(a, mandateId, y);
      assert after.reservations == t.reservations[id := NewGrantRow(a)];
      hide RowsSound, TablesAgree, SqlLimitError, Most, RowWeight, RowSound, ChargeOf, Sound, SqlGrantId;
      RowAdded(t, after, SqlDoAuthorize(a), id, NewGrantRow(a), mandateId, y);
      if a.mandateId == mandateId { SqlPassedCheck(t, mandateId, a.delta, limit, a.now, y); }
    }
  }

  // ---- Whole runs ---------------------------------------------------------

  ghost predicate AllSqlChecked(t: Tables, ops: seq<SqlOp>, mandateId: string, limit: Limit)
    decreases |ops|
  {
    ops == [] || (SqlProper(t, ops[0]) && SqlChecked(ops[0], mandateId, limit) && AllSqlChecked(SqlApply(t, ops[0]), ops[1..], mandateId, limit))
  }

  /** All that a run draws without a limit check. */
  ghost function UncheckedTotal(t: Tables, ops: seq<SqlOp>, mandateId: string, y: Measure): int
    decreases |ops|
  {
    if ops == [] then 0
    else
      var after := SqlApply(t, ops[0]);
      Positive(Unchecked(t, after, ops[0], mandateId, y)) + UncheckedTotal(after, ops[1..], mandateId, y)
  }

  function Positive(n: int): nat { if n > 0 then n else 0 }

  lemma SqlStep(t: Tables, op: SqlOp, mandateId: string, limit: Limit, y: Measure, over: nat)
    requires RowsSound(t, mandateId) && TablesAgree(t) && SqlProper(t, op) && SqlChecked(op, mandateId, limit) && NoWindow(limit)
    requires Most(limit, y).Some? && Drawn(t, mandateId, y) <= Most(limit, y).value + over
    ensures RowsSound(SqlApply(t, op), mandateId) && TablesAgree(SqlApply(t, op))
    ensures Drawn(SqlApply(t, op), mandateId, y) <= Most(limit, y).value + over + Positive(Unchecked(t, SqlApply(t, op), op, mandateId, y))
  {
    SqlStepAgrees(t, op);
    hide TablesAgree, RowsSound, Most, Drawn, SqlProper, SqlChecked, Unchecked, SqlAuthorize;
    if op.SqlDoAuthorize? {
      AuthorizeDraws(t, op.ask, mandateId, limit, y);
    } else {
      OpDraws(t, op, mandateId, limit, y);
    }
    hide SqlApply;
  }

  lemma {:induction false} SqlBudgetFrom(t: Tables, ops: seq<SqlOp>, mandateId: string, limit: Limit, y: Measure, over: nat)
    requires RowsSound(t, mandateId) && TablesAgree(t) && AllSqlChecked(t, ops, mandateId, limit) && NoWindow(limit)
    requires Most(limit, y).Some? && Drawn(t, mandateId, y) <= Most(limit, y).value + over
    ensures Drawn(SqlAfter(t, ops), mandateId, y) <= Most(limit, y).value + over + UncheckedTotal(t, ops, mandateId, y)
    ensures TablesAgree(SqlAfter(t, ops))
    decreases |ops|
  {
    hide TablesAgree, RowsSound, Most, Drawn, SqlProper, SqlChecked, SqlApply, Unchecked;
    if ops != [] {
      SqlStep(t, ops[0], mandateId, limit, y, over);
      var after := SqlApply(t, ops[0]);
      SqlBudgetFrom(after, ops[1..], mandateId, limit, y, over + Positive(Unchecked(t, after, ops[0], mandateId, y)));
    }
  }

  /**
   * The budget over all runs of the database store: the joined sum of a mandate exceeds its
   * limit by no more than what was drawn unchecked, by run reservations and late commits.
   */
  lemma SqlBudget(ops: seq<SqlOp>, mandateId: string, limit: Limit, y: Measure)
    requires AllSqlChecked(Tables(map[], map[]), ops, mandateId, limit) && NoWindow(limit)
    requires Most(limit, y).Some? && Most(limit, y).value >= 0
    ensures var empty := Tables(map[], map[]);
            JoinedSum(SqlAfter(empty, ops), mandateId, None, y) <= Most(limit, y).value + UncheckedTotal(empty, ops, mandateId, y)
  {
    var empty := Tables(map[], map[]);
    EmptyTablesAgree();
    SumZero<string, ReservationRow>(map[], RowWeightOf(mandateId, y));
    hide TablesAgree, Most, AllSqlChecked, SqlAfter, UncheckedTotal, RowWeightOf;
    SqlBudgetFrom(empty, ops, mandateId, limit, y, 0);
    JoinedIsDrawn(SqlAfter(empty, ops), mandateId, y);
  }

  // ---- Where the two stores differ ----------------------------------------

  /** A grant of one that is overdue by one millisecond. */
  function OverdueTables(m: string): Tables {
    var row := ReservationRow("r", Reserved, 0, 0, GrantRecord("s", m, "d", Usage(1, None)), None);
    Tables(map["g" := row], map["g" := map[m := UsageRow(Usage(1, None), Reserved)]])
  }

  lemma OverdueDraws(m: string)
    ensures TablesAgree(OverdueTables(m)) && JoinedSum(OverdueTables(m), m, None, Count) == 1 && JoinReadable(OverdueTables(m), m, None)
  {
    var t := OverdueTables(m);
    var row := t.reservations["g"];
    forall id, mandateId ensures RowAgrees(t, id, mandateId) { GrantScan(row, mandateId); }
    GrantScan(row, m);
    assert RowWeight(row, m, Count) == 1;
    hide TablesAgree, Scanned, RowWeight;
    JoinedIsDrawn(t, m, Count);
    SumZero<string, ReservationRow>(map[], RowWeightOf(m, Count));
    SumInsert(map[], RowWeightOf(m, Count), "g", row);
    assert t.reservations == map[]["g" := row];
  }

  lemma OverdueExpires(m: string)
    ensures var clean := CleanExpired(Scan(OverdueTables(m), m), 1);
            Counted(clean, m, None, Count) == 0 && AllReadable(clean, m, None)
  {
    var t := OverdueTables(m);
    GrantScan(t.reservations["g"], m);
    hide Scanned;
    var clean := CleanExpired(Scan(t, m), 1);
    assert forall id | id in clean :: clean[id].status.Unknown?;
    SumZero(clean, WeightOf(m, None, Count));
  }

  /** Under a limit of one the database refuses another one; the in-memory store expires the first and admits it. */
  lemma OverdueGrantTellsApart(m: string)
    ensures var t, limit := OverdueTables(m), Limit(Some(1), None, None);
            && TablesAgree(t)
            && SqlLimitError(t, m, Usage(1, None), limit, 1) == Some(LimitExceeded)
            && LimitError(CleanExpired(Scan(t, m), 1), m, Usage(1, None), limit, 1) == None
  {
    OverdueDraws(m);
    OverdueExpires(m);
    hide OverdueTables, TablesAgree, Scan, CleanExpired, JoinedSum, JoinReadable, Counted, AllReadable;
  }
}
