/**
 * What becomes of a reservation: one table of fates that the in-memory run store, the database
 * and the grant store are all held to, and how far the first two stay in step.
 */
module Fates {
  import opened Outcomes
  import opened Settlement
  import opened RunLedger
  import opened GrantUsage
  import opened SqlLedger

  // ---- The table ----------------------------------------------------------

  /** What is asked about one reservation. */
  datatype Event =
    | CommitAsked(now: int, receipt: Receipt)
    | AbortAsked
    | Overlooked(now: int)
    | Reconciled(now: int, verdict: Verdict, given: Option<Receipt>)
    | Settles(now: int, instruction: Instruction)
    | Renews(now: int, extendsTo: int)

  datatype Fate = Stays | Expires | Extends(until: int) | Commits(receipt: Receipt) | Aborts(last: Option<Receipt>)

  predicate Late(r: Reservation, now: int) { r.status.Reserved? && r.expiresAt < now }

  predicate InTime(r: Reservation, now: int) { r.status.Reserved? && now <= r.expiresAt }

  /** Committed or aborted: never touched again. */
  predicate Closed(r: Reservation) { r.status.Committed? || r.status.Aborted? }

  /**
   * The table: in time a reservation is committed or renewed, any time aborted; too late it
   * becomes outcome-unknown, and then it is closed by a verdict or a settlement.
   */
  function FateOf(r: Reservation, e: Event): Fate {
    match e
    case CommitAsked(now, receipt) => if InTime(r, now) then Commits(receipt) else if Late(r, now) then Expires else Stays
    case AbortAsked => if r.status.Reserved? then Aborts(r.receipt) else Stays
    case Overlooked(now) => if Late(r, now) then Expires else Stays
    case Reconciled(now, verdict, given) =>
      if !(r.status.Unknown? || Late(r, now)) then Stays
      else if verdict.Completed? then Commits(if given.Some? then given.value else Receipt(now, r.effects, None))
      else Aborts(r.receipt)
    case Settles(now, i) =>
      if Closed(r) then Stays
      else if SettlementReceipt(r, now, i).Err? then (if Late(r, now) then Expires else Stays)
      else if i.disposition.ReleaseNonexecution? then Aborts(Some(SettlementReceipt(r, now, i).value))
      else Commits(SettlementReceipt(r, now, i).value)
    case Renews(now, extendsTo) =>
      if Late(r, now) then Expires else if InTime(r, now) && r.expiresAt < extendsTo then Extends(extendsTo) else Stays
  }

  function Fated(r: Reservation, f: Fate): Reservation {
    match f
    case Stays => r
    case Expires => r.(status := Status.Unknown)
    case Extends(until) => r.(expiresAt := until)
    case Commits(receipt) => r.(status := Status.Committed, receipt := Some(receipt))
    case Aborts(receipt) => r.(status := Status.Aborted, receipt := receipt)
  }

  /** What a settlement writes on the receipt, by its disposition. */
  lemma ReceiptTells(r: Reservation, now: int, i: Instruction)
    requires SettlementReceipt(r, now, i).Ok?
    ensures var receipt := SettlementReceipt(r, now, i).value;
            && receipt.committedAt == now && receipt.settled.Some?
            && receipt.settled.value.settlementId == i.settlementId && receipt.settled.value.actual == i.actual
            && receipt.settled.value.dispatch == i.dispatch && receipt.settled.value.outcome == i.outcome
            && UsageTotal(Coalesce(r.usageDeltas, [])) == Result.Ok(receipt.settled.value.reservedUsage)
            && (i.disposition.CommitReserved? ==>
                  && receipt.effects == r.effects && receipt.settled.value.releasedUsage.count == 0
                  && (receipt.settled.value.releasedUsage.amount == if receipt.settled.value.reservedUsage.amount.Some? then Some("0") else None))
            && (i.disposition.SettleActual? ==>
                  && i.actual.Some? && receipt.effects.Some? && receipt.effects.value.spends == i.actual.value.spends
                  && receipt.effects.value.fees == i.actual.value.fees && Coalesce(receipt.effects.value.channels, []) == [])
            && (i.disposition.ReleaseNonexecution? ==>
                  && receipt.effects.Some? && receipt.effects.value.spends == []
                  && Coalesce(receipt.effects.value.fees, []) == [] && Coalesce(receipt.effects.value.channels, []) == []
                  && (i.actual.None? ==> Result.Ok(receipt.settled.value.releasedUsage) == ReleasedUsage(receipt.settled.value.reservedUsage, None)))
  {
    hide UsageTotal, CheckEntries, CheckUsages, ReleasedUsage;
  }

  /** A settlement is refused exactly when the instruction is, or a sum of usages or the rest cannot be formed. */
  lemma ReceiptExactly(r: Reservation, now: int, i: Instruction)
    ensures SettlementReceipt(r, now, i).Ok? <==>
      && SettlementCheck(i, r.effects, r.usageDeltas).None? && UsageTotal(Coalesce(r.usageDeltas, [])).Ok?
      && (i.actual.Some? ==> UsageTotal(i.actual.value.mandateUsage).Ok?)
      && (!i.disposition.CommitReserved? ==>
            var used := if i.actual.Some? then Some(UsageTotal(i.actual.value.mandateUsage).value) else None;
            ReleasedUsage(UsageTotal(Coalesce(r.usageDeltas, [])).value, used).Ok?)
    ensures SettlementCheck(i, r.effects, r.usageDeltas).Some? ==>
              SettlementReceipt(r, now, i) == Result.Err(SettlementCheck(i, r.effects, r.usageDeltas).value)
  {
    hide SettlementCheck, UsageTotal, ReleasedUsage;
  }

  // ---- The in-memory run store --------------------------------------------

  function EventAt(op: Op, id: string, r: Reservation): Option<Event> {
    match op
    case DoCommit(now, target, receipt) => if target == id then Some(CommitAsked(now, receipt)) else None
    case DoAbort(target) => if target == id then Some(AbortAsked) else None
    case DoRecover(now, only) => if only.None? || only.value == r.runId then Some(Overlooked(now)) else None
    case DoReconcile(now, target, verdict, receipt) => if target == id then Some(Reconciled(now, verdict, receipt)) else None
    case DoSettle(now, i) => if i.reservationId == id then Some(Settles(now, i)) else None
    case DoRenew(now, target, extendsTo) => if target == id then Some(Renews(now, extendsTo)) else None
    case _ => None
  }

  function FateAt(op: Op, id: string, r: Reservation): Fate {
    var e := EventAt(op, id, r);
    if e.Some? then FateOf(r, e.value) else Stays
  }

  lemma SettleFate(l: Ledger, now: int, i: Instruction)
    requires i.reservationId in l.reservations
    requires var r := l.reservations[i.reservationId]; SettledBy(r, i.settlementId) ==> Closed(r)
    ensures var id := i.reservationId;
            Settle(l, now, i).0.reservations == l.reservations[id := Fated(l.reservations[id], FateOf(l.reservations[id], Settles(now, i)))]
  {
    hide SettlementReceipt, CommitTotals, AbortTotals;
    var r := l.reservations[i.reservationId];
    ExpiryKeepsReceipt(r, now, i);
  }

  lemma ExpiryKeepsReceipt(r: Reservation, now: int, i: Instruction)
    ensures SettlementReceipt(Expired(r, now), now, i) == SettlementReceipt(r, now, i)
  {
    hide SettlementCheck, UsageTotal, UsageReleased;
  }

  /** No open reservation has a settled receipt. */
  predicate OpenUnsettled(r: Reservation) { !Closed(r) ==> r.receipt.None? }

  lemma ReconcileFate(l: Ledger, op: Op, id: string)
    requires id in l.reservations && op.DoReconcile?
    ensures id in Apply(l, op).reservations
    ensures Apply(l, op).reservations[id] == Fated(l.reservations[id], FateAt(op, id, l.reservations[id]))
  {
    hide Settle, Commit, Abort, Recover, Renew, Reserve, UseNonce, OpenRun, SettlementReceipt, CommitTotals, AbortTotals, PutTotals;
  }

  lemma SimpleFate(l: Ledger, op: Op, id: string)
    requires Proper(l, op) && id in l.reservations && !op.DoSettle? && !op.DoReconcile?
    ensures id in Apply(l, op).reservations
    ensures Apply(l, op).reservations[id] == Fated(l.reservations[id], FateAt(op, id, l.reservations[id]))
  {
    hide Settle, Reconcile, SettlementReceipt, CommitTotals, AbortTotals, PutTotals;
  }

  /** Every step of the in-memory run store gives every reservation the fate of the table. */
  lemma MemoryFate(l: Ledger, op: Op, id: string)
    requires Proper(l, op) && id in l.reservations && OpenUnsettled(l.reservations[id])
    ensures id in Apply(l, op).reservations
    ensures Apply(l, op).reservations[id] == Fated(l.reservations[id], FateAt(op, id, l.reservations[id]))
  {
    if op.DoSettle? {
      hide SettlementReceipt, FateOf;
      if op.instruction.reservationId == id { SettleFate(l, op.now, op.instruction); } else { SettlesOne(l, op.now, op.instruction, id); }
    } else {
      hide Apply, Fated, FateAt;
      if op.DoReconcile? { ReconcileFate(l, op, id); } else { SimpleFate(l, op, id); }
    }
  }

  lemma SettlesOne(l: Ledger, now: int, i: Instruction, id: string)
    requires id in l.reservations && id != i.reservationId
    ensures id in Settle(l, now, i).0.reservations && Settle(l, now, i).0.reservations[id] == l.reservations[id]
  {
    hide SettlementReceipt, CommitTotals, AbortTotals, PutTotals;
  }

  /** A settlement of this id closed the reservation before. */
  predicate SettledUnder(receipt: Option<Receipt>, settlementId: string) {
    receipt.Some? && receipt.value.settled.Some? && receipt.value.settled.value.settlementId == settlementId
  }

  /** What commit, abort, reconcile and renew answer: no error when they did what was asked, else why not. */
  lemma MemoryAnswers(l: Ledger, id: string, now: int, receipt: Receipt, verdict: Verdict, given: Option<Receipt>, extendsTo: int)
    ensures if id !in l.reservations then
              && Commit(l, now, id, receipt) == (l, Some(NotFound)) && Abort(l, id) == (l, Some(NotFound))
              && Reconcile(l, now, id, verdict, given) == (l, Some(NotFound)) && Renew(l, now, id, extendsTo) == (l, Some(NotFound))
            else
              var r := l.reservations[id];
              && Commit(l, now, id, receipt).1
                   == (match FateOf(r, CommitAsked(now, receipt)) case Commits(_) => None case Expires => Some(ReservationExpired) case _ => Some(WrongStatus))
              && Abort(l, id).1.None?
              && Reconcile(l, now, id, verdict, given).1 == (if FateOf(r, Reconciled(now, verdict, given)).Stays? then Some(WrongStatus) else None)
              && Renew(l, now, id, extendsTo).1
                   == (match FateOf(r, Renews(now, extendsTo))
                       case Extends(_) => None
                       case Expires => Some(ReservationExpired)
                       case _ => if r.status.Reserved? then Some(BadRenewal) else Some(WrongStatus))
  {
    hide CloseCommitted, CloseAborted;
  }

  /** What a settlement answers: the first receipt again, that it is closed, why it is refused, or the new receipt. */
  lemma MemorySettles(l: Ledger, now: int, i: Instruction)
    ensures if i.reservationId !in l.reservations then Settle(l, now, i) == (l, Result.Err(NotFound))
            else
              var r := l.reservations[i.reservationId];
              if SettledUnder(r.receipt, i.settlementId) then Settle(l, now, i) == (l, Result.Ok(r.receipt.value))
              else if Closed(r) then Settle(l, now, i) == (l, Result.Err(AlreadySettled))
              else if SettlementReceipt(r, now, i).Err? then Settle(l, now, i).1 == Result.Err(Invalid(SettlementReceipt(r, now, i).error))
              else Settle(l, now, i).1 == Result.Ok(SettlementReceipt(r, now, i).value)
  {
    if i.reservationId in l.reservations { ExpiryKeepsReceipt(l.reservations[i.reservationId], now, i); }
    hide SettlementReceipt, CloseCommitted, CloseAborted;
  }

  // ---- The database -------------------------------------------------------

  function SqlEventAt(op: SqlOp, id: string, row: ReservationRow): Option<Event> {
    match op
    case SqlDoCommit(now, target, receipt) => if target == id then Some(CommitAsked(now, receipt)) else None
    case SqlDoAbort(target) => if target == id then Some(AbortAsked) else None
    case SqlDoAbortStep(target) => if target == id then Some(AbortAsked) else None
    case SqlDoExpire(now, only) => if only.None? || only.value == row.runId then Some(Overlooked(now)) else None
    case SqlDoReconcile(now, target, verdict, receipt) => if target == id then Some(Reconciled(now, verdict, receipt)) else None
    case SqlDoSettleRun(now, i) => if i.reservationId == id then Some(Settles(now, i)) else None
    case SqlDoSettleGrant(now, i) => if i.reservationId == id then Some(Settles(now, i)) else None
    case SqlDoRenew(now, target, extendsTo) => if target == id then Some(Renews(now, extendsTo)) else None
    case _ => None
  }

  /** A renewal or a settlement that throws takes back the expiry it found. */
  function WithRollback(e: Event, f: Fate): Fate { if f.Expires? && (e.Renews? || e.Settles?) then Stays else f }

  /** The row as the reservation its kind makes of it: a grant has its one delta and no effects. */
  function AsReservation(row: ReservationRow): Reservation {
    match row.record
    case RunRecord(effects, deltas) => Reservation(row.runId, "", "", effects, deltas, row.expiresAt, row.status, row.receipt)
    case GrantRecord(_, mandateId, _, delta) =>
      Reservation(row.runId, "", "", None, Some([MandateUsage(mandateId, delta)]), row.expiresAt, row.status, row.receipt)
  }

  function SqlFateAt(op: SqlOp, id: string, row: ReservationRow): Fate {
    var e := SqlEventAt(op, id, row);
    if e.Some? then WithRollback(e.value, FateOf(AsReservation(row), e.value)) else Stays
  }

  predicate OpenBare(row: ReservationRow) { row.status.Reserved? || row.status.Unknown? ==> row.receipt.None? }

  /** The settlement of the right kind for the row. */
  predicate RightKind(t: Tables, op: SqlOp) {
    && (op.SqlDoSettleRun? && op.instruction.reservationId in t.reservations ==>
          t.reservations[op.instruction.reservationId].record.RunRecord?)
    && (op.SqlDoSettleGrant? && op.instruction.reservationId in t.reservations ==>
          t.reservations[op.instruction.reservationId].record.GrantRecord?)
  }

  /** Only status, expiry and receipt of a row ever change. */
  predicate SameRow(a: ReservationRow, b: ReservationRow) { a.runId == b.runId && a.reservedAt == b.reservedAt && a.record == b.record }

  lemma ReconcileRowFate(t: Tables, op: SqlOp, id: string)
    requires id in t.reservations && OpenBare(t.reservations[id]) && op.SqlDoReconcile?
    ensures id in SqlApply(t, op).reservations && SameRow(t.reservations[id], SqlApply(t, op).reservations[id])
    ensures AsReservation(SqlApply(t, op).reservations[id]) == Fated(AsReservation(t.reservations[id]), SqlFateAt(op, id, t.reservations[id]))
  {
    hide SqlSettleRun, SqlSettleGrant, SqlCommit, SqlAbort, SqlAbortStep, SqlExpire, SqlRenew, SqlReserve, SqlAuthorize;
    hide SettlementReceipt, WithStatus, Rows;
  }

  lemma SimpleDatabaseFate(t: Tables, op: SqlOp, id: string)
    requires id in t.reservations && OpenBare(t.reservations[id])
    requires !op.SqlDoSettleRun? && !op.SqlDoSettleGrant? && !op.SqlDoAuthorize? && !op.SqlDoReconcile?
    ensures id in SqlApply(t, op).reservations && SameRow(t.reservations[id], SqlApply(t, op).reservations[id])
    ensures AsReservation(SqlApply(t, op).reservations[id]) == Fated(AsReservation(t.reservations[id]), SqlFateAt(op, id, t.reservations[id]))
  {
    hide SqlSettleRun, SqlSettleGrant, SqlReconcile, SettlementReceipt, WithStatus, Rows, AddRows, SqlAuthorize;
  }

  lemma AuthorizeFate(t: Tables, a: Ask, id: string)
    requires id in t.reservations
    ensures id in SqlAuthorize(t, a).0.reservations && SqlAuthorize(t, a).0.reservations[id] == t.reservations[id]
  {
    hide SqlLimitError, Rows, AddRows;
  }

  lemma SettleRunFate(t: Tables, now: int, i: Instruction, id: string)
    requires id in t.reservations && OpenBare(t.reservations[id])
    requires i.reservationId in t.reservations ==> t.reservations[i.reservationId].record.RunRecord?
    ensures var after := SqlSettleRun(t, now, i).0;
            && id in after.reservations && SameRow(t.reservations[id], after.reservations[id])
            && AsReservation(after.reservations[id])
                 == Fated(AsReservation(t.reservations[id]), SqlFateAt(SqlDoSettleRun(now, i), id, t.reservations[id]))
  {
    hide SettlementReceipt, WithStatus, Rows, SettledRows;
    if id == i.reservationId { SameReceipt(t.reservations[id], now, i); }
  }

  lemma SameReceipt(row: ReservationRow, now: int, i: Instruction)
    requires row.record.RunRecord?
    ensures SettlementReceipt(AsRun(row), now, i) == SettlementReceipt(AsReservation(row), now, i)
  {
    hide SettlementCheck, UsageTotal, UsageReleased;
  }

  /** A grant is settled as a reservation of its one delta would be, on a receipt without effects. */
  lemma GrantAsReservation(row: ReservationRow, now: int, i: Instruction)
    requires row.record.GrantRecord?
    ensures var g, r := SettledGrant(AsGrant(row), now, i), SettlementReceipt(AsReservation(row), now, i);
            && (g.Ok? <==> r.Ok?) && (g.Err? ==> r == Result.Err(g.error))
            && (g.Ok? ==> && g.value.receipt.value.settled == r.value.settled && r.value.committedAt == now && g.value.mandateId == row.record.mandateId
                          && g.value.status == (if i.disposition.ReleaseNonexecution? then Status.Aborted else Status.Committed))
  {
    hide SettlementCheck, UsageTotal, UsageReleased;
  }

  lemma SettleGrantFate(t: Tables, now: int, i: Instruction, id: string)
    requires id in t.reservations && OpenBare(t.reservations[id])
    requires i.reservationId in t.reservations ==> t.reservations[i.reservationId].record.GrantRecord?
    ensures var after := SqlSettleGrant(t, now, i).0;
            && id in after.reservations && SameRow(t.reservations[id], after.reservations[id])
            && Trimmed(AsReservation(after.reservations[id]))
                 == Trimmed(Fated(AsReservation(t.reservations[id]), SqlFateAt(SqlDoSettleGrant(now, i), id, t.reservations[id])))
  {
    hide SettlementReceipt, SettledGrant, WithStatus, Rows, Charged;
    if id == i.reservationId { GrantAsReservation(t.reservations[id], now, i); }
  }

  /** Without the effects of the receipt, which the receipt of a settled grant does not have. */
  function Trimmed(r: Reservation): Reservation {
    if r.receipt.Some? then r.(receipt := Some(r.receipt.value.(effects := None))) else r
  }

  /**
   * Every transaction gives every reservation row the fate of the table, but that a renewal or a
   * settlement that throws takes the expiry back.
   */
  lemma DatabaseFate(t: Tables, op: SqlOp, id: string)
    requires RightKind(t, op) && id in t.reservations && OpenBare(t.reservations[id])
    ensures id in SqlApply(t, op).reservations && SameRow(t.reservations[id], SqlApply(t, op).reservations[id])
    ensures var after := AsReservation(SqlApply(t, op).reservations[id]);
            var fated := Fated(AsReservation(t.reservations[id]), SqlFateAt(op, id, t.reservations[id]));
            if op.SqlDoSettleGrant? then Trimmed(after) == Trimmed(fated) else after == fated
  {
    hide SqlAuthorize, SqlSettleRun, SqlSettleGrant, SqlReserve, SqlCommit, SqlAbort, SqlAbortStep, SqlExpire, SqlReconcile, SqlRenew;
    hide FateOf, Trimmed, SettlementReceipt;
    if op.SqlDoAuthorize? { AuthorizeFate(t, op.ask, id); }
    else if op.SqlDoSettleRun? { SettleRunFate(t, op.now, op.instruction, id); }
    else if op.SqlDoSettleGrant? { SettleGrantFate(t, op.now, op.instruction, id); }
    else if op.SqlDoReconcile? { ReconcileRowFate(t, op, id); }
    else { SimpleDatabaseFate(t, op, id); }
  }

  /** What the transactions answer; one that throws leaves the tables as they were, but for the expiry a commit finds. */
  lemma DatabaseAnswers(t: Tables, id: string, now: int, receipt: Receipt, verdict: Verdict, given: Option<Receipt>, extendsTo: int)
    ensures if id !in t.reservations then
              && SqlCommit(t, now, id, receipt) == (t, Some(NoRow)) && SqlAbort(t, id) == (t, Some(NoRow)) && SqlAbortStep(t, id) == (t, Some(NoRow))
              && SqlReconcile(t, now, id, verdict, given) == (t, Some(NoRow)) && SqlRenew(t, now, id, extendsTo) == (t, Some(NoRow))
            else
              var r := AsReservation(t.reservations[id]);
              && SqlCommit(t, now, id, receipt).1
                   == (match FateOf(r, CommitAsked(now, receipt)) case Commits(_) => None case Expires => Some(RowExpired) case _ => Some(RowNotReserved))
              && SqlAbort(t, id).1 == (if r.status.Reserved? then None else Some(RowNotReserved)) && SqlAbortStep(t, id).1.None?
              && SqlReconcile(t, now, id, verdict, given).1 == (if FateOf(r, Reconciled(now, verdict, given)).Stays? then Some(RowNotReserved) else None)
              && SqlRenew(t, now, id, extendsTo).1
                   == (match FateOf(r, Renews(now, extendsTo))
                       case Extends(_) => None
                       case Expires => Some(RowExpired)
                       case _ => if r.status.Reserved? then Some(RowRenewalTooShort) else Some(RowNotReserved))
              && (SqlReconcile(t, now, id, verdict, given).1.Some? ==> SqlReconcile(t, now, id, verdict, given).0 == t)
              && (SqlRenew(t, now, id, extendsTo).1.Some? ==> SqlRenew(t, now, id, extendsTo).0 == t)
  {
    hide WithStatus, Rows;
  }

  lemma DatabaseSettlesRun(t: Tables, now: int, i: Instruction)
    requires i.reservationId in t.reservations ==> t.reservations[i.reservationId].record.RunRecord?
    ensures var (after, r) := SqlSettleRun(t, now, i);
            if i.reservationId !in t.reservations then (after, r) == (t, Result.Err(NoRow))
            else
              var row := t.reservations[i.reservationId];
              var receipt := SettlementReceipt(AsReservation(row), now, i);
              if SettledUnder(row.receipt, i.settlementId) then (after, r) == (t, Result.Ok(row.receipt.value))
              else if Closed(AsReservation(row)) then (after, r) == (t, Result.Err(RowClosed))
              else if receipt.Err? then (after, r) == (t, Result.Err(Declined(receipt.error)))
              else r == Result.Ok(receipt.value)
  {
    if i.reservationId in t.reservations { SameReceipt(t.reservations[i.reservationId], now, i); }
    hide SettlementReceipt, WithStatus, Rows, SettledRows;
  }

  lemma DatabaseSettlesGrant(t: Tables, now: int, i: Instruction)
    requires i.reservationId in t.reservations ==> t.reservations[i.reservationId].record.GrantRecord?
    ensures var (after, r) := SqlSettleGrant(t, now, i);
            if i.reservationId !in t.reservations then (after, r) == (t, Result.Err(NoRow))
            else
              var row := t.reservations[i.reservationId];
              var receipt := SettlementReceipt(AsReservation(row), now, i);
              if SettledUnder(row.receipt, i.settlementId) then (after, r) == (t, Result.Ok(row.receipt.value))
              else if Closed(AsReservation(row)) then (after, r) == (t, Result.Err(RowClosed))
              else if receipt.Err? then (after, r) == (t, Result.Err(Declined(receipt.error)))
              else r == Result.Ok(receipt.value.(effects := None))
  {
    if i.reservationId in t.reservations { GrantAsReservation(t.reservations[i.reservationId], now, i); }
    hide SettlementReceipt, SettledGrant, WithStatus, Rows, Charged;
  }

  /** A settle-actual sets the charge of a reserved mandate to the last usage measured for it, or to nothing. */
  lemma SettledUsage(t: Tables, now: int, i: Instruction, mandateId: string, j: nat)
    requires i.reservationId in t.reservations && !Closed(AsReservation(t.reservations[i.reservationId]))
    requires t.reservations[i.reservationId].receipt.None? && i.disposition.SettleActual? && SqlSettleRun(t, now, i).1.Ok?
    requires i.actual.Some? && i.reservationId in t.usage && mandateId in t.usage[i.reservationId]
    requires var us := i.actual.value.mandateUsage;
             if j < |us| then us[j].mandateId == mandateId && forall k | j < k < |us| :: us[k].mandateId != mandateId
             else forall k | 0 <= k < |us| :: us[k].mandateId != mandateId
    ensures var after, us := SqlSettleRun(t, now, i).0, i.actual.value.mandateUsage;
            && i.reservationId in after.usage && mandateId in after.usage[i.reservationId]
            && after.usage[i.reservationId][mandateId] == UsageRow(if j < |us| then us[j].delta else Usage(0, None), Status.Committed)
  {
    LastReserved(i.actual.value.mandateUsage, mandateId, j);
    hide SettlementReceipt, ReservedFor;
  }

  lemma {:induction false} LastReserved(us: seq<MandateUsage>, mandateId: string, j: nat)
    requires if j < |us| then us[j].mandateId == mandateId && forall k | j < k < |us| :: us[k].mandateId != mandateId
             else forall k | 0 <= k < |us| :: us[k].mandateId != mandateId
    ensures ReservedFor(us, mandateId) == if j < |us| then Some(us[j].delta) else None
  {
    if us != [] && j != |us| - 1 { LastReserved(us[..|us| - 1], mandateId, j); }
  }

  // ---- The grant store ----------------------------------------------------

  /** A receipt of the grant store, as one of the run store without effects. */
  function PlainReceipt(receipt: Option<GrantReceipt>): Option<Receipt> {
    if receipt.Some? then Some(Receipt(receipt.value.committedAt, None, receipt.value.settled)) else None
  }

  function OfGrant(g: Grant): Reservation {
    Reservation(g.runId, g.stepId, g.actionDigest, None, Some([MandateUsage(g.mandateId, g.delta)]), g.expiresAt, g.status, PlainReceipt(g.receipt))
  }

  function GrantEventAt(op: GrantOp, id: string): Option<Event> {
    match op
    case DoAsk(a) => Some(Overlooked(a.now))
    case DoClean(now) => Some(Overlooked(now))
    case DoCommitGrant(now, target, receipt) => if target == id then Some(CommitAsked(now, PlainReceipt(Some(receipt)).value)) else None
    case DoAbortGrant(target) => if target == id then Some(AbortAsked) else None
    case DoReconcileGrant(now, target, verdict, receipt) => if target == id then Some(Reconciled(now, verdict, PlainReceipt(receipt))) else None
    case DoSettleGrant(now, i) => if i.reservationId == id then Some(Settles(now, i)) else None
    case DoRenewGrant(now, target, extendsTo) => if target == id then Some(Renews(now, extendsTo)) else None
  }

  function GrantFateAt(op: GrantOp, id: string, g: Grant): Fate {
    var e := GrantEventAt(op, id);
    if e.Some? then FateOf(OfGrant(g), e.value) else Stays
  }

  predicate SameGrant(a: Grant, b: Grant) {
    a.runId == b.runId && a.stepId == b.stepId && a.mandateId == b.mandateId && a.actionDigest == b.actionDigest
    && a.delta == b.delta && a.reservedAt == b.reservedAt
  }

  /** What a grant is charged once it is committed: what was reserved, or what a settlement measured. */
  predicate ChargedWell(op: GrantOp, before: Grant, after: Grant) {
    if op.DoSettleGrant? && op.instruction.disposition.SettleActual? then
      op.instruction.actual.Some? && after.actual.Some? && UsageTotal(op.instruction.actual.value.mandateUsage) == Result.Ok(after.actual.value)
    else after.actual == Some(before.delta)
  }

  predicate OpenUnsettledGrant(g: Grant) { g.status.Reserved? || g.status.Unknown? ==> g.receipt.None? }

  /** The request does not take over the id of a grant that is not live. */
  ghost predicate TakesOver(grants: Grants, op: GrantOp, id: string) {
    op.DoAsk? && GrantId(op.ask) == id && id in grants && !InTime(OfGrant(grants[id]), op.ask.now)
  }

  lemma ReconcileGrantFate(grants: Grants, op: GrantOp, id: string)
    requires id in grants && OpenUnsettledGrant(grants[id]) && op.DoReconcileGrant?
    ensures id in Act(grants, op) && SameGrant(grants[id], Act(grants, op)[id])
    ensures OfGrant(Act(grants, op)[id]) == Fated(OfGrant(grants[id]), GrantFateAt(op, id, grants[id]))
    ensures GrantFateAt(op, id, grants[id]).Commits? ==> ChargedWell(op, grants[id], Act(grants, op)[id])
  {
    hide SettleGrant, ReserveGrant, CommitGrant, AbortGrant, RenewGrant, CleanExpired, UsageTotal, SettlementReceipt;
  }

  lemma AskFate(grants: Grants, op: GrantOp, id: string)
    requires id in grants && op.DoAsk? && !TakesOver(grants, op, id)
    ensures id in Act(grants, op) && SameGrant(grants[id], Act(grants, op)[id])
    ensures OfGrant(Act(grants, op)[id]) == Fated(OfGrant(grants[id]), GrantFateAt(op, id, grants[id]))
    ensures !GrantFateAt(op, id, grants[id]).Commits?
  {
    hide SettleGrant, ReconcileGrant, CommitGrant, AbortGrant, RenewGrant, LimitError, UsageTotal, SettlementReceipt, GrantId;
  }

  lemma SimpleGrantFate(grants: Grants, op: GrantOp, id: string)
    requires id in grants && OpenUnsettledGrant(grants[id]) && !op.DoSettleGrant? && !op.DoReconcileGrant? && !op.DoAsk?
    ensures id in Act(grants, op) && SameGrant(grants[id], Act(grants, op)[id])
    ensures OfGrant(Act(grants, op)[id]) == Fated(OfGrant(grants[id]), GrantFateAt(op, id, grants[id]))
    ensures GrantFateAt(op, id, grants[id]).Commits? ==> ChargedWell(op, grants[id], Act(grants, op)[id])
  {
    hide SettleGrant, ReconcileGrant, ReserveGrant, UsageTotal, SettlementReceipt;
  }

  lemma GrantReceiptAgrees(g: Grant, now: int, i: Instruction)
    ensures var s, r := SettledGrant(g, now, i), SettlementReceipt(OfGrant(g), now, i);
            && (s.Ok? <==> r.Ok?)
            && (s.Ok? ==>
                  && SameGrant(g, s.value) && s.value.expiresAt == g.expiresAt
                  && PlainReceipt(s.value.receipt) == Some(r.value.(effects := None))
                  && s.value.status == (if i.disposition.ReleaseNonexecution? then Status.Aborted else Status.Committed)
                  && (s.value.status.Committed? ==> ChargedWell(DoSettleGrant(now, i), g, s.value)))
  {
    hide SettlementCheck, UsageTotal, UsageReleased;
    if i.disposition.SettleActual? && SettlementCheck(i, None, Some([MandateUsage(g.mandateId, g.delta)])) == None {
      ActualIsThere(i, None, Some([MandateUsage(g.mandateId, g.delta)]));
    }
  }

  lemma LapsedReceipt(g: Grant, now: int, i: Instruction)
    ensures SettlementReceipt(OfGrant(Lapsed(g, now)), now, i) == SettlementReceipt(OfGrant(g), now, i)
  {
    hide SettlementCheck, UsageTotal, UsageReleased;
  }

  lemma SettledGrantFate(grants: Grants, now: int, i: Instruction, id: string)
    requires id in grants && OpenUnsettledGrant(grants[id])
    ensures var op, after := DoSettleGrant(now, i), SettleGrant(grants, now, i).0;
            && id in after && SameGrant(grants[id], after[id])
            && Trimmed(OfGrant(after[id])) == Trimmed(Fated(OfGrant(grants[id]), GrantFateAt(op, id, grants[id])))
            && (GrantFateAt(op, id, grants[id]).Commits? ==> ChargedWell(op, grants[id], after[id]))
  {
    hide SettledGrant, SettlementReceipt, UsageTotal;
    if id == i.reservationId {
      GrantReceiptAgrees(Lapsed(grants[id], now), now, i);
      LapsedReceipt(grants[id], now, i);
    }
  }

  /** Every operation of the grant store gives every grant the fate of the table, and a committed one its charge. */
  lemma GrantFate(grants: Grants, op: GrantOp, id: string)
    requires id in grants && OpenUnsettledGrant(grants[id]) && !TakesOver(grants, op, id)
    ensures id in Act(grants, op) && SameGrant(grants[id], Act(grants, op)[id])
    ensures Trimmed(OfGrant(Act(grants, op)[id])) == Trimmed(Fated(OfGrant(grants[id]), GrantFateAt(op, id, grants[id])))
    ensures GrantFateAt(op, id, grants[id]).Commits? ==> ChargedWell(op, grants[id], Act(grants, op)[id])
  {
    hide FateOf, Trimmed, ReserveGrant, CommitGrant, AbortGrant, ReconcileGrant, RenewGrant, CleanExpired, SettleGrant, ChargedWell;
    if op.DoSettleGrant? { SettledGrantFate(grants, op.now, op.instruction, id); }
    else if op.DoAsk? { AskFate(grants, op, id); }
    else if op.DoReconcileGrant? { ReconcileGrantFate(grants, op, id); }
    else { SimpleGrantFate(grants, op, id); }
  }

  /** What the operations of the grant store answer. */
  lemma GrantAnswers(grants: Grants, id: string, now: int, receipt: GrantReceipt, verdict: Verdict, given: Option<GrantReceipt>, extendsTo: int)
    ensures if id !in grants then
              && CommitGrant(grants, now, id, receipt) == (grants, Some(NoSuchGrant)) && AbortGrant(grants, id) == (grants, Some(NoSuchGrant))
              && ReconcileGrant(grants, now, id, verdict, given) == (grants, Some(NoSuchGrant)) && RenewGrant(grants, now, id, extendsTo) == (grants, Some(NoSuchGrant))
            else
              var r := OfGrant(grants[id]);
              && CommitGrant(grants, now, id, receipt).1
                   == (match FateOf(r, CommitAsked(now, PlainReceipt(Some(receipt)).value))
                       case Commits(_) => None case Expires => Some(GrantExpired) case _ => Some(GrantNotReserved))
              && AbortGrant(grants, id).1 == (if r.status.Reserved? then None else Some(GrantNotReserved))
              && ReconcileGrant(grants, now, id, verdict, given).1
                   == (if FateOf(r, Reconciled(now, verdict, PlainReceipt(given))).Stays? then Some(GrantNotReserved) else None)
              && RenewGrant(grants, now, id, extendsTo).1
                   == (match FateOf(r, Renews(now, extendsTo))
                       case Extends(_) => None
                       case Expires => Some(GrantExpired)
                       case _ => if r.status.Reserved? then Some(RenewalTooShort) else Some(GrantNotReserved))
  {}

  lemma GrantSettles(grants: Grants, now: int, i: Instruction)
    ensures var (after, r) := SettleGrant(grants, now, i);
            if i.reservationId !in grants then (after, r) == (grants, Result.Err(NoSuchGrant))
            else
              var g := grants[i.reservationId];
              var receipt := SettlementReceipt(OfGrant(g), now, i);
              if SettledUnder(PlainReceipt(g.receipt), i.settlementId) then (after, r) == (grants, Result.Ok(g.receipt.value))
              else if Closed(OfGrant(g)) then (after, r) == (grants, Result.Err(GrantClosed))
              else if receipt.Err? then r == Result.Err(Refused(receipt.error))
              else r.Ok? && i.reservationId in after && after[i.reservationId].receipt == Some(r.value)
  {
    if i.reservationId in grants {
      var g := grants[i.reservationId];
      GrantReceiptAgrees(Lapsed(g, now), now, i);
      LapsedReceipt(g, now, i);
      GrantErrorAgrees(Lapsed(g, now), now, i);
    }
    hide SettledGrant, SettlementReceipt;
  }

  lemma GrantErrorAgrees(g: Grant, now: int, i: Instruction)
    ensures SettledGrant(g, now, i).Err? ==> SettlementReceipt(OfGrant(g), now, i) == Result.Err(SettledGrant(g, now, i).error)
  {
    hide SettlementCheck, UsageTotal, UsageReleased;
  }

  // ---- The two run stores in step -----------------------------------------

  /** The tables hold the reservations of the ledger, all of run kind. */
  ghost predicate Mirrors(l: Ledger, t: Tables) {
    && t.reservations.Keys == l.reservations.Keys
    && forall id | id in l.reservations :: RowMirrors(l.reservations[id], t.reservations[id])
  }

  predicate RowMirrors(r: Reservation, row: ReservationRow) {
    && row.record.RunRecord? && AsReservation(row) == r.(stepId := "", actionDigest := "") && OpenBare(row)
  }

  /** The transaction for an operation of the run store; opening runs and nonces are not in the two tables. */
  function TransactionOf(op: Op, reservedAt: int): Option<SqlOp> {
    match op
    case DoReserve(id, r) => Some(SqlDoReserve(id, r, reservedAt))
    case DoCommit(now, id, receipt) => Some(SqlDoCommit(now, id, receipt))
    case DoAbort(id) => Some(SqlDoAbortStep(id))
    case DoRecover(now, only) => Some(SqlDoExpire(now, only))
    case DoReconcile(now, id, verdict, receipt) => Some(SqlDoReconcile(now, id, verdict, receipt))
    case DoSettle(now, i) => Some(SqlDoSettleRun(now, i))
    case DoRenew(now, id, extendsTo) => Some(SqlDoRenew(now, id, extendsTo))
    case _ => None
  }

  ghost function Transacted(t: Tables, op: Op, reservedAt: int): Tables {
    var tx := TransactionOf(op, reservedAt);
    if tx.Some? then SqlApply(t, tx.value) else t
  }

  /** A renewal, or a settlement that is refused, finds its reservation overdue. */
  predicate Parts(l: Ledger, op: Op) {
    match op
    case DoRenew(now, id, _) => id in l.reservations && Late(l.reservations[id], now)
    case DoSettle(now, i) =>
      i.reservationId in l.reservations && Late(l.reservations[i.reservationId], now)
      && SettlementReceipt(l.reservations[i.reservationId], now, i).Err?
    case _ => false
  }

  lemma FateOfMirror(r: Reservation, e: Event)
    ensures FateOf(r.(stepId := "", actionDigest := ""), e) == FateOf(r, e)
  {
    if e.Settles? { NamesDoNotMatter(r, e.now, e.instruction); }
    hide SettlementReceipt;
  }

  lemma NamesDoNotMatter(r: Reservation, now: int, i: Instruction)
    ensures SettlementReceipt(r.(stepId := "", actionDigest := ""), now, i) == SettlementReceipt(r, now, i)
  {
    hide SettlementCheck, UsageTotal, UsageReleased;
  }

  /** The table leaves an open reservation without a receipt, when it is left open. */
  lemma FateLeavesBare(r: Reservation, e: Event)
    requires OpenUnsettled(r)
    ensures OpenUnsettled(Fated(r, FateOf(r, e)))
  {
    hide SettlementReceipt;
  }

  /** One reservation that was there before: it is mirrored after the step unless it is where the stores part. */
  lemma RowFollows(l: Ledger, t: Tables, op: Op, reservedAt: int, id: string)
    requires Proper(l, op) && Mirrors(l, t) && id in l.reservations && TransactionOf(op, reservedAt).Some?
    ensures id in Apply(l, op).reservations && id in Transacted(t, op, reservedAt).reservations
    ensures RowMirrors(Apply(l, op).reservations[id], Transacted(t, op, reservedAt).reservations[id]) <==> !PartsAt(l, op, id)
  {
    var r, row, tx := l.reservations[id], t.reservations[id], TransactionOf(op, reservedAt).value;
    assert RowMirrors(r, row);
    MirrorsRight(l, t, op, reservedAt);
    MemoryFate(l, op, id);
    DatabaseFate(t, tx, id);
    FatesCorrespond(r, row, op, reservedAt, id);
    hide Apply, SqlApply, FateAt, SqlFateAt, Mirrors, Proper, RightKind, Fated, AsReservation, RowMirrors, SameRow, OpenUnsettled;
    FollowsByFate(r, row, Transacted(t, op, reservedAt).reservations[id], FateAt(op, id, r), SqlFateAt(tx, id, row));
  }

  /** The two tables give one fate, but for the expiry that is taken back. */
  lemma FatesCorrespond(r: Reservation, row: ReservationRow, op: Op, reservedAt: int, id: string)
    requires RowMirrors(r, row) && TransactionOf(op, reservedAt).Some?
    ensures var f := FateAt(op, id, r);
            && SqlFateAt(TransactionOf(op, reservedAt).value, id, row) == (if f.Expires? && (op.DoRenew? || op.DoSettle?) then Stays else f)
            && (f.Expires? ==> r.status.Reserved?) && OpenUnsettled(Fated(r, f))
  {
    var e := EventAt(op, id, r);
    assert SqlEventAt(TransactionOf(op, reservedAt).value, id, row) == e;
    if e.Some? {
      FateOfMirror(r, e.value);
      FateLeavesBare(r, e.value);
      ExpiryIsReserved(r, e.value);
    }
    hide FateOf, Fated;
  }

  lemma ExpiryIsReserved(r: Reservation, e: Event)
    ensures FateOf(r, e).Expires? ==> r.status.Reserved?
  {
    hide SettlementReceipt;
  }

  lemma FollowsByFate(r: Reservation, row: ReservationRow, next: ReservationRow, f: Fate, g: Fate)
    requires RowMirrors(r, row) && SameRow(row, next) && AsReservation(next) == Fated(AsReservation(row), g)
    requires g == f || (f.Expires? && g.Stays? && r.status.Reserved?)
    requires OpenUnsettled(Fated(r, f))
    ensures RowMirrors(Fated(r, f), next) <==> g == f
  {}

  lemma MirrorsRight(l: Ledger, t: Tables, op: Op, reservedAt: int)
    requires Mirrors(l, t) && TransactionOf(op, reservedAt).Some?
    ensures RightKind(t, TransactionOf(op, reservedAt).value)
  {
    if op.DoSettle? && op.instruction.reservationId in t.reservations {
      assert RowMirrors(l.reservations[op.instruction.reservationId], t.reservations[op.instruction.reservationId]);
    }
  }

  /** Which reservations there are after a step. */
  lemma StepKeys(l: Ledger, op: Op)
    requires Proper(l, op)
    ensures Apply(l, op).reservations.Keys == l.reservations.Keys + if op.DoReserve? then {op.id} else {}
  {
    hide SettlementReceipt, CommitTotals, AbortTotals, PutTotals, SettledBy;
  }

  lemma TransactionKeys(t: Tables, tx: SqlOp)
    requires !tx.SqlDoAuthorize?
    ensures SqlApply(t, tx).reservations.Keys == t.reservations.Keys + if tx.SqlDoReserve? then {tx.id} else {}
  {
    hide SettlementReceipt, SettledGrant, WithStatus, Rows, AddRows, SettledRows, Charged, SqlAuthorize;
  }

  /** A new reservation is mirrored. */
  lemma NewRowFollows(l: Ledger, t: Tables, op: Op, reservedAt: int)
    requires Proper(l, op) && op.DoReserve? && op.id !in l.reservations && op.id !in t.reservations
    ensures op.id in Apply(l, op).reservations && op.id in Transacted(t, op, reservedAt).reservations
    ensures RowMirrors(Apply(l, op).reservations[op.id], Transacted(t, op, reservedAt).reservations[op.id])
  {
    hide AddRows, Rows, PutTotals;
  }

  lemma NoTransaction(l: Ledger, op: Op, reservedAt: int)
    requires TransactionOf(op, reservedAt).None?
    ensures Apply(l, op).reservations == l.reservations && !Parts(l, op)
  {}

  /** Where the stores part, one reservation expires in a step that takes it back in the database. */
  lemma PartsMeans(l: Ledger, op: Op)
    ensures Parts(l, op) <==> exists id :: PartsAt(l, op, id)
  {
    hide SettlementReceipt;
    if op.DoRenew? && Parts(l, op) { assert PartsAt(l, op, op.id); }
    if op.DoSettle? && Parts(l, op) { assert PartsAt(l, op, op.instruction.reservationId); }
  }

  predicate PartsAt(l: Ledger, op: Op, id: string) {
    id in l.reservations && FateAt(op, id, l.reservations[id]).Expires? && (op.DoRenew? || op.DoSettle?)
  }

  /**
   * One step keeps the database and the in-memory store in step, on every reservation's status,
   * expiry, effects, deltas and receipt, exactly when it is not a renewal or a refused settlement
   * of an overdue reservation: there the database forgets the expiry.
   */
  lemma StepMirrorsExactly(l: Ledger, t: Tables, op: Op, reservedAt: int)
    requires Proper(l, op) && Mirrors(l, t)
    ensures Mirrors(Apply(l, op), Transacted(t, op, reservedAt)) <==> !Parts(l, op)
  {
    if TransactionOf(op, reservedAt).None? {
      NoTransaction(l, op, reservedAt);
    } else {
      SameKeysAfter(l, t, op, reservedAt);
      PartsMeans(l, op);
      hide Apply, SqlApply, FateAt, RowMirrors, Proper, Parts, TransactionOf, Transacted;
      var l', t' := Apply(l, op), Transacted(t, op, reservedAt);
      forall id | id in l.reservations ensures id in l'.reservations && id in t'.reservations
                                            && (RowMirrors(l'.reservations[id], t'.reservations[id]) <==> !PartsAt(l, op, id)) {
        RowFollows(l, t, op, reservedAt, id);
        hide *;
      }
    }
  }

  lemma SameKeysAfter(l: Ledger, t: Tables, op: Op, reservedAt: int)
    requires Proper(l, op) && t.reservations.Keys == l.reservations.Keys && TransactionOf(op, reservedAt).Some?
    ensures Transacted(t, op, reservedAt).reservations.Keys == Apply(l, op).reservations.Keys
    ensures forall id | id in Apply(l, op).reservations && id !in l.reservations ::
              RowMirrors(Apply(l, op).reservations[id], Transacted(t, op, reservedAt).reservations[id])
  {
    StepKeys(l, op);
    TransactionKeys(t, TransactionOf(op, reservedAt).value);
    if op.DoReserve? && op.id !in l.reservations { NewRowFollows(l, t, op, reservedAt); }
    hide Apply, SqlApply, RowMirrors, Proper;
  }

  ghost function TransactedAll(t: Tables, ops: seq<Op>, times: seq<int>): Tables
    requires |times| == |ops|
    decreases |ops|
  {
    if ops == [] then t else TransactedAll(Transacted(t, ops[0], times[0]), ops[1..], times[1..])
  }

  predicate NeverParts(l: Ledger, ops: seq<Op>)
    decreases |ops|
  {
    ops == [] || (!Parts(l, ops[0]) && NeverParts(Apply(l, ops[0]), ops[1..]))
  }

  lemma {:induction false} InStepFrom(l: Ledger, t: Tables, ops: seq<Op>, times: seq<int>)
    requires |times| == |ops| && AllProper(l, ops) && Mirrors(l, t) && NeverParts(l, ops)
    ensures Mirrors(After(l, ops), TransactedAll(t, ops, times))
    decreases |ops|
  {
    hide Apply, Transacted, Mirrors, Proper, Parts;
    if ops != [] {
      StepMirrorsExactly(l, t, ops[0], times[0]);
      InStepFrom(Apply(l, ops[0]), Transacted(t, ops[0], times[0]), ops[1..], times[1..]);
    }
  }

  /**
   * Over every run without such a step the database holds exactly what the in-memory store
   * holds: a refinement of the one by the other, reservation by reservation.
   */
  lemma StoresInStep(ops: seq<Op>, times: seq<int>)
    requires |times| == |ops| && AllProper(EMPTY_LEDGER, ops) && NeverParts(EMPTY_LEDGER, ops)
    ensures Mirrors(After(EMPTY_LEDGER, ops), TransactedAll(Tables(map[], map[]), ops, times))
  {
    hide After, TransactedAll, AllProper, NeverParts;
    InStepFrom(EMPTY_LEDGER, Tables(map[], map[]), ops, times);
  }
}
