/**
 * SqliteRunStateStore: the reservation table and the mandate-usage table. Every operation is
 * one transaction that leaves the tables as they were when it throws. The rows of the
 * compound key (reservation id, mandate id) are kept as one map per reservation id.
 */
module SqlLedger {
  import opened Outcomes
  import opened Digits
  import opened Settlement
  import opened Sums
  import opened RunLedger
  import opened GrantUsage

  /** The parsed record_json; its case is the `kind` column. */
  datatype Record = RunRecord(effects: Option<StepEffects>, deltas: Option<seq<MandateUsage>>)
                  | GrantRecord(stepId: string, mandateId: string, actionDigest: string, delta: Usage)

  datatype ReservationRow = ReservationRow(
    runId: string, status: Status, reservedAt: int, expiresAt: int, record: Record, receipt: Option<Receipt>)

  datatype UsageRow = UsageRow(usage: Usage, status: Status)

  type UsageRows = map<string, UsageRow>

  datatype Tables = Tables(reservations: map<string, ReservationRow>, usage: map<string, UsageRows>)

  datatype SqlError = NoRow | RowNotReserved | RowExpired | RowClosed | RowCollision | RowRenewalTooShort | OverLimit(error: GrantError)
                    | WrongKind | Declined(cause: SettlementError)

  // ---- The statements -----------------------------------------------------

  function Rows(t: Tables, id: string): UsageRows { Coalesce(Lookup(t.usage, id), map[]) }

  /** INSERT OR IGNORE of the reservation row. */
  function InsertReservation(t: Tables, id: string, row: ReservationRow): Tables {
    if id in t.reservations then t else t.(reservations := t.reservations[id := row])
  }

  /** INSERT OR IGNORE of one usage row. */
  function AddRow(rows: UsageRows, mandateId: string, usage: Usage): UsageRows {
    if mandateId in rows then rows else rows[mandateId := UsageRow(usage, Reserved)]
  }

  function AddRows(rows: UsageRows, deltas: seq<MandateUsage>): UsageRows {
    if deltas == [] then rows
    else
      var last := deltas[|deltas| - 1];
      AddRow(AddRows(rows, deltas[..|deltas| - 1]), last.mandateId, last.delta)
  }

  function WithStatus(rows: UsageRows, status: Status): UsageRows {
    map m | m in rows :: rows[m].(status := status)
  }

  /** setReservationStatus and setMandateUsageStatus. */
  function SetStatus(t: Tables, id: string, status: Status, receipt: Option<Receipt>): Tables
    requires id in t.reservations
  {
    Tables(t.reservations[id := t.reservations[id].(status := status, receipt := receipt)],
           t.usage[id := WithStatus(Rows(t, id), status)])
  }

  predicate IsOverdue(row: ReservationRow, now: int) { row.status.Reserved? && now > row.expiresAt }

  // ---- The transactions ---------------------------------------------------

  function SqlReserve(t: Tables, id: string, row: ReservationRow, deltas: seq<MandateUsage>): Tables {
    if id in t.reservations && t.reservations[id].status.Reserved? then t
    else InsertReservation(t, id, row).(usage := t.usage[id := AddRows(Rows(t, id), deltas)])
  }

  function NewRunRow(r: Reservation, reservedAt: int): ReservationRow {
    ReservationRow(r.runId, Reserved, reservedAt, r.expiresAt, RunRecord(r.effects, r.usageDeltas), None)
  }

  function NewGrantRow(a: Ask): ReservationRow {
    ReservationRow(a.runId, Reserved, a.now, a.now + a.ttlMs, GrantRecord(a.stepId, a.mandateId, a.actionDigest, a.delta), None)
  }

  /** commitStep and commit: the expiry is written before the error is thrown. */
  function SqlCommit(t: Tables, now: int, id: string, receipt: Receipt): (Tables, Option<SqlError>) {
    if id !in t.reservations then (t, Some(NoRow))
    else if !t.reservations[id].status.Reserved? then (t, Some(RowNotReserved))
    else if now > t.reservations[id].expiresAt then (SetStatus(t, id, Unknown, None), Some(RowExpired))
    else (SetStatus(t, id, Status.Committed, Some(receipt)), None)
  }

  function SqlAbort(t: Tables, id: string): (Tables, Option<SqlError>) {
    if id !in t.reservations then (t, Some(NoRow))
    else if !t.reservations[id].status.Reserved? then (t, Some(RowNotReserved))
    else (SetStatus(t, id, Status.Aborted, None), None)
  }

  /** abortStep is silent about a row that is not reserved, where abort throws. */
  function SqlAbortStep(t: Tables, id: string): (Tables, Option<SqlError>) {
    var (t', error) := SqlAbort(t, id);
    (t', if error == Some(RowNotReserved) then None else error)
  }

  function ExpiredRow(row: ReservationRow, now: int, runId: Option<string>): ReservationRow {
    if row.status.Reserved? && (runId.None? || row.runId == runId.value) && row.expiresAt < now then row.(status := Unknown) else row
  }

  function ExpiredUsage(u: UsageRow, id: string, reservations: map<string, ReservationRow>): UsageRow {
    if u.status.Reserved? && id in reservations && reservations[id].status.Unknown? then u.(status := Unknown) else u
  }

  /** expireReservations: the second UPDATE reads the result of the first. */
  function SqlExpire(t: Tables, now: int, runId: Option<string>): Tables {
    var reservations := map id | id in t.reservations :: ExpiredRow(t.reservations[id], now, runId);
    Tables(reservations, map id | id in t.usage :: map m | m in t.usage[id] :: ExpiredUsage(t.usage[id][m], id, reservations))
  }

  function SqlReconcile(t: Tables, now: int, id: string, verdict: Verdict, receipt: Option<Receipt>): (Tables, Option<SqlError>) {
    if id !in t.reservations then (t, Some(NoRow))
    else
      var t1 := if IsOverdue(t.reservations[id], now) then SetStatus(t, id, Unknown, None) else t;
      if !t1.reservations[id].status.Unknown? then (t, Some(RowNotReserved))
      else if verdict.DefinitelyNotExecuted? then (SetStatus(t1, id, Status.Aborted, None), None)
      else (SetStatus(t1, id, Status.Committed, Some(Coalesce(receipt, OwnReceipt(t1.reservations[id], now)))), None)
  }

  /** synthesizeReceipt */
  function OwnReceipt(row: ReservationRow, now: int): Receipt {
    Receipt(now, if row.record.RunRecord? then row.record.effects else None, None)
  }

  /** The row read as a run reservation: a grant's record has no effects and no deltas. */
  function AsRun(row: ReservationRow): Reservation {
    Reservation(row.runId, "", "", if row.record.RunRecord? then row.record.effects else None,
                if row.record.RunRecord? then row.record.deltas else None, row.expiresAt, row.status, row.receipt)
  }

  function RowSettledBy(row: ReservationRow, settlementId: string): bool { SettledBy(AsRun(row), settlementId) }

  /** `new Map(usages.map(u => [u.mandateId, u]))` read at one mandate: the last entry, else nothing used. */
  function ActualFor(actual: ActualConsumption, mandateId: string): Usage {
    Coalesce(ReservedFor(actual.mandateUsage, mandateId), Usage(0, None))
  }

  function SettledRows(rows: UsageRows, i: Instruction): UsageRows {
    map m | m in rows ::
      if i.disposition.CommitReserved? then UsageRow(rows[m].usage, Status.Committed)
      else UsageRow(if i.actual.Some? then ActualFor(i.actual.value, m) else Usage(0, None), Status.Committed)
  }

  /** settleReservation */
  function SqlSettleRun(t: Tables, now: int, i: Instruction): (Tables, Result<Receipt, SqlError>) {
    var id := i.reservationId;
    if id !in t.reservations then (t, Err(NoRow))
    else
      var row := t.reservations[id];
      var receipt := SettlementReceipt(AsRun(row), now, i);
      if RowSettledBy(row, i.settlementId) then (t, Ok(row.receipt.value))
      else if row.status.Committed? || row.status.Aborted? then (t, Err(RowClosed))
      else if receipt.Err? then (t, Err(Declined(receipt.error)))
      else if i.disposition.ReleaseNonexecution? then (SetStatus(t, id, Status.Aborted, Some(receipt.value)), Ok(receipt.value))
      else
        (Tables(t.reservations[id := row.(status := Status.Committed, receipt := Some(receipt.value))],
                t.usage[id := SettledRows(Rows(t, id), i)]), Ok(receipt.value))
  }

  /** The row read as the in-memory grant record. */
  function AsGrant(row: ReservationRow): Grant
    requires row.record.GrantRecord?
  {
    var r := row.record;
    Grant(row.runId, r.stepId, r.mandateId, r.actionDigest, r.delta, row.reservedAt, row.expiresAt, row.status, None, None)
  }

  /** settleActual */
  function SqlSettleGrant(t: Tables, now: int, i: Instruction): (Tables, Result<Receipt, SqlError>) {
    var id := i.reservationId;
    if id !in t.reservations then (t, Err(NoRow))
    else
      var row := t.reservations[id];
      if RowSettledBy(row, i.settlementId) then (t, Ok(row.receipt.value))
      else if row.status.Committed? || row.status.Aborted? then (t, Err(RowClosed))
      else if row.record.RunRecord? then (t, Err(WrongKind))
      else
        var settled := SettledGrant(AsGrant(row), now, i);
        if settled.Err? then (t, Err(Declined(settled.error)))
        else
          var g := settled.value;
          var receipt := Receipt(now, None, g.receipt.value.settled);
          if g.status.Aborted? then (SetStatus(t, id, Status.Aborted, Some(receipt)), Ok(receipt))
          else
            var rows := Rows(t, id);
            (Tables(t.reservations[id := row.(status := Status.Committed, receipt := Some(receipt))],
                    t.usage[id := if g.mandateId in rows then rows[g.mandateId := UsageRow(Charged(g), Status.Committed)] else rows]),
             Ok(receipt))
  }

  /** A renewal found overdue throws, which rolls its own expiry back. */
  function SqlRenew(t: Tables, now: int, id: string, extendsTo: int): (Tables, Option<SqlError>) {
    if id !in t.reservations then (t, Some(NoRow))
    else if !t.reservations[id].status.Reserved? then (t, Some(RowNotReserved))
    else if now > t.reservations[id].expiresAt then (t, Some(RowExpired))
    else if extendsTo <= t.reservations[id].expiresAt then (t, Some(RowRenewalTooShort))
    else (t.(reservations := t.reservations[id := t.reservations[id].(expiresAt := extendsTo)]), None)
  }

  // ---- The limit check ----------------------------------------------------

  /** One row of the JOIN. */
  datatype JoinedRow = JoinedRow(usage: Usage, reservedAt: int)

  predicate InJoin(t: Tables, id: string, mandateId: string) {
    && id in t.reservations && id in t.usage && mandateId in t.usage[id]
    && (t.usage[id][mandateId].status.Committed? || t.usage[id][mandateId].status.Reserved?)
  }

  /** The rows assertWithinLimit reads for a mandate, by reservation id. */
  function Joined(t: Tables, mandateId: string): map<string, JoinedRow> {
    map id | id in t.reservations && InJoin(t, id, mandateId) :: JoinedRow(t.usage[id][mandateId].usage, t.reservations[id].reservedAt)
  }

  predicate InWindow(row: JoinedRow, windowStart: Option<int>) { windowStart.Some? ==> row.reservedAt >= windowStart.value }

  function JoinedCharge(windowStart: Option<int>, y: Measure): JoinedRow -> int {
    (row: JoinedRow) => if InWindow(row, windowStart) then ChargeOf(row.usage, y) else 0
  }

  ghost function JoinedSum(t: Tables, mandateId: string, windowStart: Option<int>, y: Measure): int {
    Sum(Joined(t, mandateId), JoinedCharge(windowStart, y))
  }

  predicate JoinReadable(t: Tables, mandateId: string, windowStart: Option<int>) {
    forall id | id in Joined(t, mandateId) ::
      InWindow(Joined(t, mandateId)[id], windowStart) ==> ReadableUsage(Joined(t, mandateId)[id].usage)
  }

  ghost function SqlLimitError(t: Tables, mandateId: string, delta: Usage, limit: Limit, now: int): Option<GrantError> {
    var w := WindowStart(now, limit.windowMs);
    if !JoinReadable(t, mandateId, w) then Some(UnreadableAmount)
    else if limit.maxCount.Some? && JoinedSum(t, mandateId, w, Count) + delta.count > limit.maxCount.value then Some(LimitExceeded)
    else if limit.maxTotal.None? then None
    else if !ReadableUsage(delta) || !Readable(limit.maxTotal.value) then Some(UnreadableAmount)
    else if JoinedSum(t, mandateId, w, Total) + ChargeOf(delta, Total) > NatOf(limit.maxTotal.value) then Some(LimitExceeded)
    else None
  }

  function SqlGrantId(a: Ask): string {
    "grant:" + a.runId + ":" + a.stepId + ":" + a.mandateId + ":" + a.actionDigest + ":" + Show(a.now)
  }

  predicate BoundTo(row: ReservationRow, a: Ask) {
    row.record.GrantRecord? && row.runId == a.runId && row.record.stepId == a.stepId
    && row.record.mandateId == a.mandateId && row.record.actionDigest == a.actionDigest
  }

  /** authorizeAndReserve; unlike the in-memory store it expires nothing first. */
  ghost function SqlAuthorize(t: Tables, a: Ask): (Tables, Result<ReservationRow, SqlError>) {
    var id := SqlGrantId(a);
    var error := if a.limit.Some? then SqlLimitError(t, a.mandateId, a.delta, a.limit.value, a.now) else None;
    if id in t.reservations && t.reservations[id].status.Reserved? then
      (t, if BoundTo(t.reservations[id], a) then Ok(t.reservations[id]) else Err(RowCollision))
    else if error.Some? then (t, Err(OverLimit(error.value)))
    else (SqlReserve(t, id, NewGrantRow(a), [MandateUsage(a.mandateId, a.delta)]), Ok(NewGrantRow(a)))
  }

  // ---- The store ----------------------------------------------------------

  class SqliteRunStateStore {
    var reservations: map<string, ReservationRow>
    var usage: map<string, UsageRows>

    function Contents(): Tables
      reads this
    {
      Tables(reservations, usage)
    }

    constructor ()
      ensures Contents() == Tables(map[], map[])
    {
      reservations := map[];
      usage := map[];
    }

    method Insert(id: string, row: ReservationRow, deltas: seq<MandateUsage>)
      requires !(id in reservations && reservations[id].status.Reserved?)
      modifies this
      ensures Contents() == SqlReserve(old(Contents()), id, row, deltas)
    {
      if id !in reservations { reservations := reservations[id := row]; }
      var rows := Rows(Contents(), id);
      ghost var before := rows;
      for k := 0 to |deltas|
        invariant rows == AddRows(before, deltas[..k])
      {
        assert deltas[..k + 1][..k] == deltas[..k];
        if deltas[k].mandateId !in rows { rows := rows[deltas[k].mandateId := UsageRow(deltas[k].delta, Reserved)]; }
      }
      assert deltas[..|deltas|] == deltas;
      usage := usage[id := rows];
    }

    method ReserveStep(id: string, r: Reservation, reservedAt: int)
      modifies this
      ensures Contents() == SqlReserve(old(Contents()), id, NewRunRow(r, reservedAt), Coalesce(r.usageDeltas, []))
    {
      if id in reservations && reservations[id].status.Reserved? { return; }
      Insert(id, NewRunRow(r, reservedAt), Coalesce(r.usageDeltas, []));
    }

    method Write(id: string, status: Status, receipt: Option<Receipt>)
      requires id in reservations
      modifies this
      ensures Contents() == SetStatus(old(Contents()), id, status, receipt)
    {
      var rows := Rows(Contents(), id);
      reservations := reservations[id := reservations[id].(status := status, receipt := receipt)];
      usage := usage[id := WithStatus(rows, status)];
    }

    method CommitStep(now: int, id: string, receipt: Receipt) returns (error: Option<SqlError>)
      modifies this
      ensures (Contents(), error) == SqlCommit(old(Contents()), now, id, receipt)
    {
      if id !in reservations { return Some(NoRow); }
      if !reservations[id].status.Reserved? { return Some(RowNotReserved); }
      if now > reservations[id].expiresAt {
        Write(id, Unknown, None);
        return Some(RowExpired);
      }
      Write(id, Status.Committed, Some(receipt));
      return None;
    }

    method AbortStep(id: string) returns (error: Option<SqlError>)
      modifies this
      ensures (Contents(), error) == SqlAbortStep(old(Contents()), id)
    {
      if id !in reservations { return Some(NoRow); }
      if !reservations[id].status.Reserved? { return None; }
      Write(id, Status.Aborted, None);
      return None;
    }

    method Abort(id: string) returns (error: Option<SqlError>)
      modifies this
      ensures (Contents(), error) == SqlAbort(old(Contents()), id)
    {
      if id !in reservations { return Some(NoRow); }
      if !reservations[id].status.Reserved? { return Some(RowNotReserved); }
      Write(id, Status.Aborted, None);
      return None;
    }

    method ExpireReservations(now: int, runId: Option<string>)
      modifies this
      ensures Contents() == SqlExpire(old(Contents()), now, runId)
    {
      reservations := map id | id in reservations :: ExpiredRow(reservations[id], now, runId);
      usage := map id | id in usage :: map m | m in usage[id] :: ExpiredUsage(usage[id][m], id, reservations);
    }

    method ReconcileReservation(now: int, id: string, verdict: Verdict, receipt: Option<Receipt>) returns (error: Option<SqlError>)
      modifies this
      ensures (Contents(), error) == SqlReconcile(old(Contents()), now, id, verdict, receipt)
    {
      hide SetStatus;
      var saved := Contents();
      if id !in reservations { return Some(NoRow); }
      if IsOverdue(reservations[id], now) { Write(id, Unknown, None); }
      StatusKeepsRow(saved, id, Unknown, None);
      var current := reservations[id];
      if !current.status.Unknown? {
        reservations, usage := saved.reservations, saved.usage;
        return Some(RowNotReserved);
      }
      if verdict.DefinitelyNotExecuted? {
        Write(id, Status.Aborted, None);
      } else {
        Write(id, Status.Committed, Some(Coalesce(receipt, OwnReceipt(current, now))));
      }
      return None;
    }

    method SettleReservation(now: int, i: Instruction) returns (r: Result<Receipt, SqlError>)
      modifies this
      ensures (Contents(), r) == SqlSettleRun(old(Contents()), now, i)
    {
      hide SettlementReceipt, SetStatus, ActualFor;
      var id := i.reservationId;
      if id !in reservations { return Err(NoRow); }
      var row, saved := reservations[id], Contents();
      if RowSettledBy(row, i.settlementId) { return Ok(row.receipt.value); }
      if row.status.Committed? || row.status.Aborted? { return Err(RowClosed); }
      var receipt := SettlementReceipt(AsRun(row), now, i);
      if receipt.Err? { return Err(Declined(receipt.error)); }
      if i.disposition.ReleaseNonexecution? {
        Write(id, Status.Aborted, Some(receipt.value));
        return Ok(receipt.value);
      }
      reservations := reservations[id := row.(status := Status.Committed, receipt := Some(receipt.value))];
      var rows := Rows(saved, id);
      var settled, left := rows, rows.Keys;
      while left != {}
        invariant left <= rows.Keys == settled.Keys
        invariant forall m | m in rows :: settled[m] == if m in left then rows[m] else SettledRows(rows, i)[m]
      {
        var m :| m in left;
        left := left - {m};
        var used := if i.disposition.CommitReserved? then rows[m].usage
                    else if i.actual.Some? then ActualFor(i.actual.value, m) else Usage(0, None);
        settled := settled[m := UsageRow(used, Status.Committed)];
      }
      assert settled == SettledRows(rows, i);
      usage := usage[id := settled];
      return Ok(receipt.value);
    }

    method SettleActual(now: int, i: Instruction) returns (r: Result<Receipt, SqlError>)
      modifies this
      ensures (Contents(), r) == SqlSettleGrant(old(Contents()), now, i)
    {
      hide SettledGrant, SetStatus, Charged;
      var id := i.reservationId;
      if id !in reservations { return Err(NoRow); }
      var row := reservations[id];
      if RowSettledBy(row, i.settlementId) { return Ok(row.receipt.value); }
      if row.status.Committed? || row.status.Aborted? { return Err(RowClosed); }
      if row.record.RunRecord? { return Err(WrongKind); }
      var settled := SettledGrant(AsGrant(row), now, i);
      if settled.Err? { return Err(Declined(settled.error)); }
      var g := settled.value;
      var receipt := Receipt(now, None, g.receipt.value.settled);
      if g.status.Aborted? {
        Write(id, Status.Aborted, Some(receipt));
        return Ok(receipt);
      }
      var rows := Rows(Contents(), id);
      reservations := reservations[id := row.(status := Status.Committed, receipt := Some(receipt))];
      if g.mandateId in rows { rows := rows[g.mandateId := UsageRow(Charged(g), Status.Committed)]; }
      usage := usage[id := rows];
      return Ok(receipt);
    }

    method RenewReservation(now: int, id: string, extendsTo: int) returns (error: Option<SqlError>)
      modifies this
      ensures (Contents(), error) == SqlRenew(old(Contents()), now, id, extendsTo)
    {
      var saved := Contents();
      if id !in reservations { return Some(NoRow); }
      var row := reservations[id];
      if !row.status.Reserved? { return Some(RowNotReserved); }
      if now > row.expiresAt {
        Write(id, Unknown, None);
        reservations, usage := saved.reservations, saved.usage;
        return Some(RowExpired);
      }
      if extendsTo <= row.expiresAt { return Some(RowRenewalTooShort); }
      reservations := reservations[id := row.(expiresAt := extendsTo)];
      return None;
    }

    /** The loop over the joined rows. */
    method AssertWithinLimit(mandateId: string, delta: Usage, limit: Limit, now: int) returns (error: Option<GrantError>)
      ensures error == SqlLimitError(Contents(), mandateId, delta, limit, now)
    {
      hide Joined, Readable, ReadableUsage, ChargeOf, InWindow, WindowStart;
      var w := WindowStart(now, limit.windowMs);
      var rows := Joined(Contents(), mandateId);
      var count, amount := 0, 0;
      var left := rows;
      SumZero<string, JoinedRow>(map[], JoinedCharge(w, Count));
      SumZero<string, JoinedRow>(map[], JoinedCharge(w, Total));
      while left != map[]
        invariant left.Keys <= rows.Keys && forall id | id in left :: left[id] == rows[id]
        invariant forall id | id in rows && id !in left :: InWindow(rows[id], w) ==> ReadableUsage(rows[id].usage)
        invariant count + Sum(left, JoinedCharge(w, Count)) == Sum(rows, JoinedCharge(w, Count))
        invariant amount + Sum(left, JoinedCharge(w, Total)) == Sum(rows, JoinedCharge(w, Total))
        decreases |left|
      {
        var id :| id in left;
        var row := left[id];
        SumRemove(left, JoinedCharge(w, Count), id);
        SumRemove(left, JoinedCharge(w, Total), id);
        ChargeParts(row.usage);
        left := left - {id};
        if InWindow(row, w) {
          count := count + row.usage.count;
          if row.usage.amount.Some? {
            if !Readable(row.usage.amount.value) { return Some(UnreadableAmount); }
            amount := amount + ChargeOf(row.usage, Total);
          }
        }
      }
      if limit.maxCount.Some? && count + delta.count > limit.maxCount.value { return Some(LimitExceeded); }
      if limit.maxTotal.Some? {
        if !ReadableUsage(delta) || !Readable(limit.maxTotal.value) { return Some(UnreadableAmount); }
        ReadableDigits(limit.maxTotal.value);
        if amount + ChargeOf(delta, Total) > NatOf(limit.maxTotal.value) { return Some(LimitExceeded); }
      }
      return None;
    }

    method AuthorizeAndReserve(a: Ask) returns (r: Result<ReservationRow, SqlError>)
      modifies this
      ensures (Contents(), r) == SqlAuthorize(old(Contents()), a)
    {
      hide SqlReserve, SqlLimitError, SqlGrantId;
      var id := SqlGrantId(a);
      if id in reservations && reservations[id].status.Reserved? {
        if !BoundTo(reservations[id], a) { return Err(RowCollision); }
        return Ok(reservations[id]);
      }
      if a.limit.Some? {
        var error := AssertWithinLimit(a.mandateId, a.delta, a.limit.value, a.now);
        if error.Some? { return Err(OverLimit(error.value)); }
      }
      Insert(id, NewGrantRow(a), [MandateUsage(a.mandateId, a.delta)]);
      return Ok(NewGrantRow(a));
    }
  }

  lemma StatusKeepsRow(t: Tables, id: string, status: Status, receipt: Option<Receipt>)
    requires id in t.reservations
    ensures id in SetStatus(t, id, status, receipt).reservations
    ensures SetStatus(t, id, status, receipt).reservations[id] == t.reservations[id].(status := status, receipt := receipt)
  {}

  // ---- What a usage row should hold, from the reservation alone -----------

  function DeltasOf(record: Record): seq<MandateUsage> {
    match record
    case RunRecord(_, deltas) => Coalesce(deltas, [])
    case GrantRecord(_, mandateId, _, delta) => [MandateUsage(mandateId, delta)]
  }

  /** The first delta given for a mandate. */
  function FirstDelta(deltas: seq<MandateUsage>, mandateId: string): Option<Usage> {
    if deltas == [] then None
    else
      var before, last := FirstDelta(deltas[..|deltas| - 1], mandateId), deltas[|deltas| - 1];
      if before.Some? then before else if last.mandateId == mandateId then Some(last.delta) else None
  }

  /** The metered account a settlement recorded. */
  function Metered(receipt: Option<Receipt>): Option<ActualConsumption> {
    if receipt.Some? && receipt.value.settled.Some? then receipt.value.settled.value.actual else None
  }

  /** What a reservation is charged for a mandate it reserved `delta` of. */
  function ChargeFor(row: ReservationRow, mandateId: string, delta: Usage): Usage {
    var actual := Metered(row.receipt);
    if !row.status.Committed? || actual.None? then delta
    else match row.record
      case RunRecord(_, _) => ActualFor(actual.value, mandateId)
      case GrantRecord(_, _, _, _) =>
        (match UsageTotal(actual.value.mandateUsage)
         case Ok(total) => total
         case Err(_) => delta)
  }

  /** The usage row recomputed from the reservation's record, status and receipt. */
  function Scanned(row: ReservationRow, mandateId: string): Option<UsageRow> {
    match FirstDelta(DeltasOf(row.record), mandateId)
    case None => None
    case Some(delta) => Some(UsageRow(ChargeFor(row, mandateId, delta), row.status))
  }

  predicate RowAgrees(t: Tables, id: string, mandateId: string) {
    Lookup(Rows(t, id), mandateId) == if id in t.reservations then Scanned(t.reservations[id], mandateId) else None
  }

  /** The two tables tell the same story: no usage row is missing, stray, or out of step. */
  ghost predicate TablesAgree(t: Tables) { forall id, mandateId :: RowAgrees(t, id, mandateId) }

  lemma {:induction false} AddedRows(deltas: seq<MandateUsage>, mandateId: string)
    ensures Lookup(AddRows(map[], deltas), mandateId)
         == (match FirstDelta(deltas, mandateId) case None => None case Some(d) => Some(UsageRow(d, Reserved)))
  {
    if deltas != [] { AddedRows(deltas[..|deltas| - 1], mandateId); }
  }

  lemma ReserveKeepsAgreement(t: Tables, id: string, row: ReservationRow)
    requires TablesAgree(t) && row.status.Reserved? && (id in t.reservations ==> t.reservations[id].status.Reserved?)
    ensures TablesAgree(SqlReserve(t, id, row, DeltasOf(row.record)))
  {
    var t' := SqlReserve(t, id, row, DeltasOf(row.record));
    hide FirstDelta, DeltasOf;
    forall id', m ensures RowAgrees(t', id', m) {
      assert RowAgrees(t, id', m);
      if id' == id && id !in t.reservations {
        EmptyRows(t, id);
        AddedRows(DeltasOf(row.record), m);
      }
    }
  }

  lemma EmptyRows(t: Tables, id: string)
    requires TablesAgree(t) && id !in t.reservations
    ensures Rows(t, id) == map[]
  {
    forall m ensures m !in Rows(t, id) { assert RowAgrees(t, id, m); }
  }

  lemma StatusKeepsAgreement(t: Tables, id: string, status: Status, receipt: Option<Receipt>)
    requires TablesAgree(t) && id in t.reservations && !t.reservations[id].status.Committed?
    requires status.Committed? ==> Metered(receipt).None?
    ensures TablesAgree(SetStatus(t, id, status, receipt))
  {
    var t' := SetStatus(t, id, status, receipt);
    hide FirstDelta, DeltasOf, Metered;
    forall id', m ensures RowAgrees(t', id', m) { assert RowAgrees(t, id', m); }
  }

  lemma ExpireKeepsAgreement(t: Tables, now: int, runId: Option<string>)
    requires TablesAgree(t)
    ensures TablesAgree(SqlExpire(t, now, runId))
  {
    var t' := SqlExpire(t, now, runId);
    hide FirstDelta, DeltasOf, Metered;
    forall id, m ensures RowAgrees(t', id, m) { assert RowAgrees(t, id, m); }
  }

  /** A closed reservation and its new usage rows, the other rows untouched. */
  lemma CloseKeepsAgreement(t: Tables, id: string, row: ReservationRow, rows: UsageRows)
    requires TablesAgree(t) && forall m :: Lookup(rows, m) == Scanned(row, m)
    ensures TablesAgree(Tables(t.reservations[id := row], t.usage[id := rows]))
  {
    var t' := Tables(t.reservations[id := row], t.usage[id := rows]);
    hide Scanned;
    forall id', m ensures RowAgrees(t', id', m) { assert RowAgrees(t, id', m); }
  }

  lemma SettlementFacts(res: Reservation, now: int, i: Instruction)
    requires SettlementReceipt(res, now, i).Ok?
    ensures Metered(Some(SettlementReceipt(res, now, i).value)) == i.actual
    ensures i.disposition.CommitReserved? ==> i.actual.None?
    ensures i.disposition.SettleActual? ==> i.actual.Some?
  {
    hide UsageTotal, UsageReleased, ActualCheck;
  }

  lemma SettleRunKeepsAgreement(t: Tables, now: int, i: Instruction)
    requires TablesAgree(t) && (i.reservationId in t.reservations ==> t.reservations[i.reservationId].record.RunRecord?)
    ensures TablesAgree(SqlSettleRun(t, now, i).0)
  {
    hide SettlementReceipt, FirstDelta, DeltasOf, TablesAgree, ActualFor;
    var id := i.reservationId;
    if id in t.reservations && SettlementReceipt(AsRun(t.reservations[id]), now, i).Ok? && !IsClosed(AsRun(t.reservations[id])) {
      var row := t.reservations[id];
      var receipt := SettlementReceipt(AsRun(row), now, i).value;
      SettlementFacts(AsRun(row), now, i);
      StatusKeepsAgreement(t, id, Status.Aborted, Some(receipt));
      if !i.disposition.ReleaseNonexecution? {
        var row' := row.(status := Status.Committed, receipt := Some(receipt));
        forall m ensures Lookup(SettledRows(Rows(t, id), i), m) == Scanned(row', m) {
          OneRow(t, id, m);
        }
        CloseKeepsAgreement(t, id, row', SettledRows(Rows(t, id), i));
      }
    }
  }

  lemma OneRow(t: Tables, id: string, mandateId: string)
    requires TablesAgree(t) && id in t.reservations
    ensures Lookup(Rows(t, id), mandateId) == Scanned(t.reservations[id], mandateId)
  {
    assert RowAgrees(t, id, mandateId);
    hide Scanned;
  }

  lemma GrantSettlementFacts(g: Grant, now: int, i: Instruction)
    requires SettledGrant(g, now, i).Ok?
    ensures var r := SettledGrant(g, now, i).value;
            && r.mandateId == g.mandateId && r.delta == g.delta
            && r.receipt.Some? && r.receipt.value.settled.Some? && r.receipt.value.settled.value.actual == i.actual
            && (r.status.Aborted? || r.status.Committed?)
            && (r.status.Committed? ==>
                  if i.actual.None? then Charged(r) == g.delta
                  else UsageTotal(i.actual.value.mandateUsage) == Ok(Charged(r)))
  {
    hide UsageTotal, UsageReleased, ActualCheck;
  }

  lemma GrantScan(row: ReservationRow, mandateId: string)
    requires row.record.GrantRecord?
    ensures Scanned(row, mandateId)
         == if mandateId == row.record.mandateId then Some(UsageRow(ChargeFor(row, mandateId, row.record.delta), row.status)) else None
  {
    var deltas := DeltasOf(row.record);
    assert deltas[..|deltas| - 1] == [] && FirstDelta([], mandateId) == None;
    hide ChargeFor;
  }

  lemma SettleGrantKeepsAgreement(t: Tables, now: int, i: Instruction)
    requires TablesAgree(t)
    ensures TablesAgree(SqlSettleGrant(t, now, i).0)
  {
    hide SettledGrant, Scanned, TablesAgree, Charged, UsageTotal, DeltasOf, FirstDelta;
    var id := i.reservationId;
    if id in t.reservations && t.reservations[id].record.GrantRecord? && !IsClosed(AsRun(t.reservations[id]))
       && SettledGrant(AsGrant(t.reservations[id]), now, i).Ok? {
      var row := t.reservations[id];
      var g := SettledGrant(AsGrant(row), now, i).value;
      GrantSettlementFacts(AsGrant(row), now, i);
      var receipt := Receipt(now, None, g.receipt.value.settled);
      StatusKeepsAgreement(t, id, Status.Aborted, Some(receipt));
      if g.status.Committed? {
        var row' := row.(status := Status.Committed, receipt := Some(receipt));
        var rows := Rows(t, id);
        forall m ensures Lookup(rows[g.mandateId := UsageRow(Charged(g), Status.Committed)], m) == Scanned(row', m) {
          OneRow(t, id, m);
          GrantScan(row, m);
          GrantScan(row', m);
        }
        OneRow(t, id, g.mandateId);
        GrantScan(row, g.mandateId);
        CloseKeepsAgreement(t, id, row', rows[g.mandateId := UsageRow(Charged(g), Status.Committed)]);
      }
    }
  }

  // ---- Runs of the store --------------------------------------------------

  datatype SqlOp =
    | SqlDoReserve(id: string, reservation: Reservation, reservedAt: int)
    | SqlDoAuthorize(ask: Ask)
    | SqlDoCommit(now: int, id: string, committed: Receipt)
    | SqlDoAbort(id: string)
    | SqlDoAbortStep(id: string)
    | SqlDoExpire(now: int, only: Option<string>)
    | SqlDoReconcile(now: int, id: string, verdict: Verdict, receipt: Option<Receipt>)
    | SqlDoSettleRun(now: int, instruction: Instruction)
    | SqlDoSettleGrant(now: int, instruction: Instruction)
    | SqlDoRenew(now: int, id: string, extendsTo: int)

  ghost function SqlApply(t: Tables, op: SqlOp): Tables {
    match op
    case SqlDoReserve(id, r, reservedAt) => SqlReserve(t, id, NewRunRow(r, reservedAt), Coalesce(r.usageDeltas, []))
    case SqlDoAuthorize(a) => SqlAuthorize(t, a).0
    case SqlDoCommit(now, id, receipt) => SqlCommit(t, now, id, receipt).0
    case SqlDoAbort(id) => SqlAbort(t, id).0
    case SqlDoAbortStep(id) => SqlAbortStep(t, id).0
    case SqlDoExpire(now, only) => SqlExpire(t, now, only)
    case SqlDoReconcile(now, id, verdict, receipt) => SqlReconcile(t, now, id, verdict, receipt).0
    case SqlDoSettleRun(now, i) => SqlSettleRun(t, now, i).0
    case SqlDoSettleGrant(now, i) => SqlSettleGrant(t, now, i).0
    case SqlDoRenew(now, id, extendsTo) => SqlRenew(t, now, id, extendsTo).0
  }

  /**
   * Reservation ids are fresh, settleReservation settles run rows, and receipts handed in by
   * the caller carry no metered usage of their own.
   */
  predicate SqlProper(t: Tables, op: SqlOp) {
    match op
    case SqlDoReserve(id, _, _) => id in t.reservations ==> t.reservations[id].status.Reserved?
    case SqlDoAuthorize(a) => SqlGrantId(a) in t.reservations ==> t.reservations[SqlGrantId(a)].status.Reserved?
    case SqlDoCommit(_, _, receipt) => Metered(Some(receipt)).None?
    case SqlDoReconcile(_, _, _, receipt) => Metered(receipt).None?
    case SqlDoSettleRun(_, i) => i.reservationId in t.reservations ==> t.reservations[i.reservationId].record.RunRecord?
    case _ => true
  }

  ghost function SqlAfter(t: Tables, ops: seq<SqlOp>): Tables
    decreases |ops|
  {
    if ops == [] then t else SqlAfter(SqlApply(t, ops[0]), ops[1..])
  }

  ghost predicate AllSqlProper(t: Tables, ops: seq<SqlOp>)
    decreases |ops|
  {
    ops == [] || (SqlProper(t, ops[0]) && AllSqlProper(SqlApply(t, ops[0]), ops[1..]))
  }

  lemma ReconcileKeepsAgreement(t: Tables, now: int, id: string, verdict: Verdict, receipt: Option<Receipt>)
    requires TablesAgree(t) && Metered(receipt).None?
    ensures TablesAgree(SqlReconcile(t, now, id, verdict, receipt).0)
  {
    hide TablesAgree, SetStatus;
    if id in t.reservations {
      var t1 := if IsOverdue(t.reservations[id], now) then SetStatus(t, id, Unknown, None) else t;
      if IsOverdue(t.reservations[id], now) {
        StatusKeepsRow(t, id, Unknown, None);
        StatusKeepsAgreement(t, id, Unknown, None);
      }
      if t1.reservations[id].status.Unknown? {
        StatusKeepsAgreement(t1, id, Status.Aborted, None);
        StatusKeepsAgreement(t1, id, Status.Committed, Some(Coalesce(receipt, OwnReceipt(t1.reservations[id], now))));
      }
    }
  }

  lemma RenewKeepsAgreement(t: Tables, now: int, id: string, extendsTo: int)
    requires TablesAgree(t)
    ensures TablesAgree(SqlRenew(t, now, id, extendsTo).0)
  {
    var t' := SqlRenew(t, now, id, extendsTo).0;
    hide FirstDelta, DeltasOf, Metered;
    forall id', m ensures RowAgrees(t', id', m) { assert RowAgrees(t, id', m); }
  }

  lemma AuthorizeKeepsAgreement(t: Tables, a: Ask)
    requires TablesAgree(t) && SqlProper(t, SqlDoAuthorize(a))
    ensures TablesAgree(SqlAuthorize(t, a).0)
  {
    hide TablesAgree, SqlReserve, SqlLimitError, SqlGrantId;
    ReserveKeepsAgreement(t, SqlGrantId(a), NewGrantRow(a));
  }

  lemma SqlStepAgrees(t: Tables, op: SqlOp)
    requires TablesAgree(t) && SqlProper(t, op)
    ensures TablesAgree(SqlApply(t, op))
  {
    hide TablesAgree, SetStatus, SqlReserve, SqlAuthorize, SqlExpire, SqlReconcile, SqlSettleRun, SqlSettleGrant, SqlRenew;
    match op
    case SqlDoReserve(id, r, reservedAt) => ReserveKeepsAgreement(t, id, NewRunRow(r, reservedAt));
    case SqlDoAuthorize(a) => AuthorizeKeepsAgreement(t, a);
    case SqlDoCommit(now, id, receipt) =>
      if id in t.reservations && t.reservations[id].status.Reserved? {
        StatusKeepsAgreement(t, id, Unknown, None);
        StatusKeepsAgreement(t, id, Status.Committed, Some(receipt));
      }
    case SqlDoAbort(id) =>
      if id in t.reservations && t.reservations[id].status.Reserved? { StatusKeepsAgreement(t, id, Status.Aborted, None); }
    case SqlDoAbortStep(id) =>
      if id in t.reservations && t.reservations[id].status.Reserved? { StatusKeepsAgreement(t, id, Status.Aborted, None); }
    case SqlDoExpire(now, only) => ExpireKeepsAgreement(t, now, only);
    case SqlDoReconcile(now, id, verdict, receipt) => ReconcileKeepsAgreement(t, now, id, verdict, receipt);
    case SqlDoSettleRun(now, i) => SettleRunKeepsAgreement(t, now, i);
    case SqlDoSettleGrant(now, i) => SettleGrantKeepsAgreement(t, now, i);
    case SqlDoRenew(now, id, extendsTo) => RenewKeepsAgreement(t, now, id, extendsTo);
  }

  lemma EmptyTablesAgree()
    ensures TablesAgree(Tables(map[], map[]))
  {
    hide Scanned;
  }

  lemma {:induction false} SqlRunAgrees(t: Tables, ops: seq<SqlOp>)
    requires TablesAgree(t) && AllSqlProper(t, ops)
    ensures TablesAgree(SqlAfter(t, ops))
    decreases |ops|
  {
    hide TablesAgree, SqlApply, SqlProper;
    if ops != [] {
      SqlStepAgrees(t, ops[0]);
      SqlRunAgrees(SqlApply(t, ops[0]), ops[1..]);
    }
  }

  /** After every sequence of transactions the usage table is what the reservation table says it is. */
  lemma TwoTablesAgree(ops: seq<SqlOp>)
    requires AllSqlProper(Tables(map[], map[]), ops)
    ensures TablesAgree(SqlAfter(Tables(map[], map[]), ops))
  {
    EmptyTablesAgree();
    hide TablesAgree, AllSqlProper, SqlAfter;
    SqlRunAgrees(Tables(map[], map[]), ops);
  }

  // ---- The joined sum is the scanned sum ----------------------------------

  /** The reservations that touch a mandate, as the in-memory grant store would hold them. */
  function Scan(t: Tables, mandateId: string): Grants {
    map id | id in t.reservations && Scanned(t.reservations[id], mandateId).Some? :: ScannedGrant(t.reservations[id], mandateId)
  }

  function ScannedGrant(row: ReservationRow, mandateId: string): Grant
    requires Scanned(row, mandateId).Some?
  {
    var usage := Scanned(row, mandateId).value.usage;
    Grant(row.runId, "", mandateId, "", usage, row.reservedAt, row.expiresAt, row.status, None, Some(usage))
  }

  lemma JoinIsScan(t: Tables, mandateId: string, windowStart: Option<int>, id: string)
    requires TablesAgree(t)
    ensures var joined, scan := Joined(t, mandateId), Scan(t, mandateId);
            && (id in joined <==> id in scan && (scan[id].status.Committed? || scan[id].status.Reserved?))
            && (id in joined ==> joined[id].usage == Charged(scan[id]) && joined[id].reservedAt == scan[id].reservedAt)
            && (id in scan ==> (IsCounted(scan[id], mandateId, windowStart) <==> id in joined && InWindow(joined[id], windowStart)))
  {
    assert RowAgrees(t, id, mandateId);
    hide Scanned;
  }

  lemma SumsAgree(t: Tables, mandateId: string, windowStart: Option<int>, y: Measure)
    requires TablesAgree(t)
    ensures JoinedSum(t, mandateId, windowStart, y) == Counted(Scan(t, mandateId), mandateId, windowStart, y)
  {
    var m, n := Joined(t, mandateId), Scan(t, mandateId);
    forall id ensures id in m ==> id in n { JoinIsScan(t, mandateId, windowStart, id); }
    hide TablesAgree, Scan, Joined, ChargeOf, Charged, IsCounted, InWindow;
    forall id | id in n
      ensures WeightOf(mandateId, windowStart, y)(n[id]) == if id in m then JoinedCharge(windowStart, y)(m[id]) else 0
    {
      JoinIsScan(t, mandateId, windowStart, id);
    }
    SumMatch(m, JoinedCharge(windowStart, y), n, WeightOf(mandateId, windowStart, y));
  }

  lemma ReadableAgrees(t: Tables, mandateId: string, windowStart: Option<int>)
    requires TablesAgree(t)
    ensures JoinReadable(t, mandateId, windowStart) <==> AllReadable(Scan(t, mandateId), mandateId, windowStart)
  {
    forall id { JoinIsScan(t, mandateId, windowStart, id); }
    hide TablesAgree, Scan, Joined, Charged, IsCounted, InWindow, ReadableUsage;
  }

  /**
   * The limit verdict of the joined query is the verdict the in-memory store reaches by
   * scanning the reservations.
   */
  lemma LimitVerdictsAgree(t: Tables, mandateId: string, delta: Usage, limit: Limit, now: int)
    requires TablesAgree(t)
    ensures SqlLimitError(t, mandateId, delta, limit, now) == LimitError(Scan(t, mandateId), mandateId, delta, limit, now)
  {
    var w := WindowStart(now, limit.windowMs);
    ReadableAgrees(t, mandateId, w);
    SumsAgree(t, mandateId, w, Count);
    SumsAgree(t, mandateId, w, Total);
    hide TablesAgree, Scan, JoinReadable, AllReadable, Counted, JoinedSum, ChargeOf, Readable, NatOf, WindowStart;
  }

  // ---- The stores' own verdicts -------------------------------------------

  /** Reserved past its lease, and counted in the window: the in-memory store expires it first, the database does not. */
  predicate Overdue(g: Grant, mandateId: string, windowStart: Option<int>, now: int) {
    IsCounted(g, mandateId, windowStart) && g.status.Reserved? && now > g.expiresAt
  }

  function OverdueCharge(mandateId: string, windowStart: Option<int>, now: int, y: Measure): Grant -> int {
    (g: Grant) => if Overdue(g, mandateId, windowStart, now) then ChargeOf(Charged(g), y) else 0
  }

  /** What the overdue reservations of the mandate in the window charge. */
  ghost function OverdueSum(grants: Grants, mandateId: string, windowStart: Option<int>, now: int, y: Measure): int {
    Sum(grants, OverdueCharge(mandateId, windowStart, now, y))
  }

  predicate OverdueReadable(grants: Grants, mandateId: string, windowStart: Option<int>, now: int) {
    forall id | id in grants && Overdue(grants[id], mandateId, windowStart, now) :: ReadableUsage(Charged(grants[id]))
  }

  /** Expiring takes exactly the overdue charges out of the count. */
  lemma {:induction false} CleaningTakesOverdue(grants: Grants, mandateId: string, windowStart: Option<int>, now: int, y: Measure)
    ensures Counted(grants, mandateId, windowStart, y)
         == Counted(CleanExpired(grants, now), mandateId, windowStart, y) + OverdueSum(grants, mandateId, windowStart, now, y)
    decreases |grants|
  {
    hide WeightOf, OverdueCharge, Lapsed;
    var clean, w, o := CleanExpired(grants, now), WeightOf(mandateId, windowStart, y), OverdueCharge(mandateId, windowStart, now, y);
    if grants == map[] {
      SumZero<string, Grant>(grants, w);
      SumZero<string, Grant>(clean, w);
      SumZero<string, Grant>(grants, o);
    } else {
      var id :| id in grants;
      SumRemove(grants, w, id);
      SumRemove(clean, w, id);
      SumRemove(grants, o, id);
      assert CleanExpired(grants - {id}, now) == clean - {id};
      LapsedWeight(grants[id], mandateId, windowStart, now, y);
      CleaningTakesOverdue(grants - {id}, mandateId, windowStart, now, y);
    }
  }

  lemma LapsedWeight(g: Grant, mandateId: string, windowStart: Option<int>, now: int, y: Measure)
    ensures WeightOf(mandateId, windowStart, y)(g)
         == WeightOf(mandateId, windowStart, y)(Lapsed(g, now)) + OverdueCharge(mandateId, windowStart, now, y)(g)
  {
    hide ChargeOf;
  }

  lemma CleaningReadable(grants: Grants, mandateId: string, windowStart: Option<int>, now: int)
    ensures AllReadable(grants, mandateId, windowStart)
       <==> AllReadable(CleanExpired(grants, now), mandateId, windowStart) && OverdueReadable(grants, mandateId, windowStart, now)
  {
    var clean := CleanExpired(grants, now);
    hide ReadableUsage;
    forall id | id in grants
      ensures IsCounted(grants[id], mandateId, windowStart) <==>
        IsCounted(clean[id], mandateId, windowStart) || Overdue(grants[id], mandateId, windowStart, now)
      ensures IsCounted(clean[id], mandateId, windowStart) ==> clean[id] == grants[id]
    {}
  }

  /** The two stores give one limit verdict to a request. */
  ghost predicate SameVerdict(t: Tables, mandateId: string, delta: Usage, limit: Limit, now: int) {
    SqlLimitError(t, mandateId, delta, limit, now) == LimitError(CleanExpired(Scan(t, mandateId), now), mandateId, delta, limit, now)
  }

  /** They give one verdict to every request in the window. */
  ghost predicate SameVerdicts(t: Tables, mandateId: string, windowMs: Option<int>, now: int) {
    forall delta, maxCount, maxTotal :: SameVerdict(t, mandateId, delta, Limit(maxCount, maxTotal, windowMs), now)
  }

  /** The overdue reservations of the mandate in the window charge nothing, and can be read. */
  ghost predicate OverdueCountsNothing(grants: Grants, mandateId: string, windowStart: Option<int>, now: int) {
    && OverdueReadable(grants, mandateId, windowStart, now)
    && OverdueSum(grants, mandateId, windowStart, now, Count) == 0 && OverdueSum(grants, mandateId, windowStart, now, Total) == 0
  }

  lemma NothingOverdueSame(t: Tables, mandateId: string, delta: Usage, limit: Limit, now: int)
    requires TablesAgree(t)
    requires var w, scan := WindowStart(now, limit.windowMs), Scan(t, mandateId);
             AllReadable(CleanExpired(scan, now), mandateId, w) ==> OverdueCountsNothing(scan, mandateId, w, now)
    ensures SameVerdict(t, mandateId, delta, limit, now)
  {
    var w, scan := WindowStart(now, limit.windowMs), Scan(t, mandateId);
    LimitVerdictsAgree(t, mandateId, delta, limit, now);
    CleaningReadable(scan, mandateId, w, now);
    CleaningTakesOverdue(scan, mandateId, w, now, Count);
    CleaningTakesOverdue(scan, mandateId, w, now, Total);
    hide TablesAgree, Scan, SqlLimitError, AllReadable, OverdueReadable, OverdueSum, Counted, CleanExpired, ChargeOf, Readable, NatOf, WindowStart;
  }

  lemma TotalNonNegative(grants: Grants, mandateId: string, windowStart: Option<int>)
    ensures Counted(grants, mandateId, windowStart, Total) >= 0
  {
    SumNonNegative(grants, WeightOf(mandateId, windowStart, Total));
  }

  lemma ShownIsReadable(n: nat)
    ensures Readable(Show(n)) && NatOf(Show(n)) == n
  {
    NatOfShow(n);
    hide Show, NatOf;
  }

  function Least(a: int, b: int): int { if a <= b then a else b }

  const NO_USAGE := Usage(0, None)

  /** A limit at the smaller of two counts tells them apart. */
  lemma CountTellsApart(a: Grants, b: Grants, mandateId: string, windowMs: Option<int>, now: int)
    requires var w := WindowStart(now, windowMs); AllReadable(a, mandateId, w) && AllReadable(b, mandateId, w)
    requires var w := WindowStart(now, windowMs);
             var limit := Limit(Some(Least(Counted(a, mandateId, w, Count), Counted(b, mandateId, w, Count))), None, windowMs);
             LimitError(a, mandateId, NO_USAGE, limit, now) == LimitError(b, mandateId, NO_USAGE, limit, now)
    ensures Counted(a, mandateId, WindowStart(now, windowMs), Count) == Counted(b, mandateId, WindowStart(now, windowMs), Count)
  {
    hide AllReadable, Counted, WindowStart;
  }

  /** So does a limit at the smaller of two totals. */
  lemma TotalTellsApart(a: Grants, b: Grants, mandateId: string, windowMs: Option<int>, now: int, least: nat)
    requires var w := WindowStart(now, windowMs); AllReadable(a, mandateId, w) && AllReadable(b, mandateId, w)
    requires var w := WindowStart(now, windowMs); least == Least(Counted(a, mandateId, w, Total), Counted(b, mandateId, w, Total))
    requires var limit := Limit(None, Some(Show(least)), windowMs);
             LimitError(a, mandateId, NO_USAGE, limit, now) == LimitError(b, mandateId, NO_USAGE, limit, now)
    ensures Counted(a, mandateId, WindowStart(now, windowMs), Total) == Counted(b, mandateId, WindowStart(now, windowMs), Total)
  {
    ShownIsReadable(least);
    hide AllReadable, Counted, WindowStart, Readable, Show, NatOf;
  }

  /** No limit at all tells apart whether the amounts can be read. */
  lemma ReadableTellsApart(a: Grants, b: Grants, mandateId: string, windowMs: Option<int>, now: int)
    requires var limit := Limit(None, None, windowMs);
             LimitError(a, mandateId, NO_USAGE, limit, now) == LimitError(b, mandateId, NO_USAGE, limit, now)
    ensures AllReadable(a, mandateId, WindowStart(now, windowMs)) <==> AllReadable(b, mandateId, WindowStart(now, windowMs))
  {
    hide AllReadable, Counted, WindowStart;
  }

  lemma SameForScan(t: Tables, mandateId: string, limit: Limit, now: int)
    requires TablesAgree(t) && SameVerdicts(t, mandateId, limit.windowMs, now)
    ensures var scan := Scan(t, mandateId);
            LimitError(scan, mandateId, NO_USAGE, limit, now) == LimitError(CleanExpired(scan, now), mandateId, NO_USAGE, limit, now)
  {
    assert SameVerdict(t, mandateId, NO_USAGE, Limit(limit.maxCount, limit.maxTotal, limit.windowMs), now);
    LimitVerdictsAgree(t, mandateId, NO_USAGE, limit, now);
    hide TablesAgree, Scan, SqlLimitError, LimitError, CleanExpired;
  }

  lemma OverdueTellsApart(t: Tables, mandateId: string, windowMs: Option<int>, now: int)
    requires TablesAgree(t) && SameVerdicts(t, mandateId, windowMs, now)
    requires AllReadable(CleanExpired(Scan(t, mandateId), now), mandateId, WindowStart(now, windowMs))
    ensures OverdueCountsNothing(Scan(t, mandateId), mandateId, WindowStart(now, windowMs), now)
  {
    var w, scan := WindowStart(now, windowMs), Scan(t, mandateId);
    var clean := CleanExpired(scan, now);
    TotalNonNegative(clean, mandateId, w);
    TotalNonNegative(scan, mandateId, w);
    var least := Least(Counted(scan, mandateId, w, Total), Counted(clean, mandateId, w, Total));
    hide TablesAgree, SameVerdicts, Scan, AllReadable, OverdueReadable, OverdueSum, Counted, CleanExpired, Show, WindowStart, LimitError;
    SameForScan(t, mandateId, Limit(None, None, windowMs), now);
    ReadableTellsApart(scan, clean, mandateId, windowMs, now);
    SameForScan(t, mandateId, Limit(Some(Least(Counted(scan, mandateId, w, Count), Counted(clean, mandateId, w, Count))), None, windowMs), now);
    CountTellsApart(scan, clean, mandateId, windowMs, now);
    SameForScan(t, mandateId, Limit(None, Some(Show(least)), windowMs), now);
    TotalTellsApart(scan, clean, mandateId, windowMs, now, least);
    CleaningReadable(scan, mandateId, w, now);
    CleaningTakesOverdue(scan, mandateId, w, now, Count);
    CleaningTakesOverdue(scan, mandateId, w, now, Total);
  }

  /**
   * Exactly when the database and the in-memory store give every request on a mandate one
   * limit verdict: the in-memory one cannot read its amounts, or the overdue reservations in
   * the window, which it expires first, can be read and charge nothing.
   */
  lemma VerdictsAgreeExactly(t: Tables, mandateId: string, windowMs: Option<int>, now: int)
    requires TablesAgree(t)
    ensures var w, scan := WindowStart(now, windowMs), Scan(t, mandateId);
            SameVerdicts(t, mandateId, windowMs, now) <==>
              (AllReadable(CleanExpired(scan, now), mandateId, w) ==> OverdueCountsNothing(scan, mandateId, w, now))
  {
    var w, scan := WindowStart(now, windowMs), Scan(t, mandateId);
    hide TablesAgree, SameVerdict, AllReadable, OverdueCountsNothing, WindowStart, Scan, CleanExpired;
    if AllReadable(CleanExpired(scan, now), mandateId, w) ==> OverdueCountsNothing(scan, mandateId, w, now) {
      forall delta, maxCount, maxTotal ensures SameVerdict(t, mandateId, delta, Limit(maxCount, maxTotal, windowMs), now) {
        NothingOverdueSame(t, mandateId, delta, Limit(maxCount, maxTotal, windowMs), now);
      }
    }
    if SameVerdicts(t, mandateId, windowMs, now) && AllReadable(CleanExpired(scan, now), mandateId, w) {
      OverdueTellsApart(t, mandateId, windowMs, now);
    }
  }
}
