/** Exactly which usage requests the database reserves, and what its rows then hold. */
module SqlRequests {
  import opened Outcomes
  import opened Digits
  import opened Settlement
  import opened Sums
  import opened RunLedger
  import opened GrantUsage
  import opened GrantRequests
  import opened SqlLedger

  /** The rows are the usage rows of the mandate that count, with the time they were reserved at. */
  ghost predicate IsJoin(t: Tables, mandateId: string, rows: map<string, JoinedRow>) {
    forall id :: JoinedAt(t, mandateId, rows, id)
  }

  predicate JoinedAt(t: Tables, mandateId: string, rows: map<string, JoinedRow>, id: string) {
    && (id in rows <==>
          && id in t.reservations && id in t.usage && mandateId in t.usage[id]
          && (t.usage[id][mandateId].status == Status.Committed || t.usage[id][mandateId].status == Status.Reserved))
    && (id in rows ==> rows[id].usage == t.usage[id][mandateId].usage && rows[id].reservedAt == t.reservations[id].reservedAt)
  }

  lemma JoinIsJoined(t: Tables, mandateId: string, rows: map<string, JoinedRow>)
    requires IsJoin(t, mandateId, rows)
    ensures rows == Joined(t, mandateId)
  {
    var joined := Joined(t, mandateId);
    forall id ensures id in rows <==> id in joined { assert JoinedAt(t, mandateId, rows, id); }
    forall id | id in rows ensures rows[id] == joined[id] { assert JoinedAt(t, mandateId, rows, id); }
  }

  predicate Counting(row: JoinedRow, start: Option<int>) { start.None? || start.value <= row.reservedAt }

  function RowCount(start: Option<int>): JoinedRow -> int { (row: JoinedRow) => if Counting(row, start) then row.usage.count else 0 }

  function RowUnits(start: Option<int>): JoinedRow -> int { (row: JoinedRow) => if Counting(row, start) then UnitsOf(row.usage) else 0 }

  /** What counts and what is asked are together within the limit. */
  ghost predicate WithinJoin(rows: map<string, JoinedRow>, a: Ask, limit: Limit, start: Option<int>) {
    && (forall id | id in rows && Counting(rows[id], start) :: ReadableText(rows[id].usage))
    && (limit.maxCount.Some? ==> Sum(rows, RowCount(start)) + a.delta.count <= limit.maxCount.value)
    && (limit.maxTotal.Some? ==>
          && ReadableText(a.delta) && limit.maxTotal.value != "" && AllDigits(limit.maxTotal.value)
          && Sum(rows, RowUnits(start)) + UnitsOf(a.delta) <= NatOf(limit.maxTotal.value))
  }

  lemma JoinSums(t: Tables, mandateId: string, start: Option<int>)
    ensures JoinedSum(t, mandateId, start, Count) == Sum(Joined(t, mandateId), RowCount(start))
    ensures JoinedSum(t, mandateId, start, Total) == Sum(Joined(t, mandateId), RowUnits(start))
  {
    var rows := Joined(t, mandateId);
    SumMatch(rows, JoinedCharge(start, Count), rows, RowCount(start));
    SumMatch(rows, JoinedCharge(start, Total), rows, RowUnits(start));
  }

  lemma JoinLimitExactly(t: Tables, a: Ask, rows: map<string, JoinedRow>, limit: Limit, start: Option<int>)
    requires IsJoin(t, a.mandateId, rows) && WindowFrom(a.now, limit.windowMs, start)
    ensures SqlLimitError(t, a.mandateId, a.delta, limit, a.now).None? <==> WithinJoin(rows, a, limit, start)
  {
    WindowIsUnique(a.now, limit.windowMs, start);
    JoinIsJoined(t, a.mandateId, rows);
    JoinSums(t, a.mandateId, start);
    hide Joined, JoinedSum, WindowStart, WindowFrom, IsJoin;
  }

  function RowIdOf(a: Ask): string { "grant:" + a.runId + ":" + a.stepId + ":" + a.mandateId + ":" + a.actionDigest + ":" + Show(a.now) }

  /** The row that holds what was asked, until its time to live is over. */
  predicate RowHoldsAsked(row: ReservationRow, a: Ask) {
    && row.runId == a.runId && row.status == Status.Reserved && row.reservedAt == a.now && row.expiresAt == a.now + a.ttlMs && row.receipt.None?
    && row.record.GrantRecord? && row.record.stepId == a.stepId && row.record.mandateId == a.mandateId
    && row.record.actionDigest == a.actionDigest && row.record.delta == a.delta
  }

  predicate RowBoundTo(row: ReservationRow, a: Ask) {
    && row.record.GrantRecord? && row.runId == a.runId && row.record.stepId == a.stepId && row.record.mandateId == a.mandateId
    && row.record.actionDigest == a.actionDigest
  }

  /**
   * Exactly when the database grants a request anew: its id is not that of a reserved row,
   * overdue or not, and there is no limit or what counts and what is asked are together within
   * it. For a new id the two rows that hold the request are inserted, and nothing else changes;
   * a request that is not granted changes nothing.
   */
  lemma RowGrantedExactly(t: Tables, a: Ask, rows: map<string, JoinedRow>, start: Option<int>)
    requires IsJoin(t, a.mandateId, rows) && (a.limit.Some? ==> WindowFrom(a.now, a.limit.value.windowMs, start))
    ensures var (after, r), id := SqlAuthorize(t, a), RowIdOf(a);
            var live := id in t.reservations && t.reservations[id].status == Status.Reserved;
            var granted := !live && (a.limit.None? || WithinJoin(rows, a, a.limit.value, start));
            && (r.Ok? <==> granted || (live && RowBoundTo(t.reservations[id], a)))
            && (granted ==> RowHoldsAsked(r.value, a))
            && (granted && id !in t.reservations && id !in t.usage ==>
                  after == Tables(t.reservations[id := r.value], t.usage[id := map[a.mandateId := UsageRow(a.delta, Status.Reserved)]]))
            && (!granted ==> after == t)
            && (live && RowBoundTo(t.reservations[id], a) ==> r.value == t.reservations[id])
            && (live && !RowBoundTo(t.reservations[id], a) ==> r == Err(RowCollision))
  {
    if a.limit.Some? { JoinLimitExactly(t, a, rows, a.limit.value, start); }
    assert RowIdOf(a) == SqlGrantId(a);
    NewRows(a);
    hide SqlLimitError, WithinJoin, IsJoin, WindowFrom, SqlGrantId, RowIdOf, AddRows;
  }

  lemma NewRows(a: Ask)
    ensures AddRows(map[], [MandateUsage(a.mandateId, a.delta)]) == map[a.mandateId := UsageRow(a.delta, Status.Reserved)]
  {
    var deltas := [MandateUsage(a.mandateId, a.delta)];
    assert deltas[..0] == [];
    assert AddRows(map[], deltas[..0]) == map[];
  }

  /** A run reservation under a new id is inserted as it is, reserved at the given time, and every mandate of it reserves its first delta. */
  lemma RunRowWritten(t: Tables, id: string, r: Reservation, reservedAt: int)
    requires id !in t.reservations && id !in t.usage
    ensures var after := SqlApply(t, SqlDoReserve(id, r, reservedAt));
            && id in after.reservations && id in after.usage
            && after.reservations == t.reservations[id := after.reservations[id]] && after.usage == t.usage[id := after.usage[id]]
            && var row := after.reservations[id];
            && row.runId == r.runId && row.status == Status.Reserved && row.reservedAt == reservedAt && row.expiresAt == r.expiresAt
            && row.receipt.None? && row.record == RunRecord(r.effects, r.usageDeltas)
            && forall m :: Lookup(after.usage[id], m) == RowOfFirst(Coalesce(r.usageDeltas, []), m)
  {
    var deltas := Coalesce(r.usageDeltas, []);
    forall m ensures Lookup(AddRows(map[], deltas), m) == RowOfFirst(deltas, m) { FirstIsRow(deltas, m); }
    hide AddRows, RowOfFirst;
  }

  /** The row a mandate gets from the first delta given for it. */
  function RowOfFirst(deltas: seq<MandateUsage>, mandateId: string): Option<UsageRow> {
    if deltas == [] then None
    else if deltas[0].mandateId == mandateId then Some(UsageRow(deltas[0].delta, Status.Reserved))
    else RowOfFirst(deltas[1..], mandateId)
  }

  lemma {:induction false} RowOfFirstSnoc(deltas: seq<MandateUsage>, last: MandateUsage, mandateId: string)
    ensures RowOfFirst(deltas + [last], mandateId)
         == if RowOfFirst(deltas, mandateId).Some? then RowOfFirst(deltas, mandateId)
            else if last.mandateId == mandateId then Some(UsageRow(last.delta, Status.Reserved)) else None
  {
    if deltas == [] {
      assert [] + [last] == [last] && [last][1..] == [];
    } else {
      assert (deltas + [last])[1..] == deltas[1..] + [last];
      RowOfFirstSnoc(deltas[1..], last, mandateId);
    }
  }

  lemma {:induction false} FirstIsRow(deltas: seq<MandateUsage>, mandateId: string)
    ensures Lookup(AddRows(map[], deltas), mandateId) == RowOfFirst(deltas, mandateId)
  {
    if deltas != [] {
      var init, last := deltas[..|deltas| - 1], deltas[|deltas| - 1];
      assert deltas == init + [last];
      FirstIsRow(init, mandateId);
      RowOfFirstSnoc(init, last, mandateId);
      hide RowOfFirst;
    }
  }
}
