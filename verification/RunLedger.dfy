/**
 * MemoryRunStateStore: reservations of an autonomous run and the totals kept beside them.
 * Each method is one atomic step; `now` is the reading of the injected clock.
 */
module RunLedger {
  import opened Outcomes
  import opened Digits
  import opened Decimals
  import opened ScaledAmounts
  import opened Settlement
  import opened Sums

  datatype Status = Reserved | Committed | Aborted | Unknown

  /** The part of a receipt only a settlement writes. */
  datatype Settled = Settled(
    settlementId: string, dispatch: DispatchState, outcome: TerminalOutcome, actual: Option<ActualConsumption>,
    reservedUsage: Usage, releasedUsage: Usage)

  datatype Receipt = Receipt(committedAt: int, effects: Option<StepEffects>, settled: Option<Settled>)

  datatype Reservation = Reservation(
    runId: string, stepId: string, actionDigest: string, effects: Option<StepEffects>, usageDeltas: Option<seq<MandateUsage>>,
    expiresAt: int, status: Status, receipt: Option<Receipt>)

  datatype Totals = Totals(
    committedSteps: int, reservedSteps: int, abortedSteps: int,
    spentByToken: map<string, string>, feesByToken: map<string, string>, outstandingByToken: map<string, string>)

  datatype Run = Run(profileId: string, grantProofIds: seq<string>, startedAt: int, totals: Totals, usedNonces: seq<string>)

  datatype Ledger = Ledger(runs: map<string, Run>, reservations: map<string, Reservation>)

  datatype RunError = RunExists | RunNotFound | NotFound | WrongStatus | ReservationExpired | AlreadySettled | BadRenewal
                    | Invalid(error: SettlementError)

  const ZERO_TOTALS := Totals(0, 0, 0, map[], map[], map[])
  const EMPTY_LEDGER := Ledger(map[], map[])

  // ---- Folding a receipt into the totals ----------------------------------

  /** The three kinds of amounts a receipt moves into the totals; a channel moves the amount '0'. */
  datatype Column = Spends | Fees | Channels

  function Entries(effects: Option<StepEffects>, c: Column): seq<Spend> {
    match c
    case Spends => SpendsOf(effects)
    case Fees => FeesOf(effects)
    case Channels =>
      var ids := if effects.Some? then Coalesce(effects.value.channels, []) else [];
      seq(|ids|, i requires 0 <= i < |ids| => Spend(ids[i], "0"))
  }

  function ColumnOf(t: Totals, c: Column): map<string, string> {
    match c
    case Spends => t.spentByToken
    case Fees => t.feesByToken
    case Channels => t.outstandingByToken
  }

  function AddEntry(amounts: map<string, string>, e: Spend): map<string, string> {
    amounts[e.tokenId := Accumulate(Lookup(amounts, e.tokenId), e.amount)]
  }

  function Fold(amounts: map<string, string>, entries: seq<Spend>): map<string, string> {
    if entries == [] then amounts
    else AddEntry(Fold(amounts, entries[..|entries| - 1]), entries[|entries| - 1])
  }

  /** Math.max(0, n) */
  function Clamp(n: int): int { if n > 0 then n else 0 }

  function CommitTotals(t: Totals, effects: Option<StepEffects>): Totals {
    Totals(t.committedSteps + 1, Clamp(t.reservedSteps - 1), t.abortedSteps,
           Fold(t.spentByToken, Entries(effects, Spends)), Fold(t.feesByToken, Entries(effects, Fees)),
           Fold(t.outstandingByToken, Entries(effects, Channels)))
  }

  function AbortTotals(t: Totals): Totals {
    t.(abortedSteps := t.abortedSteps + 1, reservedSteps := Clamp(t.reservedSteps - 1))
  }

  // ---- The steps ----------------------------------------------------------

  function PutTotals(runs: map<string, Run>, runId: string, totals: Totals): map<string, Run>
    requires runId in runs
  {
    runs[runId := runs[runId].(totals := totals)]
  }

  function CloseCommitted(l: Ledger, id: string, receipt: Receipt): Ledger
    requires id in l.reservations
  {
    var res := l.reservations[id];
    Ledger(if res.runId in l.runs then PutTotals(l.runs, res.runId, CommitTotals(l.runs[res.runId].totals, receipt.effects)) else l.runs,
           l.reservations[id := res.(status := Status.Committed, receipt := Some(receipt))])
  }

  function CloseAborted(l: Ledger, id: string, receipt: Option<Receipt>): Ledger
    requires id in l.reservations
  {
    var res := l.reservations[id];
    Ledger(if res.runId in l.runs then PutTotals(l.runs, res.runId, AbortTotals(l.runs[res.runId].totals)) else l.runs,
           l.reservations[id := res.(status := Status.Aborted, receipt := receipt)])
  }

  predicate Overdue(r: Reservation, now: int) { r.status.Reserved? && now > r.expiresAt }

  /** A reservation found overdue becomes outcome-unknown. */
  function Expired(r: Reservation, now: int): Reservation {
    if Overdue(r, now) then r.(status := Unknown) else r
  }

  function Expire(l: Ledger, now: int, id: string): Ledger
    requires id in l.reservations
  {
    l.(reservations := l.reservations[id := Expired(l.reservations[id], now)])
  }

  function OpenRun(l: Ledger, runId: string, run: Run): (Ledger, Option<RunError>) {
    if runId in l.runs then (l, Some(RunExists)) else (l.(runs := l.runs[runId := run]), None)
  }

  function Reserve(l: Ledger, id: string, r: Reservation): Ledger {
    if id in l.reservations && l.reservations[id].status.Reserved? then l
    else
      var runs := if r.runId in l.runs then
                    var t := l.runs[r.runId].totals;
                    PutTotals(l.runs, r.runId, t.(reservedSteps := t.reservedSteps + 1))
                  else l.runs;
      Ledger(runs, l.reservations[id := r])
  }

  function Commit(l: Ledger, now: int, id: string, receipt: Receipt): (Ledger, Option<RunError>) {
    if id !in l.reservations then (l, Some(NotFound))
    else if !l.reservations[id].status.Reserved? then (l, Some(WrongStatus))
    else if now > l.reservations[id].expiresAt then (Expire(l, now, id), Some(ReservationExpired))
    else (CloseCommitted(l, id, receipt), None)
  }

  function Abort(l: Ledger, id: string): (Ledger, Option<RunError>) {
    if id !in l.reservations then (l, Some(NotFound))
    else if !l.reservations[id].status.Reserved? then (l, None)
    else (CloseAborted(l, id, l.reservations[id].receipt), None)
  }

  predicate Asked(r: Reservation, runId: Option<string>) { runId.None? || r.runId == runId.value }

  function Recovered(r: Reservation, now: int, runId: Option<string>): Reservation {
    if Asked(r, runId) then Expired(r, now) else r
  }

  function Recover(l: Ledger, now: int, runId: Option<string>): Ledger {
    l.(reservations := map id | id in l.reservations :: Recovered(l.reservations[id], now, runId))
  }

  datatype Verdict = Completed | DefinitelyNotExecuted

  function Reconcile(l: Ledger, now: int, id: string, verdict: Verdict, receipt: Option<Receipt>): (Ledger, Option<RunError>) {
    if id !in l.reservations then (l, Some(NotFound))
    else
      var l1 := Expire(l, now, id);
      if !l1.reservations[id].status.Unknown? then (l1, Some(WrongStatus))
      else if verdict.DefinitelyNotExecuted? then (CloseAborted(l1, id, l1.reservations[id].receipt), None)
      else (CloseCommitted(l1, id, Coalesce(receipt, Receipt(now, l1.reservations[id].effects, None))), None)
  }

  function SettledEffects(res: Reservation, i: Instruction): Option<StepEffects> {
    match i.disposition
    case ReleaseNonexecution => Some(StepEffects([], Some([]), Some([])))
    case CommitReserved => res.effects
    case SettleActual =>
      if i.actual.None? then Some(StepEffects([], None, Some([])))
      else Some(StepEffects(i.actual.value.spends, i.actual.value.fees, Some([])))
  }

  function UsageReleased(i: Instruction, reserved: Usage, actual: Option<Usage>): Result<Usage, SettlementError> {
    if i.disposition.CommitReserved? then Ok(Usage(0, if reserved.amount.Some? then Some("0") else None))
    else ReleasedUsage(reserved, actual)
  }

  /** The receipt a settlement writes, or the error it throws before writing anything. */
  function SettlementReceipt(res: Reservation, now: int, i: Instruction): Result<Receipt, SettlementError> {
    var check := SettlementCheck(i, res.effects, res.usageDeltas);
    var reserved := UsageTotal(Coalesce(res.usageDeltas, []));
    var actual := if i.actual.Some? then UsageTotal(i.actual.value.mandateUsage) else Ok(Usage(0, None));
    if check.Some? then Err(check.value)
    else if reserved.Err? then Err(reserved.error)
    else if actual.Err? then Err(actual.error)
    else
      var released := UsageReleased(i, reserved.value, if i.actual.Some? then Some(actual.value) else None);
      if released.Err? then Err(released.error)
      else Ok(Receipt(now, SettledEffects(res, i),
                      Some(Settled(i.settlementId, i.dispatch, i.outcome, i.actual, reserved.value, released.value))))
  }

  predicate SettledBy(res: Reservation, settlementId: string) {
    res.receipt.Some? && res.receipt.value.settled.Some? && res.receipt.value.settled.value.settlementId == settlementId
  }

  function Settle(l: Ledger, now: int, i: Instruction): (Ledger, Result<Receipt, RunError>) {
    if i.reservationId !in l.reservations then (l, Err(NotFound))
    else
      var id, res := i.reservationId, l.reservations[i.reservationId];
      if SettledBy(res, i.settlementId) then (l, Ok(res.receipt.value))
      else if res.status.Committed? || res.status.Aborted? then (l, Err(AlreadySettled))
      else
        var l1 := Expire(l, now, id);
        var receipt := SettlementReceipt(l1.reservations[id], now, i);
        if receipt.Err? then (l1, Err(Invalid(receipt.error)))
        else if i.disposition.ReleaseNonexecution? then (CloseAborted(l1, id, Some(receipt.value)), Ok(receipt.value))
        else (CloseCommitted(l1, id, receipt.value), Ok(receipt.value))
  }

  function Renew(l: Ledger, now: int, id: string, extendsTo: int): (Ledger, Option<RunError>) {
    if id !in l.reservations then (l, Some(NotFound))
    else if !l.reservations[id].status.Reserved? then (l, Some(WrongStatus))
    else if now > l.reservations[id].expiresAt then (Expire(l, now, id), Some(ReservationExpired))
    else if extendsTo <= l.reservations[id].expiresAt then (l, Some(BadRenewal))
    else (l.(reservations := l.reservations[id := l.reservations[id].(expiresAt := extendsTo)]), None)
  }

  /** A nonce is accepted once per run. */
  function UseNonce(l: Ledger, runId: string, nonce: string): (Ledger, Result<bool, RunError>) {
    if runId !in l.runs then (l, Err(RunNotFound))
    else if nonce in l.runs[runId].usedNonces then (l, Ok(false))
    else (l.(runs := l.runs[runId := l.runs[runId].(usedNonces := l.runs[runId].usedNonces + [nonce])]), Ok(true))
  }

  // ---- The store ----------------------------------------------------------

  class MemoryRunStateStore {
    var runs: map<string, Run>
    var reservations: map<string, Reservation>

    function Contents(): Ledger
      reads this
    {
      Ledger(runs, reservations)
    }

    constructor ()
      ensures Contents() == EMPTY_LEDGER
    {
      runs := map[];
      reservations := map[];
    }

    method CreateRun(runId: string, run: Run) returns (error: Option<RunError>)
      modifies this
      ensures (Contents(), error) == OpenRun(old(Contents()), runId, run)
    {
      if runId in runs { return Some(RunExists); }
      runs := runs[runId := run];
      return None;
    }

    method ReserveStep(id: string, r: Reservation)
      modifies this
      ensures Contents() == Reserve(old(Contents()), id, r)
    {
      if id in reservations && reservations[id].status.Reserved? { return; }
      reservations := reservations[id := r];
      if r.runId in runs {
        var t := runs[r.runId].totals;
        runs := PutTotals(runs, r.runId, t.(reservedSteps := t.reservedSteps + 1));
      }
    }

    /** One of the loops that fold a receipt's effects into the run totals. */
    static method FoldEntries(amounts: map<string, string>, entries: seq<Spend>) returns (r: map<string, string>)
      ensures r == Fold(amounts, entries)
    {
      hide Accumulate;
      r := amounts;
      for k := 0 to |entries|
        invariant r == Fold(amounts, entries[..k])
      {
        assert entries[..k + 1][..k] == entries[..k];
        var e := entries[k];
        r := r[e.tokenId := Accumulate(Lookup(r, e.tokenId), e.amount)];
      }
      assert entries[..|entries|] == entries;
    }

    method WriteCommitted(id: string, receipt: Receipt)
      requires id in reservations
      modifies this
      ensures Contents() == CloseCommitted(old(Contents()), id, receipt)
    {
      hide Fold, Entries;
      var res := reservations[id];
      reservations := reservations[id := res.(status := Status.Committed, receipt := Some(receipt))];
      if res.runId in runs {
        var t := runs[res.runId].totals;
        var spent := FoldEntries(t.spentByToken, Entries(receipt.effects, Spends));
        var fees := FoldEntries(t.feesByToken, Entries(receipt.effects, Fees));
        var outstanding := FoldEntries(t.outstandingByToken, Entries(receipt.effects, Channels));
        runs := PutTotals(runs, res.runId,
                          Totals(t.committedSteps + 1, Clamp(t.reservedSteps - 1), t.abortedSteps, spent, fees, outstanding));
      }
    }

    method WriteAborted(id: string, receipt: Option<Receipt>)
      requires id in reservations
      modifies this
      ensures Contents() == CloseAborted(old(Contents()), id, receipt)
    {
      var res := reservations[id];
      reservations := reservations[id := res.(status := Status.Aborted, receipt := receipt)];
      if res.runId in runs {
        var t := runs[res.runId].totals;
        runs := PutTotals(runs, res.runId, t.(abortedSteps := t.abortedSteps + 1, reservedSteps := Clamp(t.reservedSteps - 1)));
      }
    }

    method CommitStep(now: int, id: string, receipt: Receipt) returns (error: Option<RunError>)
      modifies this
      ensures (Contents(), error) == Commit(old(Contents()), now, id, receipt)
    {
      if id !in reservations { return Some(NotFound); }
      var res := reservations[id];
      if !res.status.Reserved? { return Some(WrongStatus); }
      if now > res.expiresAt {
        reservations := reservations[id := res.(status := Unknown)];
        return Some(ReservationExpired);
      }
      WriteCommitted(id, receipt);
      return None;
    }

    method AbortStep(id: string) returns (error: Option<RunError>)
      modifies this
      ensures (Contents(), error) == Abort(old(Contents()), id)
    {
      if id !in reservations { return Some(NotFound); }
      if !reservations[id].status.Reserved? { return None; }
      WriteAborted(id, reservations[id].receipt);
      return None;
    }

    /** Also returns the ids left for out-of-band settlement. */
    method RecoverReservations(now: int, runId: Option<string>) returns (unsettled: set<string>)
      modifies this
      ensures Contents() == Recover(old(Contents()), now, runId)
      ensures unsettled == set id | id in reservations && reservations[id].status.Unknown? && Asked(reservations[id], runId)
    {
      unsettled := {};
      ghost var was := reservations;
      var left := reservations.Keys;
      while left != {}
        invariant left <= was.Keys == reservations.Keys && runs == old(runs)
        invariant forall id | id in was :: reservations[id] == if id in left then was[id] else Recovered(was[id], now, runId)
        invariant forall id :: id in unsettled <==>
          id in reservations && id !in left && reservations[id].status.Unknown? && Asked(reservations[id], runId)
      {
        var id :| id in left;
        left := left - {id};
        var res := reservations[id];
        if runId.None? || res.runId == runId.value {
          if res.status.Reserved? && now > res.expiresAt {
            res := res.(status := Unknown);
            reservations := reservations[id := res];
          }
          if res.status.Unknown? { unsettled := unsettled + {id}; }
        }
      }
    }

    method MarkIfOverdue(now: int, id: string)
      requires id in reservations
      modifies this
      ensures Contents() == Expire(old(Contents()), now, id)
    {
      var res := reservations[id];
      if res.status.Reserved? && now > res.expiresAt {
        reservations := reservations[id := res.(status := Unknown)];
      } else {
        assert reservations[id := res] == reservations;
      }
    }

    method ReconcileReservation(now: int, id: string, verdict: Verdict, receipt: Option<Receipt>) returns (error: Option<RunError>)
      modifies this
      ensures (Contents(), error) == Reconcile(old(Contents()), now, id, verdict, receipt)
    {
      hide CloseCommitted, CloseAborted;
      if id !in reservations { return Some(NotFound); }
      MarkIfOverdue(now, id);
      var res := reservations[id];
      if !res.status.Unknown? { return Some(WrongStatus); }
      if verdict.DefinitelyNotExecuted? {
        WriteAborted(id, res.receipt);
      } else {
        WriteCommitted(id, Coalesce(receipt, Receipt(now, res.effects, None)));
      }
      return None;
    }

    method SettleReservation(now: int, i: Instruction) returns (r: Result<Receipt, RunError>)
      modifies this
      ensures (Contents(), r) == Settle(old(Contents()), now, i)
    {
      hide CloseCommitted, CloseAborted, SettlementCheck, UsageTotal, ReleasedUsage;
      if i.reservationId !in reservations { return Err(NotFound); }
      var id, res := i.reservationId, reservations[i.reservationId];
      if SettledBy(res, i.settlementId) { return Ok(res.receipt.value); }
      if res.status.Committed? || res.status.Aborted? { return Err(AlreadySettled); }
      MarkIfOverdue(now, id);
      res := reservations[id];
      var complaint := AssertSettlementInstruction(i, res.effects, res.usageDeltas);
      if complaint.Some? { return Err(Invalid(complaint.value)); }
      var reserved := SumReservedUsage(Coalesce(res.usageDeltas, []));
      if reserved.Err? { return Err(Invalid(reserved.error)); }
      var actual := None;
      if i.actual.Some? {
        var total := SumReservedUsage(i.actual.value.mandateUsage);
        if total.Err? { return Err(Invalid(total.error)); }
        actual := Some(total.value);
      }
      var released := UsageReleased(i, reserved.value, actual);
      if released.Err? { return Err(Invalid(released.error)); }
      var receipt := Receipt(now, SettledEffects(res, i),
                             Some(Settled(i.settlementId, i.dispatch, i.outcome, i.actual, reserved.value, released.value)));
      if i.disposition.ReleaseNonexecution? {
        WriteAborted(id, Some(receipt));
      } else {
        WriteCommitted(id, receipt);
      }
      return Ok(receipt);
    }

    method RenewReservation(now: int, id: string, extendsTo: int) returns (error: Option<RunError>)
      modifies this
      ensures (Contents(), error) == Renew(old(Contents()), now, id, extendsTo)
    {
      if id !in reservations { return Some(NotFound); }
      var res := reservations[id];
      if !res.status.Reserved? { return Some(WrongStatus); }
      if now > res.expiresAt {
        reservations := reservations[id := res.(status := Unknown)];
        return Some(ReservationExpired);
      }
      if extendsTo <= res.expiresAt { return Some(BadRenewal); }
      reservations := reservations[id := res.(expiresAt := extendsTo)];
      return None;
    }

    method CheckNonce(runId: string, nonce: string) returns (unused: Result<bool, RunError>)
      modifies this
      ensures (Contents(), unused) == UseNonce(old(Contents()), runId, nonce)
    {
      if runId !in runs { return Err(RunNotFound); }
      var run := runs[runId];
      if nonce in run.usedNonces { return Ok(false); }
      runs := runs[runId := run.(usedNonces := run.usedNonces + [nonce])];
      return Ok(true);
    }
  }

  // ---- Agreement of totals and records ------------------------------------

  /** What the totals keep count of. */
  datatype Tally = HeldSteps | CommittedSteps | AbortedSteps | Moved(column: Column, tokenId: string)

  /** The value the totals record, amounts in units of 10^-8. */
  function Recorded(t: Totals, y: Tally): int {
    match y
    case HeldSteps => t.reservedSteps
    case CommittedSteps => t.committedSteps
    case AbortedSteps => t.abortedSteps
    case Moved(c, tok) => StoredUnits(Lookup(ColumnOf(t, c), tok))
  }

  predicate IsHeld(r: Reservation) { r.status.Reserved? || r.status.Unknown? }

  /** The units of 10^-8 the entries of one token add up to, each cut on its own. */
  function EntryUnits(entries: seq<Spend>, tok: string): nat {
    if entries == [] then 0
    else
      var last := entries[|entries| - 1];
      EntryUnits(entries[..|entries| - 1], tok) + if last.tokenId == tok then ToScaled(last.amount) else 0
  }

  function ReceiptUnits(r: Reservation, c: Column, tok: string): nat {
    if r.receipt.Some? then EntryUnits(Entries(r.receipt.value.effects, c), tok) else 0
  }

  /** What one reservation contributes to a tally of a run. */
  function Share(r: Reservation, runId: string, y: Tally): nat {
    if r.runId != runId then 0
    else match y
    case HeldSteps => if IsHeld(r) then 1 else 0
    case CommittedSteps => if r.status.Committed? then 1 else 0
    case AbortedSteps => if r.status.Aborted? then 1 else 0
    case Moved(c, tok) => if r.status.Committed? then ReceiptUnits(r, c, tok) else 0
  }

  function ShareOf(runId: string, y: Tally): Reservation -> int { (r: Reservation) => Share(r, runId, y) }

  /** The tally recomputed from the reservations. */
  ghost function Recomputed(l: Ledger, runId: string, y: Tally): int { Sum(l.reservations, ShareOf(runId, y)) }

  ghost predicate TallyAgrees(l: Ledger, runId: string, y: Tally)
    requires runId in l.runs
  {
    Recorded(l.runs[runId].totals, y) == Recomputed(l, runId, y)
  }

  predicate IsClosed(r: Reservation) { r.status.Committed? || r.status.Aborted? }

  /** Only closed reservations carry a receipt. */
  predicate ReceiptMeansClosed(r: Reservation) { r.receipt.Some? ==> IsClosed(r) }

  /** Every total of every run is what its reservations add up to. */
  ghost predicate Agrees(l: Ledger) {
    && (forall id | id in l.reservations :: l.reservations[id].runId in l.runs && ReceiptMeansClosed(l.reservations[id]))
    && forall runId, y | runId in l.runs :: TallyAgrees(l, runId, y)
  }

  lemma {:induction false} FoldUnits(amounts: map<string, string>, entries: seq<Spend>, tok: string)
    ensures StoredUnits(Lookup(Fold(amounts, entries), tok)) == StoredUnits(Lookup(amounts, tok)) + EntryUnits(entries, tok)
  {
    hide Accumulate, StoredUnits, ToScaled;
    if entries != [] {
      var init, last := entries[..|entries| - 1], entries[|entries| - 1];
      FoldUnits(amounts, init, tok);
      var before := Lookup(Fold(amounts, init), last.tokenId);
      AccumulateAdds(before, last.amount);
      StoredIsScaled(Accumulate(before, last.amount));
    }
  }

  lemma StoredIsScaled(a: string)
    ensures StoredUnits(Some(a)) == ToScaled(a)
  {}

  /** One reservation and the totals of its run change together. */
  lemma ReplaceAgrees(l: Ledger, id: string, r: Reservation, totals: Totals)
    requires Agrees(l) && id in l.reservations && r.runId == l.reservations[id].runId && ReceiptMeansClosed(r)
    requires forall y :: Recorded(totals, y) - Recorded(l.runs[r.runId].totals, y)
                      == Share(r, r.runId, y) - Share(l.reservations[id], r.runId, y)
    ensures Agrees(Ledger(PutTotals(l.runs, r.runId, totals), l.reservations[id := r]))
  {
    hide Recorded, Share;
    var l' := Ledger(PutTotals(l.runs, r.runId, totals), l.reservations[id := r]);
    forall runId, y | runId in l'.runs ensures TallyAgrees(l', runId, y) {
      assert TallyAgrees(l, runId, y);
      SumReplace(l.reservations, ShareOf(runId, y), id, r);
      OtherRun(l.reservations[id], r, runId, y);
    }
  }

  lemma OtherRun(r: Reservation, r': Reservation, runId: string, y: Tally)
    ensures r.runId == r'.runId != runId ==> Share(r, runId, y) == Share(r', runId, y) == 0
  {}

  /** A held reservation is counted: Math.max(0, reservedSteps - 1) never clamps. */
  lemma ClampNeverActs(l: Ledger, id: string)
    requires Agrees(l) && id in l.reservations && IsHeld(l.reservations[id])
    ensures l.reservations[id].runId in l.runs
    ensures var n := l.runs[l.reservations[id].runId].totals.reservedSteps; n >= 1 && Clamp(n - 1) == n - 1
  {
    var runId := l.reservations[id].runId;
    assert TallyAgrees(l, runId, HeldSteps);
    SumAtLeast(l.reservations, ShareOf(runId, HeldSteps), id);
  }

  lemma CommittedTotals(t: Totals, r: Reservation, receipt: Receipt, y: Tally)
    requires IsHeld(r) && t.reservedSteps >= 1
    ensures Recorded(CommitTotals(t, receipt.effects), y) - Recorded(t, y)
         == Share(r.(status := Status.Committed, receipt := Some(receipt)), r.runId, y) - Share(r, r.runId, y)
  {
    hide Fold, EntryUnits, StoredUnits, Entries;
    if y.Moved? { FoldUnits(ColumnOf(t, y.column), Entries(receipt.effects, y.column), y.tokenId); }
  }

  lemma CloseCommittedAgrees(l: Ledger, id: string, receipt: Receipt)
    requires Agrees(l) && id in l.reservations && IsHeld(l.reservations[id])
    ensures Agrees(CloseCommitted(l, id, receipt))
  {
    var r := l.reservations[id];
    ClampNeverActs(l, id);
    var t := l.runs[r.runId].totals;
    hide CommitTotals, Recorded, Share, IsHeld, Agrees, Clamp;
    forall y ensures Recorded(CommitTotals(t, receipt.effects), y) - Recorded(t, y)
                  == Share(r.(status := Status.Committed, receipt := Some(receipt)), r.runId, y) - Share(r, r.runId, y)
    {
      CommittedTotals(t, r, receipt, y);
    }
    ReplaceAgrees(l, id, r.(status := Status.Committed, receipt := Some(receipt)), CommitTotals(t, receipt.effects));
  }

  lemma AbortedTotals(t: Totals, r: Reservation, receipt: Option<Receipt>, y: Tally)
    requires IsHeld(r) && t.reservedSteps >= 1
    ensures Recorded(AbortTotals(t), y) - Recorded(t, y)
         == Share(r.(status := Status.Aborted, receipt := receipt), r.runId, y) - Share(r, r.runId, y)
  {
    hide EntryUnits, StoredUnits, Entries;
  }

  lemma CloseAbortedAgrees(l: Ledger, id: string, receipt: Option<Receipt>)
    requires Agrees(l) && id in l.reservations && IsHeld(l.reservations[id])
    ensures Agrees(CloseAborted(l, id, receipt))
  {
    var r := l.reservations[id];
    ClampNeverActs(l, id);
    var t := l.runs[r.runId].totals;
    hide AbortTotals, Recorded, Share, IsHeld, Agrees, Clamp;
    forall y ensures Recorded(AbortTotals(t), y) - Recorded(t, y)
                  == Share(r.(status := Status.Aborted, receipt := receipt), r.runId, y) - Share(r, r.runId, y)
    {
      AbortedTotals(t, r, receipt, y);
    }
    ReplaceAgrees(l, id, r.(status := Status.Aborted, receipt := receipt), AbortTotals(t));
  }

  /** Changes that leave every share alone: becoming outcome-unknown, a longer lease. */
  lemma SharesKept(l: Ledger, changed: map<string, Reservation>)
    requires Agrees(l) && changed.Keys == l.reservations.Keys
    requires forall id | id in changed :: SameShare(l.reservations[id], changed[id])
    ensures Agrees(l.(reservations := changed))
  {
    hide Recorded;
    forall runId, y | runId in l.runs ensures TallyAgrees(l.(reservations := changed), runId, y) {
      assert TallyAgrees(l, runId, y);
      SumSame(l.reservations, changed, ShareOf(runId, y));
    }
  }

  predicate SameShare(r: Reservation, r': Reservation) {
    r.runId == r'.runId && IsHeld(r) == IsHeld(r') && r.status.Committed? == r'.status.Committed?
    && r.status.Aborted? == r'.status.Aborted? && r.receipt == r'.receipt
  }

  lemma ExpireAgrees(l: Ledger, now: int, id: string)
    requires Agrees(l) && id in l.reservations
    ensures Agrees(Expire(l, now, id)) && SameShare(l.reservations[id], Expired(l.reservations[id], now))
  {
    hide Agrees;
    SharesKept(l, l.reservations[id := Expired(l.reservations[id], now)]);
  }

  // ---- Runs of the store --------------------------------------------------

  datatype Op =
    | DoOpenRun(runId: string, run: Run)
    | DoReserve(id: string, reservation: Reservation)
    | DoCommit(now: int, id: string, committed: Receipt)
    | DoAbort(id: string)
    | DoRecover(now: int, only: Option<string>)
    | DoReconcile(now: int, id: string, verdict: Verdict, receipt: Option<Receipt>)
    | DoSettle(now: int, instruction: Instruction)
    | DoRenew(now: int, id: string, extendsTo: int)
    | DoUseNonce(runId: string, nonce: string)

  function Apply(l: Ledger, op: Op): Ledger {
    match op
    case DoOpenRun(runId, run) => OpenRun(l, runId, run).0
    case DoReserve(id, r) => Reserve(l, id, r)
    case DoCommit(now, id, receipt) => Commit(l, now, id, receipt).0
    case DoAbort(id) => Abort(l, id).0
    case DoRecover(now, only) => Recover(l, now, only)
    case DoReconcile(now, id, verdict, receipt) => Reconcile(l, now, id, verdict, receipt).0
    case DoSettle(now, i) => Settle(l, now, i).0
    case DoRenew(now, id, extendsTo) => Renew(l, now, id, extendsTo).0
    case DoUseNonce(runId, nonce) => UseNonce(l, runId, nonce).0
  }

  /** Runs start from zero; reservations name a live id, which is left alone, or are open ones of a known run under a fresh id. */
  predicate Proper(l: Ledger, op: Op) {
    match op
    case DoOpenRun(_, run) => run.totals == ZERO_TOTALS
    case DoReserve(id, r) =>
      if id in l.reservations then l.reservations[id].status.Reserved? else r.status.Reserved? && r.receipt.None? && r.runId in l.runs
    case _ => true
  }

  function After(l: Ledger, ops: seq<Op>): Ledger
    decreases |ops|
  {
    if ops == [] then l else After(Apply(l, ops[0]), ops[1..])
  }

  predicate AllProper(l: Ledger, ops: seq<Op>)
    decreases |ops|
  {
    ops == [] || (Proper(l, ops[0]) && AllProper(Apply(l, ops[0]), ops[1..]))
  }

  lemma OpenRunAgrees(l: Ledger, runId: string, run: Run)
    requires Agrees(l) && runId !in l.runs && run.totals == ZERO_TOTALS
    ensures Agrees(l.(runs := l.runs[runId := run]))
  {
    var l' := l.(runs := l.runs[runId := run]);
    forall r, y | r in l'.runs ensures TallyAgrees(l', r, y) {
      if r in l.runs {
        assert TallyAgrees(l, r, y);
      } else {
        ToScaledZero();
        hide StoredUnits, ToScaled;
        SumZero(l.reservations, ShareOf(runId, y));
      }
    }
  }

  lemma ReservedTotals(t: Totals, r: Reservation, runId: string, y: Tally)
    requires r.status.Reserved?
    ensures Share(r, runId, y) == if r.runId == runId then Recorded(t.(reservedSteps := t.reservedSteps + 1), y) - Recorded(t, y) else 0
  {
    hide StoredUnits, ReceiptUnits;
  }

  lemma ReserveAgrees(l: Ledger, id: string, r: Reservation)
    requires Agrees(l) && id !in l.reservations && r.status.Reserved? && r.receipt.None? && r.runId in l.runs
    ensures Agrees(Reserve(l, id, r))
  {
    hide Recorded, Share;
    var l' := Reserve(l, id, r);
    forall runId, y | runId in l'.runs ensures TallyAgrees(l', runId, y) {
      assert TallyAgrees(l, runId, y);
      SumInsert(l.reservations, ShareOf(runId, y), id, r);
      ReservedTotals(l.runs[r.runId].totals, r, runId, y);
    }
  }

  /** The tally a reservation counts in. */
  function TallyOf(r: Reservation): Tally {
    match r.status
    case Committed => CommittedSteps
    case Aborted => AbortedSteps
    case _ => HeldSteps
  }

  /** Overwriting a reservation that is not live leaves a total of its run wrong. */
  lemma OverwritingDisagrees(l: Ledger, id: string, r: Reservation)
    requires Agrees(l) && r.status.Reserved? && r.runId in l.runs && id in l.reservations && !l.reservations[id].status.Reserved?
    ensures !Agrees(Reserve(l, id, r))
  {
    var gone, l' := l.reservations[id], Reserve(l, id, r);
    var y := TallyOf(gone);
    SumReplace(l.reservations, ShareOf(gone.runId, y), id, r);
    assert TallyAgrees(l, gone.runId, y);
    assert !TallyAgrees(l', gone.runId, y);
  }

  /**
   * Exactly which ids an open reservation of a known run may use: the totals stay right if and
   * only if the id is fresh or that of a live reservation.
   */
  lemma ReserveAgreesExactly(l: Ledger, id: string, r: Reservation)
    requires Agrees(l) && r.status.Reserved? && r.receipt.None? && r.runId in l.runs
    ensures Agrees(Reserve(l, id, r)) <==> id !in l.reservations || l.reservations[id].status.Reserved?
  {
    if id !in l.reservations {
      ReserveAgrees(l, id, r);
    } else if !l.reservations[id].status.Reserved? {
      OverwritingDisagrees(l, id, r);
    }
    hide Agrees;
  }

  lemma SettleAgrees(l: Ledger, now: int, i: Instruction)
    requires Agrees(l)
    ensures Agrees(Settle(l, now, i).0)
  {
    hide Agrees, CloseCommitted, CloseAborted, SettlementReceipt;
    if i.reservationId in l.reservations {
      var id := i.reservationId;
      ExpireAgrees(l, now, id);
      var l1 := Expire(l, now, id);
      var receipt := SettlementReceipt(l1.reservations[id], now, i);
      if IsHeld(l.reservations[id]) && receipt.Ok? {
        CloseAbortedAgrees(l1, id, Some(receipt.value));
        CloseCommittedAgrees(l1, id, receipt.value);
      }
    }
  }

  lemma ReconcileAgrees(l: Ledger, now: int, id: string, verdict: Verdict, receipt: Option<Receipt>)
    requires Agrees(l)
    ensures Agrees(Reconcile(l, now, id, verdict, receipt).0)
  {
    hide Agrees, CloseCommitted, CloseAborted;
    if id in l.reservations {
      ExpireAgrees(l, now, id);
      var l1 := Expire(l, now, id);
      if l1.reservations[id].status.Unknown? {
        CloseAbortedAgrees(l1, id, l1.reservations[id].receipt);
        CloseCommittedAgrees(l1, id, Coalesce(receipt, Receipt(now, l1.reservations[id].effects, None)));
      }
    }
  }

  lemma NonceAgrees(l: Ledger, runId: string, nonce: string)
    requires Agrees(l)
    ensures Agrees(UseNonce(l, runId, nonce).0)
  {
    hide Recorded;
    var l' := UseNonce(l, runId, nonce).0;
    forall r, y | r in l'.runs ensures TallyAgrees(l', r, y) { assert TallyAgrees(l, r, y); }
  }

  /** Every step keeps the totals equal to their recomputation. */
  lemma StepAgrees(l: Ledger, op: Op)
    requires Agrees(l) && Proper(l, op)
    ensures Agrees(Apply(l, op))
  {
    hide Agrees, CloseCommitted, CloseAborted, Settle, Reconcile, UseNonce;
    match op
    case DoOpenRun(runId, run) => if runId !in l.runs { OpenRunAgrees(l, runId, run); }
    case DoReserve(id, r) => if id !in l.reservations { ReserveAgrees(l, id, r); }
    case DoCommit(now, id, receipt) =>
      if id in l.reservations && l.reservations[id].status.Reserved? {
        ExpireAgrees(l, now, id);
        CloseCommittedAgrees(l, id, receipt);
      }
    case DoAbort(id) =>
      if id in l.reservations && l.reservations[id].status.Reserved? { CloseAbortedAgrees(l, id, l.reservations[id].receipt); }
    case DoRecover(now, only) => SharesKept(l, Recover(l, now, only).reservations);
    case DoReconcile(now, id, verdict, receipt) => ReconcileAgrees(l, now, id, verdict, receipt);
    case DoSettle(now, i) => SettleAgrees(l, now, i);
    case DoRenew(now, id, extendsTo) =>
      if id in l.reservations {
        ExpireAgrees(l, now, id);
        SharesKept(l, l.reservations[id := l.reservations[id].(expiresAt := extendsTo)]);
      }
    case DoUseNonce(runId, nonce) => NonceAgrees(l, runId, nonce);
  }

  lemma {:induction false} RunAgreesFrom(l: Ledger, ops: seq<Op>)
    requires Agrees(l) && AllProper(l, ops)
    ensures Agrees(After(l, ops))
    decreases |ops|
  {
    hide Agrees, Apply, Proper;
    if ops != [] {
      StepAgrees(l, ops[0]);
      RunAgreesFrom(Apply(l, ops[0]), ops[1..]);
    }
  }

  /**
   * In every state the store reaches, the step counts are the numbers of held, committed
   * and aborted reservations, and every stored amount is the sum over committed receipts.
   */
  lemma TotalsAgree(ops: seq<Op>)
    requires AllProper(EMPTY_LEDGER, ops)
    ensures Agrees(After(EMPTY_LEDGER, ops))
  {
    RunAgreesFrom(EMPTY_LEDGER, ops);
  }

  // ---- Closed reservations ------------------------------------------------

  /** No step touches a closed reservation. */
  lemma ClosedIsFinal(l: Ledger, op: Op, id: string)
    requires Proper(l, op) && id in l.reservations && IsClosed(l.reservations[id])
    ensures id in Apply(l, op).reservations && Apply(l, op).reservations[id] == l.reservations[id]
  {
    hide SettlementReceipt, CommitTotals, SettledBy;
  }

  lemma {:induction false} ClosedStays(l: Ledger, ops: seq<Op>, id: string)
    requires AllProper(l, ops) && id in l.reservations && IsClosed(l.reservations[id])
    ensures id in After(l, ops).reservations && After(l, ops).reservations[id] == l.reservations[id]
    decreases |ops|
  {
    hide Apply, Proper;
    if ops != [] {
      ClosedIsFinal(l, ops[0], id);
      ClosedStays(Apply(l, ops[0]), ops[1..], id);
    }
  }

  /**
   * Replaying a settlement after any further steps returns the receipt it first returned
   * and changes nothing.
   */
  lemma ReplayChangesNothing(l: Ledger, now: int, i: Instruction, ops: seq<Op>, later: int)
    requires Agrees(l) && Settle(l, now, i).1.Ok? && AllProper(Settle(l, now, i).0, ops)
    ensures var l' := After(Settle(l, now, i).0, ops); Settle(l', later, i) == (l', Settle(l, now, i).1)
  {
    SettledIsClosed(l, now, i);
    hide *;
    ClosedStays(Settle(l, now, i).0, ops, i.reservationId);
    SettleAgain(After(Settle(l, now, i).0, ops), later, i);
  }

  lemma SettledIsClosed(l: Ledger, now: int, i: Instruction)
    requires Agrees(l) && Settle(l, now, i).1.Ok?
    ensures var l1, id := Settle(l, now, i).0, i.reservationId;
            && id in l1.reservations && IsClosed(l1.reservations[id]) && SettledBy(l1.reservations[id], i.settlementId)
            && l1.reservations[id].receipt == Some(Settle(l, now, i).1.value)
  {
    hide CommitTotals, AbortTotals, SettlementCheck, UsageTotal, UsageReleased, TallyAgrees;
  }

  lemma SettleAgain(l: Ledger, now: int, i: Instruction)
    requires i.reservationId in l.reservations && SettledBy(l.reservations[i.reservationId], i.settlementId)
    ensures Settle(l, now, i) == (l, Ok(l.reservations[i.reservationId].receipt.value))
  {}

  // ---- How far the stored amounts are from the exact sums -----------------

  predicate Priced(entries: seq<Spend>, n: nat) {
    forall k | 0 <= k < |entries| :: IsAmount(entries[k].amount) && |Frac(entries[k].amount)| <= n
  }

  function ExactUnits(entries: seq<Spend>, tok: string, n: nat): nat
    requires Priced(entries, n)
  {
    if entries == [] then 0
    else
      var last := entries[|entries| - 1];
      ExactUnits(entries[..|entries| - 1], tok, n) + if last.tokenId == tok then At(last.amount, n) else 0
  }

  function EntryCount(entries: seq<Spend>, tok: string): nat {
    if entries == [] then 0
    else EntryCount(entries[..|entries| - 1], tok) + if entries[|entries| - 1].tokenId == tok then 1 else 0
  }

  predicate Counts(r: Reservation, runId: string) { r.runId == runId && r.status.Committed? && r.receipt.Some? }

  function EntriesOf(r: Reservation, c: Column): seq<Spend> {
    if r.receipt.Some? then Entries(r.receipt.value.effects, c) else []
  }

  /** The exact amount, and the number, of one reservation's entries of a token. */
  function ExactShare(runId: string, c: Column, tok: string, n: nat): Reservation -> int {
    (r: Reservation) => if Counts(r, runId) && Priced(EntriesOf(r, c), n) then ExactUnits(EntriesOf(r, c), tok, n) else 0
  }

  function CountShare(runId: string, c: Column, tok: string): Reservation -> int {
    (r: Reservation) => if Counts(r, runId) then EntryCount(EntriesOf(r, c), tok) else 0
  }

  lemma {:induction false} EntryLoss(entries: seq<Spend>, tok: string, n: nat)
    requires n >= 8 && Priced(entries, n)
    ensures var cut := EntryUnits(entries, tok) * Pow10(n - 8);
            cut <= ExactUnits(entries, tok, n) <= cut + EntryCount(entries, tok) * Pow10(n - 8)
  {
    hide ToScaled, At, IsAmount, Frac, Pow10;
    if entries != [] {
      var init, last, p := entries[..|entries| - 1], entries[|entries| - 1], Pow10(n - 8);
      EntryLoss(init, tok, n);
      ToScaledFloor(last.amount, n);
      LossStep(EntryUnits(init, tok), ExactUnits(init, tok, n), EntryCount(init, tok), ToScaled(last.amount), At(last.amount, n), p);
    }
  }

  /**
   * The stored amount of a token is never above the exact sum over the committed receipts,
   * and at most k units of 10^-8 below it for k entries (all in units of 10^-n).
   */
  lemma StoredAmountLoss(l: Ledger, runId: string, c: Column, tok: string, n: nat)
    requires Agrees(l) && runId in l.runs && n >= 8
    requires forall id | id in l.reservations && Counts(l.reservations[id], runId) :: Priced(EntriesOf(l.reservations[id], c), n)
    ensures var stored, p := Recorded(l.runs[runId].totals, Moved(c, tok)), Pow10(n - 8);
            var exact, k := Sum(l.reservations, ExactShare(runId, c, tok, n)), Sum(l.reservations, CountShare(runId, c, tok));
            stored * p <= exact <= stored * p + k * p
  {
    assert TallyAgrees(l, runId, Moved(c, tok));
    var f, g, h, p := ShareOf(runId, Moved(c, tok)), ExactShare(runId, c, tok, n), CountShare(runId, c, tok), Pow10(n - 8);
    forall id | id in l.reservations ensures var r := l.reservations[id]; f(r) * p <= g(r) <= f(r) * p + h(r) * p {
      ShareLoss(l.reservations[id], runId, c, tok, n);
    }
    hide *;
    SumBetween(l.reservations, f, g, h, p);
  }

  lemma ShareLoss(r: Reservation, runId: string, c: Column, tok: string, n: nat)
    requires n >= 8 && (Counts(r, runId) ==> Priced(EntriesOf(r, c), n))
    ensures var cut, p := Share(r, runId, Moved(c, tok)), Pow10(n - 8);
            cut * p <= ExactShare(runId, c, tok, n)(r) <= cut * p + CountShare(runId, c, tok)(r) * p
  {
    hide Entries, EntryUnits, ExactUnits, EntryCount, Priced, Pow10;
    if Counts(r, runId) { EntryLoss(EntriesOf(r, c), tok, n); }
  }

  // ---- What a settlement conserves ----------------------------------------

  /** The receipt of a settle-actual instruction carries what was recorded, what was used and what is released. */
  lemma ReceiptCarries(res: Reservation, now: int, i: Instruction)
    requires SettlementReceipt(res, now, i).Ok? && i.disposition.SettleActual?
    ensures i.actual.Some? && SettlementReceipt(res, now, i).value.settled.Some?
    ensures var s := SettlementReceipt(res, now, i).value.settled.value;
            && UsageTotal(Coalesce(res.usageDeltas, [])) == Ok(s.reservedUsage) && UsageTotal(i.actual.value.mandateUsage).Ok?
            && ReleasedUsage(s.reservedUsage, Some(UsageTotal(i.actual.value.mandateUsage).value)) == Ok(s.releasedUsage)
  {
    hide UsageTotal, ActualCheck, ReleasedUsage;
  }

  /** What the receipt releases and the actual usages add up to what it says was reserved. */
  predicate ReceiptConserves(res: Reservation, now: int, i: Instruction, n: nat)
    requires SettlementReceipt(res, now, i).Ok? && i.disposition.SettleActual?
  {
    ReceiptCarries(res, now, i);
    var s, used := SettlementReceipt(res, now, i).value.settled.value, UsageTotal(i.actual.value.mandateUsage).value;
    AmountWithin(s.reservedUsage.amount, n) && AmountWithin(used.amount, n) && Conserved(s.reservedUsage, used, s.releasedUsage, n)
  }

  /**
   * Exactly when a completed settlement conserves usage, for reservations with and without
   * recorded deltas: the actual usages together are within the recorded deltas together.
   */
  lemma ReceiptConservesExactly(res: Reservation, now: int, i: Instruction, n: nat)
    requires SettlementReceipt(res, now, i).Ok? && i.disposition.SettleActual?
    requires i.actual.Some? && AmountsWithin(i.actual.value.mandateUsage, n) && AmountsWithin(Coalesce(res.usageDeltas, []), n)
    ensures var usages, recorded := i.actual.value.mandateUsage, Coalesce(res.usageDeltas, []);
            ReceiptConserves(res, now, i, n) <==>
              CountSum(usages) <= CountSum(recorded) && UnitSum(usages, n) <= UnitSum(recorded, n)
  {
    ReceiptCarries(res, now, i);
    BalancedExactly(i.actual.value.mandateUsage, Coalesce(res.usageDeltas, []), n);
    hide SettlementReceipt, UsageTotal, ReleasedUsage, Conserved, AmountWithin, CountSum, UnitSum;
  }

  /** A reservation without recorded deltas: any usage is accepted, and a single one already breaks conservation. */
  lemma UnrecordedUsageIsNotConserved(res: Reservation, now: int)
    requires res.usageDeltas.None? && res.effects.None?
    ensures var u := MandateUsage("m", Usage(1, None));
            var i := Instruction(SETTLEMENT_SCHEMA, "r", "s", Dispatched, Confirmed, SettleActual,
                                 Some(ActualConsumption(CONSUMPTION_SCHEMA, [], None, [u], 0, Verified)));
            && DistinctMandates([u]) && SettlementReceipt(res, now, i).Ok?
            && SettlementReceipt(res, now, i).value.settled.value.reservedUsage == Usage(0, None)
            && SettlementReceipt(res, now, i).value.settled.value.releasedUsage == Usage(0, None)
            && UsageTotal([u]) == Ok(Usage(1, None)) && !ReceiptConserves(res, now, i, 0)
  {
    assert [MandateUsage("m", Usage(1, None))][..0] == [];
    assert CheckEntries([], [], SpendOutsideReserved).None? && CheckEntries([], [], FeeOutsideReserved).None?;
  }
}
