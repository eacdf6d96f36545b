/**
 * The settlement contracts: which settlement instructions are accepted against a
 * reservation, and what an accepted one consumes and releases.
 */
module Settlement {
  import opened Outcomes
  import opened Digits
  import opened Decimals

  datatype DispatchState = NotDispatched | Dispatched | DispatchUnknown
  datatype TerminalOutcome = Confirmed | Failed | Cancelled | Aborted | OutcomeUnknown
  datatype Disposition = ReleaseNonexecution | CommitReserved | SettleActual
  datatype Measurement = Verified | Partial | Unavailable

  datatype Spend = Spend(tokenId: string, amount: string)

  /** Channel effects are represented by their channel ids. */
  datatype StepEffects = StepEffects(spends: seq<Spend>, fees: Option<seq<Spend>>, channels: Option<seq<string>>)

  datatype Usage = Usage(count: int, amount: Option<string>)

  /** A reserved usage delta, or the metered usage, of one mandate. */
  datatype MandateUsage = MandateUsage(mandateId: string, delta: Usage)

  datatype ActualConsumption = ActualConsumption(
    schema: string, spends: seq<Spend>, fees: Option<seq<Spend>>, mandateUsage: seq<MandateUsage>,
    measuredAt: int, measurement: Measurement)

  datatype Instruction = Instruction(
    schema: string, reservationId: string, settlementId: string, dispatch: DispatchState, outcome: TerminalOutcome,
    disposition: Disposition, actual: Option<ActualConsumption>)

  datatype SettlementError =
    | UnsupportedSchema | ReservationIdMissing | SettlementIdMissing | DispatchStateUnknown | NonTerminal
    | ReleaseOfDispatched | CommitCarriesActual | ActualMissing | Unmeasured | MeasuredAtInvalid
    | MalformedAmount | SpendOutsideReserved | FeeOutsideReserved | MandateNotReserved | UsageOutsideReserved

  const SETTLEMENT_SCHEMA := "totem:act:settlement/v1"
  const CONSUMPTION_SCHEMA := "totem:act:actual-consumption/v1"

  // ---- Sums per token -----------------------------------------------------

  predicate Amounts(totals: map<string, string>) { forall t | t in totals :: IsDecimal(totals[t]) }

  function AddSpend(totals: map<string, string>, e: Spend): (r: map<string, string>)
    requires Amounts(totals) && IsDecimal(e.amount)
    ensures Amounts(r)
  {
    if e.tokenId in totals then
      AddedIsDecimal(totals[e.tokenId], e.amount);
      totals[e.tokenId := AddDecimal(totals[e.tokenId], e.amount)]
    else totals[e.tokenId := e.amount]
  }

  lemma AddedIsDecimal(a: string, b: string)
    requires IsAmount(a) && IsAmount(b)
    ensures IsDecimal(AddDecimal(a, b))
  {
    AddDecimalExact(a, b, Max(|Frac(a)|, |Frac(b)|));
  }

  /** What sumAmounts returns or throws, entry by entry. */
  function TokenTotals(entries: seq<Spend>): (r: Result<map<string, string>, SettlementError>)
    ensures r.Ok? ==> Amounts(r.value)
  {
    if entries == [] then Ok(map[])
    else
      var last, before := entries[|entries| - 1], TokenTotals(entries[..|entries| - 1]);
      if before.Err? then before
      else if !IsDecimal(last.amount) then Err(MalformedAmount)
      else Ok(AddSpend(before.value, last))
  }

  method SumAmounts(entries: seq<Spend>) returns (out: Result<map<string, string>, SettlementError>)
    ensures out == TokenTotals(entries)
  {
    hide IsAmount, NoLeadingZero, AddDecimal, Whole;
    var totals: map<string, string> := map[];
    for i := 0 to |entries|
      invariant Amounts(totals) && TokenTotals(entries[..i]) == Ok(totals)
    {
      var entry := entries[i];
      assert entries[..i + 1][..i] == entries[..i];
      if !IsDecimal(entry.amount) {
        FailureStays(entries, i + 1);
        return Err(MalformedAmount);
      }
      var current := if entry.tokenId in totals then Some(totals[entry.tokenId]) else None;
      if current.Some? {
        DecimalIsAmount(current.value);
        DecimalIsAmount(entry.amount);
        AddedIsDecimal(current.value, entry.amount);
      }
      totals := totals[entry.tokenId := if current.Some? then AddDecimal(current.value, entry.amount) else entry.amount];
    }
    assert entries[..|entries|] == entries;
    return Ok(totals);
  }

  lemma {:induction false} FailureStays(entries: seq<Spend>, i: nat)
    requires i <= |entries| && TokenTotals(entries[..i]).Err?
    ensures TokenTotals(entries) == TokenTotals(entries[..i])
  {
    if i == |entries| {
      assert entries[..i] == entries;
    } else {
      var init := entries[..|entries| - 1];
      assert init[..i] == entries[..i];
      FailureStays(init, i);
    }
  }

  predicate AllDecimal(entries: seq<Spend>, n: nat) {
    forall i | 0 <= i < |entries| :: IsDecimal(entries[i].amount) && |Frac(entries[i].amount)| <= n
  }

  /** The exact sum of the entries of one token, in units of 10^-n. */
  function TokenUnits(entries: seq<Spend>, t: string, n: nat): nat
    requires AllDecimal(entries, n)
  {
    if entries == [] then 0
    else
      var last, init := entries[|entries| - 1], entries[..|entries| - 1];
      TokenUnits(init, t, n) + if last.tokenId == t then At(last.amount, n) else 0
  }

  predicate HasToken(entries: seq<Spend>, t: string) { exists i :: 0 <= i < |entries| && entries[i].tokenId == t }

  /** The total of one token is present when it has entries, and is their exact sum. */
  predicate TotalIsExact(totals: map<string, string>, entries: seq<Spend>, t: string, n: nat)
    requires Amounts(totals) && AllDecimal(entries, n)
  {
    && (t in totals <==> HasToken(entries, t))
    && (t in totals ==> |Frac(totals[t])| <= n && At(totals[t], n) == TokenUnits(entries, t, n))
    && (t !in totals ==> TokenUnits(entries, t, n) == 0)
  }

  /** sumAmounts adds up exactly, token by token. */
  lemma {:induction false} TokenTotalsExact(entries: seq<Spend>, n: nat)
    requires AllDecimal(entries, n)
    ensures TokenTotals(entries).Ok? && forall t :: TotalIsExact(TokenTotals(entries).value, entries, t, n)
  {
    if entries != [] {
      var init := entries[..|entries| - 1];
      TokenTotalsExact(init, n);
      forall t ensures TotalIsExact(TokenTotals(entries).value, entries, t, n) {
        TotalStep(TokenTotals(init).value, entries, t, n);
      }
    }
  }

  lemma HasTokenLast(entries: seq<Spend>, t: string)
    requires entries != []
    ensures HasToken(entries, t) <==> HasToken(entries[..|entries| - 1], t) || t == entries[|entries| - 1].tokenId
  {
    var init := entries[..|entries| - 1];
    if HasToken(init, t) {
      var i :| 0 <= i < |init| && init[i].tokenId == t;
      assert entries[i].tokenId == t;
    }
  }

  lemma UnitsLast(entries: seq<Spend>, t: string, n: nat)
    requires entries != [] && AllDecimal(entries, n)
    ensures var last, init := entries[|entries| - 1], entries[..|entries| - 1];
            && AllDecimal(init, n) && IsDecimal(last.amount) && IsAmount(last.amount) && |Frac(last.amount)| <= n
            && TokenUnits(entries, t, n) == TokenUnits(init, t, n) + if last.tokenId == t then At(last.amount, n) else 0
  {
    DecimalIsAmount(entries[|entries| - 1].amount);
    hide IsDecimal, IsAmount, At, Frac;
  }

  /** The new total of one token. */
  lemma AddSpendAt(before: map<string, string>, e: Spend, t: string)
    requires Amounts(before) && IsDecimal(e.amount)
    ensures var after := AddSpend(before, e);
            && (t in after <==> t in before || t == e.tokenId)
            && (t in before ==> IsAmount(before[t])) && IsAmount(e.amount)
            && (t in after ==> after[t] == if t != e.tokenId then before[t] else if t in before then AddDecimal(before[t], e.amount) else e.amount)
  {
    DecimalIsAmount(e.amount);
    if t in before { DecimalIsAmount(before[t]); }
    hide IsDecimal, IsAmount, AddDecimal;
  }

  lemma TotalMeans(totals: map<string, string>, entries: seq<Spend>, t: string, n: nat)
    requires Amounts(totals) && AllDecimal(entries, n)
    ensures t in totals ==> IsAmount(totals[t])
    ensures TotalIsExact(totals, entries, t, n) <==>
      && (t in totals <==> HasToken(entries, t))
      && (t in totals ==> |Frac(totals[t])| <= n && At(totals[t], n) == TokenUnits(entries, t, n))
      && (t !in totals ==> TokenUnits(entries, t, n) == 0)
  {
    AmountsAreAmounts(totals);
    hide Amounts, AllDecimal, IsAmount, At, Frac, HasToken, TokenUnits;
  }

  lemma TotalStep(before: map<string, string>, entries: seq<Spend>, t: string, n: nat)
    requires entries != [] && AllDecimal(entries, n) && Amounts(before)
    requires TotalIsExact(before, entries[..|entries| - 1], t, n)
    ensures TotalIsExact(AddSpend(before, entries[|entries| - 1]), entries, t, n)
  {
    var last := entries[|entries| - 1];
    hide *;
    HasTokenLast(entries, t);
    UnitsLast(entries, t, n);
    AddSpendAt(before, last, t);
    TotalMeans(before, entries[..|entries| - 1], t, n);
    TotalMeans(AddSpend(before, last), entries, t, n);
    if last.tokenId == t && t in before { AddDecimalExact(before[t], last.amount, n); }
  }

  lemma DecimalIsAmount(a: string)
    requires IsDecimal(a)
    ensures IsAmount(a)
  {}

  /** sumAmounts throws exactly when some amount is malformed. */
  lemma {:induction false} MalformedExactly(entries: seq<Spend>)
    ensures TokenTotals(entries).Err? <==> exists i :: 0 <= i < |entries| && !IsDecimal(entries[i].amount)
  {
    if entries != [] {
      var init := entries[..|entries| - 1];
      MalformedExactly(init);
      if i :| 0 <= i < |init| && !IsDecimal(init[i].amount) { assert !IsDecimal(entries[i].amount); }
    }
  }

  // ---- Acceptance ---------------------------------------------------------

  /** Every token total of the actual entries is reserved and not exceeded. */
  predicate Covers(reserved: map<string, string>, actual: map<string, string>)
    requires Amounts(reserved) && Amounts(actual)
  {
    forall t | t in actual :: t in reserved && CompareDecimal(actual[t], reserved[t]) <= 0
  }

  function CheckEntries(reserved: seq<Spend>, actual: seq<Spend>, outside: SettlementError): Option<SettlementError> {
    var r, a := TokenTotals(reserved), TokenTotals(actual);
    if r.Err? then Some(r.error)
    else if a.Err? then Some(a.error)
    else if Covers(r.value, a.value) then None
    else Some(outside)
  }

  /** The delta stored for a mandate by `new Map(deltas)`: the last one given. */
  function ReservedFor(deltas: seq<MandateUsage>, id: string): Option<Usage> {
    if deltas == [] then None
    else if deltas[|deltas| - 1].mandateId == id then Some(deltas[|deltas| - 1].delta)
    else ReservedFor(deltas[..|deltas| - 1], id)
  }

  function CheckUsage(usage: Usage, reserved: Option<Usage>): Option<SettlementError> {
    if reserved.None? then Some(MandateNotReserved)
    else if usage.count < 0 || usage.count > reserved.value.count then Some(UsageOutsideReserved)
    else if usage.amount.None? then None
    else if !IsDecimal(usage.amount.value) then Some(MalformedAmount)
    else if reserved.value.amount.None? then Some(UsageOutsideReserved)
    else if !IsAmount(reserved.value.amount.value) then Some(MalformedAmount)
    else if CompareDecimal(usage.amount.value, reserved.value.amount.value) > 0 then Some(UsageOutsideReserved)
    else None
  }

  /** The first complaint about the metered usages. */
  function CheckUsages(usages: seq<MandateUsage>, deltas: seq<MandateUsage>): Option<SettlementError> {
    if usages == [] then None
    else
      var before := CheckUsages(usages[..|usages| - 1], deltas);
      var last := usages[|usages| - 1];
      if before.Some? then before else CheckUsage(last.delta, ReservedFor(deltas, last.mandateId))
  }

  function SpendsOf(effects: Option<StepEffects>): seq<Spend> { if effects.Some? then effects.value.spends else [] }

  function FeesOf(effects: Option<StepEffects>): seq<Spend> { if effects.Some? then Coalesce(effects.value.fees, []) else [] }

  function ActualCheck(actual: ActualConsumption, effects: Option<StepEffects>, deltas: Option<seq<MandateUsage>>): Option<SettlementError> {
    var spends := CheckEntries(SpendsOf(effects), actual.spends, SpendOutsideReserved);
    var fees := CheckEntries(FeesOf(effects), Coalesce(actual.fees, []), FeeOutsideReserved);
    if spends.Some? then spends
    else if fees.Some? then fees
    else if deltas.None? then None
    else CheckUsages(actual.mandateUsage, deltas.value)
  }

  /** The error assertSettlementInstruction throws, if any. */
  function SettlementCheck(i: Instruction, effects: Option<StepEffects>, deltas: Option<seq<MandateUsage>>): Option<SettlementError> {
    if i.schema != SETTLEMENT_SCHEMA then Some(UnsupportedSchema)
    else if i.reservationId == "" then Some(ReservationIdMissing)
    else if i.settlementId == "" then Some(SettlementIdMissing)
    else if i.dispatch.DispatchUnknown? then Some(DispatchStateUnknown)
    else if i.outcome.OutcomeUnknown? then Some(NonTerminal)
    else if i.disposition.ReleaseNonexecution? && !i.dispatch.NotDispatched? then Some(ReleaseOfDispatched)
    else if i.disposition.CommitReserved? && i.actual.Some? then Some(CommitCarriesActual)
    else if !i.disposition.SettleActual? then None
    else if i.actual.None? then Some(ActualMissing)
    else if i.actual.value.measurement.Unavailable? then Some(Unmeasured)
    else if i.actual.value.schema != CONSUMPTION_SCHEMA then Some(UnsupportedSchema)
    else if i.actual.value.measuredAt < 0 then Some(MeasuredAtInvalid)
    else ActualCheck(i.actual.value, effects, deltas)
  }

  /** One of the two loops over the summed actual entries. */
  method CompareEntries(reserved: seq<Spend>, actual: seq<Spend>, outside: SettlementError) returns (error: Option<SettlementError>)
    ensures error == CheckEntries(reserved, actual, outside)
  {
    hide CompareDecimal, IsAmount, IsDecimal, TokenTotals;
    var r := SumAmounts(reserved);
    if r.Err? { return Some(r.error); }
    var a := SumAmounts(actual);
    if a.Err? { return Some(a.error); }
    AmountsAreAmounts(r.value);
    AmountsAreAmounts(a.value);
    var tokens := a.value.Keys;
    while tokens != {}
      invariant tokens <= a.value.Keys
      invariant forall t | t in a.value.Keys - tokens :: t in r.value && CompareDecimal(a.value[t], r.value[t]) <= 0
    {
      var t :| t in tokens;
      if t !in r.value || CompareDecimal(a.value[t], r.value[t]) > 0 { return Some(outside); }
      tokens := tokens - {t};
    }
    return None;
  }

  lemma AmountsAreAmounts(totals: map<string, string>)
    requires Amounts(totals)
    ensures forall t | t in totals :: IsAmount(totals[t])
  {}

  method AssertActualWithinReserved(actual: ActualConsumption, effects: Option<StepEffects>, deltas: Option<seq<MandateUsage>>)
    returns (error: Option<SettlementError>)
    ensures error == ActualCheck(actual, effects, deltas)
  {
    hide CheckEntries, CheckUsage;
    error := CompareEntries(SpendsOf(effects), actual.spends, SpendOutsideReserved);
    if error.Some? { return; }
    error := CompareEntries(FeesOf(effects), Coalesce(actual.fees, []), FeeOutsideReserved);
    if error.Some? || deltas.None? { return; }
    var reservedByMandate: map<string, Usage> := map[];
    for k := 0 to |deltas.value|
      invariant forall id :: ReservedFor(deltas.value[..k], id) == if id in reservedByMandate then Some(reservedByMandate[id]) else None
    {
      assert deltas.value[..k + 1][..k] == deltas.value[..k];
      reservedByMandate := reservedByMandate[deltas.value[k].mandateId := deltas.value[k].delta];
    }
    assert deltas.value[..|deltas.value|] == deltas.value;
    var usages := actual.mandateUsage;
    for k := 0 to |usages|
      invariant CheckUsages(usages[..k], deltas.value) == None
    {
      assert usages[..k + 1][..k] == usages[..k];
      var id := usages[k].mandateId;
      var reserved := if id in reservedByMandate then Some(reservedByMandate[id]) else None;
      error := CheckUsage(usages[k].delta, reserved);
      if error.Some? {
        ComplaintStays(usages, k + 1, deltas.value);
        return;
      }
    }
    assert usages[..|usages|] == usages;
    return None;
  }

  lemma {:induction false} ComplaintStays(usages: seq<MandateUsage>, k: nat, deltas: seq<MandateUsage>)
    requires k <= |usages| && CheckUsages(usages[..k], deltas).Some?
    ensures CheckUsages(usages, deltas) == CheckUsages(usages[..k], deltas)
  {
    if k == |usages| {
      assert usages[..k] == usages;
    } else {
      assert usages[..|usages| - 1][..k] == usages[..k];
      ComplaintStays(usages[..|usages| - 1], k, deltas);
    }
  }

  method AssertSettlementInstruction(i: Instruction, effects: Option<StepEffects>, deltas: Option<seq<MandateUsage>>)
    returns (error: Option<SettlementError>)
    ensures error == SettlementCheck(i, effects, deltas)
  {
    if i.schema != SETTLEMENT_SCHEMA { return Some(UnsupportedSchema); }
    if i.reservationId == "" { return Some(ReservationIdMissing); }
    if i.settlementId == "" { return Some(SettlementIdMissing); }
    if i.dispatch.DispatchUnknown? { return Some(DispatchStateUnknown); }
    if i.outcome.OutcomeUnknown? { return Some(NonTerminal); }
    if i.disposition.ReleaseNonexecution? && !i.dispatch.NotDispatched? { return Some(ReleaseOfDispatched); }
    if i.disposition.CommitReserved? && i.actual.Some? { return Some(CommitCarriesActual); }
    if i.disposition.SettleActual? {
      if i.actual.None? { return Some(ActualMissing); }
      if i.actual.value.measurement.Unavailable? { return Some(Unmeasured); }
      if i.actual.value.schema != CONSUMPTION_SCHEMA { return Some(UnsupportedSchema); }
      if i.actual.value.measuredAt < 0 { return Some(MeasuredAtInvalid); }
      error := AssertActualWithinReserved(i.actual.value, effects, deltas);
      return;
    }
    return None;
  }

  predicate TokenCovered(reserved: map<string, string>, actual: map<string, string>, t: string)
    requires Amounts(reserved) && Amounts(actual)
  {
    t in actual ==> t in reserved && CompareDecimal(actual[t], reserved[t]) <= 0
  }

  predicate TokenWithin(reserved: seq<Spend>, actual: seq<Spend>, t: string, n: nat)
    requires AllDecimal(reserved, n) && AllDecimal(actual, n)
  {
    HasToken(actual, t) ==> HasToken(reserved, t) && TokenUnits(actual, t, n) <= TokenUnits(reserved, t, n)
  }

  lemma CoveredIsWithin(r: map<string, string>, a: map<string, string>, reserved: seq<Spend>, actual: seq<Spend>, t: string, n: nat)
    requires Amounts(r) && Amounts(a) && AllDecimal(reserved, n) && AllDecimal(actual, n)
    requires TotalIsExact(r, reserved, t, n) && TotalIsExact(a, actual, t, n)
    ensures TokenCovered(r, a, t) <==> TokenWithin(reserved, actual, t, n)
  {
    AmountsAreAmounts(r);
    AmountsAreAmounts(a);
    hide CompareDecimal, TokenUnits, HasToken, At, Frac, IsAmount, IsDecimal, AllDecimal, Amounts;
    if t in a && t in r { CompareDecimalExact(a[t], r[t], n); }
  }

  /** Accepted entries exceed the reserved ones for no token, exactly and at every scale. */
  lemma AcceptedEntriesWithin(reserved: seq<Spend>, actual: seq<Spend>, outside: SettlementError, n: nat)
    requires AllDecimal(reserved, n) && AllDecimal(actual, n)
    ensures CheckEntries(reserved, actual, outside).None? <==> forall t :: TokenWithin(reserved, actual, t, n)
  {
    hide *;
    TokenTotalsExact(reserved, n);
    TokenTotalsExact(actual, n);
    var r, a := TokenTotals(reserved).value, TokenTotals(actual).value;
    CoversMeans(r, a);
    CheckedByTotals(reserved, actual, outside);
    forall t ensures TokenCovered(r, a, t) <==> TokenWithin(reserved, actual, t, n) {
      assert TotalIsExact(r, reserved, t, n) && TotalIsExact(a, actual, t, n);
      CoveredIsWithin(r, a, reserved, actual, t, n);
    }
  }

  lemma CoversMeans(r: map<string, string>, a: map<string, string>)
    requires Amounts(r) && Amounts(a)
    ensures Covers(r, a) <==> forall t :: TokenCovered(r, a, t)
  {
    AmountsAreAmounts(r);
    AmountsAreAmounts(a);
    hide CompareDecimal, IsDecimal, IsAmount;
    if forall t :: TokenCovered(r, a, t) {
      forall t | t in a ensures t in r && CompareDecimal(a[t], r[t]) <= 0 { assert TokenCovered(r, a, t); }
    }
  }

  lemma CheckedByTotals(reserved: seq<Spend>, actual: seq<Spend>, outside: SettlementError)
    requires TokenTotals(reserved).Ok? && TokenTotals(actual).Ok?
    ensures CheckEntries(reserved, actual, outside).None? <==> Covers(TokenTotals(reserved).value, TokenTotals(actual).value)
  {
    hide TokenTotals, Covers;
  }

  // ---- Usage accounting ---------------------------------------------------

  /** What sumReservedUsage returns or throws. */
  function UsageTotal(deltas: seq<MandateUsage>): Result<Usage, SettlementError> {
    if deltas == [] then Ok(Usage(0, None))
    else
      var before, d := UsageTotal(deltas[..|deltas| - 1]), deltas[|deltas| - 1].delta;
      if before.Err? then before
      else AddUsage(before.value, d)
  }

  function AddUsage(total: Usage, d: Usage): Result<Usage, SettlementError> {
    if d.amount.None? then Ok(Usage(total.count + d.count, total.amount))
    else if total.amount.None? then Ok(Usage(total.count + d.count, d.amount))
    else if !IsAmount(total.amount.value) || !IsAmount(d.amount.value) then Err(MalformedAmount)
    else Ok(Usage(total.count + d.count, Some(AddDecimal(total.amount.value, d.amount.value))))
  }

  method SumReservedUsage(deltas: seq<MandateUsage>) returns (total: Result<Usage, SettlementError>)
    ensures total == UsageTotal(deltas)
  {
    hide IsAmount, AddDecimal;
    var count, amount := 0, None;
    for i := 0 to |deltas|
      invariant UsageTotal(deltas[..i]) == Ok(Usage(count, amount))
    {
      assert deltas[..i + 1][..i] == deltas[..i];
      var d := deltas[i].delta;
      count := count + d.count;
      if d.amount.Some? {
        if amount.None? {
          amount := d.amount;
        } else {
          if !IsAmount(amount.value) || !IsAmount(d.amount.value) {
            UsageFailureStays(deltas, i + 1);
            return Err(MalformedAmount);
          }
          amount := Some(AddDecimal(amount.value, d.amount.value));
        }
      }
    }
    assert deltas[..|deltas|] == deltas;
    return Ok(Usage(count, amount));
  }

  lemma {:induction false} UsageFailureStays(deltas: seq<MandateUsage>, i: nat)
    requires i <= |deltas| && UsageTotal(deltas[..i]).Err?
    ensures UsageTotal(deltas) == UsageTotal(deltas[..i])
  {
    if i == |deltas| {
      assert deltas[..i] == deltas;
    } else {
      assert deltas[..|deltas| - 1][..i] == deltas[..i];
      UsageFailureStays(deltas[..|deltas| - 1], i);
    }
  }

  /** releasedUsage */
  function ReleasedUsage(reserved: Usage, actual: Option<Usage>): Result<Usage, SettlementError> {
    var used := if actual.Some? then actual.value.count else 0;
    var count := if reserved.count - used > 0 then reserved.count - used else 0;
    if reserved.amount.None? then Ok(Usage(count, None))
    else
      var actualAmount := if actual.Some? then Coalesce(actual.value.amount, "0") else "0";
      if !IsAmount(reserved.amount.value) || !IsAmount(actualAmount) then Err(MalformedAmount)
      else if CompareDecimal(reserved.amount.value, actualAmount) > 0 then
        Ok(Usage(count, Some(SubtractDecimal(reserved.amount.value, actualAmount))))
      else Ok(Usage(count, Some("0")))
  }

  predicate AmountWithin(amount: Option<string>, n: nat) {
    amount.Some? ==> IsAmount(amount.value) && |Frac(amount.value)| <= n
  }

  /** The amounts are decimals of at most n places. */
  predicate AmountsWithin(us: seq<MandateUsage>, n: nat) {
    forall i | 0 <= i < |us| :: AmountWithin(us[i].delta.amount, n)
  }

  /** Nor are the counts negative. */
  predicate WellFormed(us: seq<MandateUsage>, n: nat) {
    AmountsWithin(us, n) && forall i | 0 <= i < |us| :: us[i].delta.count >= 0
  }

  function Units(amount: Option<string>, n: nat): nat
    requires AmountWithin(amount, n)
  {
    if amount.None? then 0 else At(amount.value, n)
  }

  predicate DistinctMandates(usages: seq<MandateUsage>) {
    forall i, j | 0 <= i < j < |usages| :: usages[i].mandateId != usages[j].mandateId
  }

  function CountSum(us: seq<MandateUsage>): int {
    if us == [] then 0 else CountSum(us[..|us| - 1]) + us[|us| - 1].delta.count
  }

  function UnitSum(us: seq<MandateUsage>, n: nat): nat
    requires AmountsWithin(us, n)
  {
    if us == [] then 0 else UnitSum(us[..|us| - 1], n) + Units(us[|us| - 1].delta.amount, n)
  }

  /** sumReservedUsage is the exact sum of counts and amounts; the amount is absent when every delta's is. */
  lemma {:induction false} UsageTotalExact(deltas: seq<MandateUsage>, n: nat)
    requires AmountsWithin(deltas, n)
    ensures UsageTotal(deltas).Ok?
    ensures var u := UsageTotal(deltas).value;
            && u.count == CountSum(deltas) && AmountWithin(u.amount, n) && Units(u.amount, n) == UnitSum(deltas, n)
            && (u.amount.None? <==> forall i | 0 <= i < |deltas| :: deltas[i].delta.amount.None?)
  {
    hide IsAmount, Frac, At, AddDecimal;
    if deltas != [] {
      var init, d := deltas[..|deltas| - 1], deltas[|deltas| - 1].delta;
      UsageTotalExact(init, n);
      var before := UsageTotal(init).value;
      if before.amount.Some? && d.amount.Some? { AddDecimalExact(before.amount.value, d.amount.value, n); }
      assert forall i | 0 <= i < |init| :: init[i] == deltas[i];
    }
  }

  /** Each usage stays within the delta stored for its mandate. */
  predicate EachWithin(usages: seq<MandateUsage>, deltas: seq<MandateUsage>, n: nat)
    requires WellFormed(usages, n) && WellFormed(deltas, n)
  {
    forall i | 0 <= i < |usages| :: UsageWithin(usages[i], deltas, n)
  }

  predicate UsageWithin(u: MandateUsage, deltas: seq<MandateUsage>, n: nat)
    requires AmountWithin(u.delta.amount, n) && WellFormed(deltas, n)
  {
    var r := ReservedFor(deltas, u.mandateId);
    && r.Some? && AmountWithin(r.value.amount, n)
    && u.delta.count <= r.value.count && Units(u.delta.amount, n) <= Units(r.value.amount, n)
    && (r.value.amount.None? ==> u.delta.amount.None?)
  }

  function Without(us: seq<MandateUsage>, k: nat): (r: seq<MandateUsage>)
    requires k < |us|
    ensures |r| == |us| - 1 && forall i | 0 <= i < |r| :: r[i] == us[if i < k then i else i + 1]
  {
    us[..k] + us[k + 1..]
  }

  lemma {:induction false} WithoutSums(us: seq<MandateUsage>, k: nat, n: nat)
    requires k < |us| && WellFormed(us, n)
    ensures WellFormed(Without(us, k), n)
    ensures CountSum(us) == CountSum(Without(us, k)) + us[k].delta.count
    ensures UnitSum(us, n) == UnitSum(Without(us, k), n) + Units(us[k].delta.amount, n)
  {
    hide Units, AmountWithin;
    var init := us[..|us| - 1];
    if k == |us| - 1 {
      assert Without(us, k) == init;
    } else {
      WithoutSums(init, k, n);
      assert Without(us, k)[..|us| - 2] == Without(init, k);
    }
  }

  lemma NothingWithinNothing(n: nat)
    ensures forall u: MandateUsage | AmountWithin(u.delta.amount, n) :: !UsageWithin(u, [], n)
  {}

  lemma FirstWithin(usages: seq<MandateUsage>, deltas: seq<MandateUsage>, n: nat)
    requires usages != [] && WellFormed(usages, n) && WellFormed(deltas, n) && EachWithin(usages, deltas, n)
    ensures AmountWithin(usages[0].delta.amount, n) && UsageWithin(usages[0], deltas, n)
  {}

  lemma NothingReserved(usages: seq<MandateUsage>, n: nat)
    requires WellFormed(usages, n) && EachWithin(usages, [], n)
    ensures usages == []
  {
    hide *;
    NothingWithinNothing(n);
    if usages != [] {
      FirstWithin(usages, [], n);
      assert false;
    }
  }

  /** Usages of other mandates than the last delta's are within the deltas before it. */
  lemma OthersWithin(usages: seq<MandateUsage>, rest: seq<MandateUsage>, deltas: seq<MandateUsage>, n: nat)
    requires deltas != [] && WellFormed(usages, n) && WellFormed(deltas, n) && EachWithin(usages, deltas, n)
    requires forall i | 0 <= i < |rest| :: rest[i] in usages && rest[i].mandateId != deltas[|deltas| - 1].mandateId
    ensures WellFormed(rest, n) && EachWithin(rest, deltas[..|deltas| - 1], n)
  {
    hide Units, AmountWithin;
    forall i | 0 <= i < |rest| ensures UsageWithin(rest[i], deltas[..|deltas| - 1], n) {
      assert UsageWithin(rest[i], deltas, n);
    }
  }

  /** Usages of different mandates, each within its reserved delta, are together within the reserved sum. */
  lemma {:induction false} DistinctUsagesWithin(usages: seq<MandateUsage>, deltas: seq<MandateUsage>, n: nat)
    requires WellFormed(usages, n) && WellFormed(deltas, n) && DistinctMandates(usages) && EachWithin(usages, deltas, n)
    ensures CountSum(usages) <= CountSum(deltas) && UnitSum(usages, n) <= UnitSum(deltas, n)
    decreases |deltas|
  {
    hide Units, AmountWithin, UsageWithin, ReservedFor;
    if deltas == [] {
      NothingReserved(usages, n);
    } else {
      var init, last := deltas[..|deltas| - 1], deltas[|deltas| - 1];
      if k :| 0 <= k < |usages| && usages[k].mandateId == last.mandateId {
        WithoutSums(usages, k, n);
        assert UsageWithin(usages[k], deltas, n);
        LastDelta(usages[k], deltas, n);
        OthersWithin(usages, Without(usages, k), deltas, n);
        DistinctUsagesWithin(Without(usages, k), init, n);
      } else {
        OthersWithin(usages, usages, deltas, n);
        DistinctUsagesWithin(usages, init, n);
      }
    }
  }

  lemma LastDelta(u: MandateUsage, deltas: seq<MandateUsage>, n: nat)
    requires deltas != [] && WellFormed(deltas, n) && AmountWithin(u.delta.amount, n)
    requires u.mandateId == deltas[|deltas| - 1].mandateId && UsageWithin(u, deltas, n)
    ensures u.delta.count <= deltas[|deltas| - 1].delta.count
    ensures Units(u.delta.amount, n) <= Units(deltas[|deltas| - 1].delta.amount, n)
  {}

  lemma {:induction false} AcceptedUsagesWithin(usages: seq<MandateUsage>, deltas: seq<MandateUsage>, n: nat)
    requires WellFormed(usages, n) && WellFormed(deltas, n)
    ensures CheckUsages(usages, deltas) == None ==> EachWithin(usages, deltas, n)
  {
    if usages != [] && CheckUsages(usages, deltas) == None {
      var init, last := usages[..|usages| - 1], usages[|usages| - 1];
      AcceptedUsagesWithin(init, deltas, n);
      assert forall i | 0 <= i < |init| :: UsageWithin(init[i], deltas, n);
      AcceptedUsageWithin(last, deltas, n);
    }
  }

  lemma AcceptedUsageWithin(u: MandateUsage, deltas: seq<MandateUsage>, n: nat)
    requires AmountWithin(u.delta.amount, n) && WellFormed(deltas, n)
    requires CheckUsage(u.delta, ReservedFor(deltas, u.mandateId)) == None
    ensures UsageWithin(u, deltas, n)
  {
    hide IsAmount, Frac, At, CompareDecimal;
    StoredDelta(deltas, u.mandateId);
    var r := ReservedFor(deltas, u.mandateId).value;
    if u.delta.amount.Some? { CompareDecimalExact(u.delta.amount.value, r.amount.value, n); }
  }

  lemma {:induction false} StoredDelta(deltas: seq<MandateUsage>, id: string)
    ensures var r := ReservedFor(deltas, id);
            if r.None? then forall i | 0 <= i < |deltas| :: deltas[i].mandateId != id
            else exists i :: 0 <= i < |deltas| && deltas[i] == MandateUsage(id, r.value)
  {
    if deltas != [] && deltas[|deltas| - 1].mandateId != id {
      var init := deltas[..|deltas| - 1];
      StoredDelta(init, id);
      if i :| 0 <= i < |init| && ReservedFor(init, id).Some? && init[i] == MandateUsage(id, ReservedFor(init, id).value) {
        assert deltas[i] == init[i];
      }
    }
  }

  /** Actual plus released is what was reserved, for the count and for the amount. */
  predicate Conserved(reserved: Usage, actual: Usage, released: Usage, n: nat)
    requires AmountWithin(reserved.amount, n) && AmountWithin(actual.amount, n)
  {
    && AmountWithin(released.amount, n) && (released.amount.None? <==> reserved.amount.None?)
    && actual.count + released.count == reserved.count
    && Units(actual.amount, n) + Units(released.amount, n) == Units(reserved.amount, n)
  }

  /**
   * releasedUsage returns exactly what is left precisely when the clamp does not act:
   * no more was used than reserved.
   */
  lemma ReleasedExactly(reserved: Usage, actual: Usage, n: nat)
    requires AmountWithin(reserved.amount, n) && AmountWithin(actual.amount, n)
    ensures ReleasedUsage(reserved, Some(actual)).Ok?
    ensures Conserved(reserved, actual, ReleasedUsage(reserved, Some(actual)).value, n)
       <==> actual.count <= reserved.count && Units(actual.amount, n) <= Units(reserved.amount, n)
  {
    hide Frac, IsAmount, At, CompareDecimal, SubtractDecimal;
    ZeroAmount(n);
    if reserved.amount.Some? {
      var a := Coalesce(actual.amount, "0");
      CompareDecimalExact(reserved.amount.value, a, n);
      SubtractDecimalExact(reserved.amount.value, a, n);
    }
  }

  lemma ZeroAmount(n: nat)
    ensures IsAmount("0") && |Frac("0")| <= n && At("0", n) == 0
  {
    MakeAmount("0", "");
    NatOfZeros(n + 1);
    assert "0" + PadEnd("", n) == Zeros(n + 1);
  }

  /** What is consumed and what is released add up to what was reserved, when nothing is thrown. */
  predicate Balanced(usages: seq<MandateUsage>, deltas: seq<MandateUsage>, n: nat) {
    var reserved, actual := UsageTotal(deltas), UsageTotal(usages);
    && reserved.Ok? && actual.Ok? && AmountWithin(reserved.value.amount, n) && AmountWithin(actual.value.amount, n)
    && var released := ReleasedUsage(reserved.value, Some(actual.value));
       released.Ok? && Conserved(reserved.value, actual.value, released.value, n)
  }

  /**
   * Metered usages balance against the reserved deltas exactly when together, in count and in
   * amount, they are within the deltas together. No delta at all is the empty list.
   */
  lemma BalancedExactly(usages: seq<MandateUsage>, deltas: seq<MandateUsage>, n: nat)
    requires AmountsWithin(usages, n) && AmountsWithin(deltas, n)
    ensures Balanced(usages, deltas, n) <==> CountSum(usages) <= CountSum(deltas) && UnitSum(usages, n) <= UnitSum(deltas, n)
  {
    hide *;
    UsageTotalExact(deltas, n);
    UsageTotalExact(usages, n);
    ReleasedExactly(UsageTotal(deltas).value, UsageTotal(usages).value, n);
    BalancedMeans(usages, deltas, n);
  }

  lemma BalancedMeans(usages: seq<MandateUsage>, deltas: seq<MandateUsage>, n: nat)
    requires UsageTotal(deltas).Ok? && UsageTotal(usages).Ok?
    requires AmountWithin(UsageTotal(deltas).value.amount, n) && AmountWithin(UsageTotal(usages).value.amount, n)
    requires ReleasedUsage(UsageTotal(deltas).value, Some(UsageTotal(usages).value)).Ok?
    ensures Balanced(usages, deltas, n) <==>
      Conserved(UsageTotal(deltas).value, UsageTotal(usages).value,
                ReleasedUsage(UsageTotal(deltas).value, Some(UsageTotal(usages).value)).value, n)
  {
    hide UsageTotal, AmountWithin, ReleasedUsage, Conserved;
  }

  lemma ActualIsThere(i: Instruction, effects: Option<StepEffects>, deltas: Option<seq<MandateUsage>>)
    requires SettlementCheck(i, effects, deltas) == None && i.disposition.SettleActual?
    ensures i.actual.Some?
  {
    hide ActualCheck;
  }

  /**
   * The usages of an instruction that was checked against recorded deltas are well formed, and
   * each is within the delta of its mandate. Without recorded deltas they are not checked.
   */
  lemma AcceptedUsages(i: Instruction, effects: Option<StepEffects>, deltas: seq<MandateUsage>, n: nat)
    requires SettlementCheck(i, effects, Some(deltas)) == None && i.disposition.SettleActual?
    requires AmountsWithin(i.actual.value.mandateUsage, n) && WellFormed(deltas, n)
    ensures WellFormed(i.actual.value.mandateUsage, n) && EachWithin(i.actual.value.mandateUsage, deltas, n)
  {
    var usages := i.actual.value.mandateUsage;
    assert CheckUsages(usages, deltas) == None by { hide CheckUsages, CheckEntries; }
    hide *;
    CheckedCounts(usages, deltas, n);
    AcceptedUsagesWithin(usages, deltas, n);
  }

  lemma {:induction false} CheckedCounts(usages: seq<MandateUsage>, deltas: seq<MandateUsage>, n: nat)
    requires CheckUsages(usages, deltas) == None && AmountsWithin(usages, n)
    ensures WellFormed(usages, n)
  {
    if usages != [] {
      var init, last := usages[..|usages| - 1], usages[|usages| - 1];
      assert CheckUsages(init, deltas) == None && CheckUsage(last.delta, ReservedFor(deltas, last.mandateId)) == None;
      hide AmountWithin, CheckUsages, ReservedFor, CompareDecimal, IsAmount, IsDecimal;
      CheckedCounts(init, deltas, n);
      assert usages == init + [last] && last.delta.count >= 0;
      assert forall k | 0 <= k < |init| :: usages[k] == init[k] && init[k].delta.count >= 0;
    }
  }

  /**
   * An accepted settle-actual instruction conserves usage exactly when its metered usages
   * together are within what was recorded together; nothing is recorded when the reservation
   * has no deltas.
   */
  lemma ConservesExactly(i: Instruction, effects: Option<StepEffects>, deltas: Option<seq<MandateUsage>>, n: nat)
    requires SettlementCheck(i, effects, deltas) == None && i.disposition.SettleActual?
    requires AmountsWithin(i.actual.value.mandateUsage, n) && AmountsWithin(Coalesce(deltas, []), n)
    ensures var usages, recorded := i.actual.value.mandateUsage, Coalesce(deltas, []);
            Balanced(usages, recorded, n) <==> CountSum(usages) <= CountSum(recorded) && UnitSum(usages, n) <= UnitSum(recorded, n)
  {
    ActualIsThere(i, effects, deltas);
    hide *;
    BalancedExactly(i.actual.value.mandateUsage, Coalesce(deltas, []), n);
  }

  /**
   * When deltas were recorded, an accepted settle-actual instruction that names no mandate
   * twice conserves usage: what was consumed plus what is released is what was reserved, exactly.
   */
  lemma SettlementConserves(i: Instruction, effects: Option<StepEffects>, deltas: seq<MandateUsage>, n: nat)
    requires SettlementCheck(i, effects, Some(deltas)) == None && i.disposition.SettleActual?
    requires AmountsWithin(i.actual.value.mandateUsage, n) && WellFormed(deltas, n) && DistinctMandates(i.actual.value.mandateUsage)
    ensures Balanced(i.actual.value.mandateUsage, deltas, n)
  {
    ActualIsThere(i, effects, Some(deltas));
    hide *;
    AcceptedUsages(i, effects, deltas, n);
    var usages := i.actual.value.mandateUsage;
    DistinctUsagesWithin(usages, deltas, n);
    WellFormedAmounts(deltas, n);
    BalancedExactly(usages, deltas, n);
  }

  lemma WellFormedAmounts(us: seq<MandateUsage>, n: nat)
    requires WellFormed(us, n)
    ensures AmountsWithin(us, n)
  {}

  /** Naming a mandate twice is accepted and consumes more than was reserved: nothing balances then. */
  lemma RepeatedMandateOverspends()
    ensures var u := MandateUsage("m", Usage(1, None));
            var i := Instruction(SETTLEMENT_SCHEMA, "r", "s", Dispatched, Confirmed, SettleActual,
                                 Some(ActualConsumption(CONSUMPTION_SCHEMA, [], None, [u, u], 0, Verified)));
            && SettlementCheck(i, None, Some([u])) == None
            && UsageTotal([u]) == Ok(Usage(1, None)) && UsageTotal([u, u]) == Ok(Usage(2, None))
            && ReleasedUsage(Usage(1, None), Some(Usage(2, None))) == Ok(Usage(0, None))
            && !Conserved(Usage(1, None), Usage(2, None), Usage(0, None), 0)
  {
    var u := MandateUsage("m", Usage(1, None));
    assert [u, u][..1] == [u] && [u][..0] == [];
    assert ReservedFor([u], "m") == Some(Usage(1, None));
    assert CheckUsages([u], [u]) == None;
  }
}
