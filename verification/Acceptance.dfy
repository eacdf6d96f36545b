/** Exactly which settlement instructions are accepted, with every condition spelled out. */
module Acceptance {
  import opened Outcomes
  import opened Decimals
  import opened Settlement

  /** No decimal amount has more than n places. */
  predicate PlacesWithin(entries: seq<Spend>, n: nat) { forall k | 0 <= k < |entries| && IsDecimal(entries[k].amount) :: |Frac(entries[k].amount)| <= n }

  predicate PlacesOf(amount: Option<string>, n: nat) { amount.Some? && IsAmount(amount.value) ==> |Frac(amount.value)| <= n }

  predicate UsagePlaces(us: seq<MandateUsage>, n: nat) { forall k | 0 <= k < |us| :: PlacesOf(us[k].delta.amount, n) }

  /** All amounts are decimals, and no token is moved that was not reserved, or more of it than was. */
  ghost predicate EntriesAcceptable(reserved: seq<Spend>, actual: seq<Spend>, n: nat) {
    AllDecimal(reserved, n) && AllDecimal(actual, n) && forall t :: TokenWithin(reserved, actual, t, n)
  }

  /** The delta at j is the last one recorded for the mandate. */
  predicate LastFor(deltas: seq<MandateUsage>, mandateId: string, j: nat) {
    j < |deltas| && deltas[j].mandateId == mandateId && forall k | j < k < |deltas| :: deltas[k].mandateId != mandateId
  }

  predicate WithinDelta(u: Usage, delta: Usage, n: nat) {
    && 0 <= u.count <= delta.count
    && (u.amount.Some? ==>
          && IsDecimal(u.amount.value) && delta.amount.Some? && IsAmount(delta.amount.value)
          && |Frac(u.amount.value)| <= n && |Frac(delta.amount.value)| <= n && At(u.amount.value, n) <= At(delta.amount.value, n))
  }

  predicate UsageAcceptable(u: MandateUsage, deltas: seq<MandateUsage>, n: nat) {
    exists j :: 0 <= j < |deltas| && LastFor(deltas, u.mandateId, j) && WithinDelta(u.delta, deltas[j].delta, n)
  }

  /** Measured consumption within what was reserved; usages count only when deltas were recorded. */
  ghost predicate ActualAcceptable(a: ActualConsumption, effects: Option<StepEffects>, deltas: Option<seq<MandateUsage>>, n: nat) {
    && !a.measurement.Unavailable? && a.schema == "totem:act:actual-consumption/v1" && a.measuredAt >= 0
    && EntriesAcceptable(if effects.Some? then effects.value.spends else [], a.spends, n)
    && EntriesAcceptable(if effects.Some? then Coalesce(effects.value.fees, []) else [], Coalesce(a.fees, []), n)
    && (deltas.Some? ==> forall k | 0 <= k < |a.mandateUsage| :: UsageAcceptable(a.mandateUsage[k], deltas.value, n))
  }

  ghost predicate Acceptable(i: Instruction, effects: Option<StepEffects>, deltas: Option<seq<MandateUsage>>, n: nat) {
    && i.schema == "totem:act:settlement/v1" && i.reservationId != "" && i.settlementId != ""
    && !i.dispatch.DispatchUnknown? && !i.outcome.OutcomeUnknown?
    && (i.disposition.ReleaseNonexecution? ==> i.dispatch.NotDispatched?)
    && (i.disposition.CommitReserved? ==> i.actual.None?)
    && (i.disposition.SettleActual? ==> i.actual.Some? && ActualAcceptable(i.actual.value, effects, deltas, n))
  }

  lemma EntriesExactly(reserved: seq<Spend>, actual: seq<Spend>, outside: SettlementError, n: nat)
    requires PlacesWithin(reserved, n) && PlacesWithin(actual, n)
    ensures CheckEntries(reserved, actual, outside).None? <==> EntriesAcceptable(reserved, actual, n)
  {
    MalformedExactly(reserved);
    MalformedExactly(actual);
    hide TokenTotals, IsDecimal, Frac, Covers, TokenWithin;
    if AllDecimal(reserved, n) && AllDecimal(actual, n) { AcceptedEntriesWithin(reserved, actual, outside, n); }
  }

  lemma {:induction false} LastIsStored(deltas: seq<MandateUsage>, mandateId: string) returns (j: nat)
    ensures ReservedFor(deltas, mandateId).Some? ==> LastFor(deltas, mandateId, j) && deltas[j].delta == ReservedFor(deltas, mandateId).value
    ensures ReservedFor(deltas, mandateId).None? ==> forall k | 0 <= k < |deltas| :: deltas[k].mandateId != mandateId
  {
    j := 0;
    if deltas != [] {
      var n := |deltas| - 1;
      if deltas[n].mandateId == mandateId {
        j := n;
      } else {
        j := LastIsStored(deltas[..n], mandateId);
        assert forall k | 0 <= k < n :: deltas[..n][k] == deltas[k];
      }
    }
  }

  lemma WithinExactly(u: Usage, delta: Usage, n: nat)
    requires PlacesOf(u.amount, n) && PlacesOf(delta.amount, n)
    ensures CheckUsage(u, Some(delta)).None? <==> WithinDelta(u, delta, n)
  {
    if u.amount.Some? && IsDecimal(u.amount.value) {
      DecimalIsAmount(u.amount.value);
      if delta.amount.Some? && IsAmount(delta.amount.value) { CompareDecimalExact(u.amount.value, delta.amount.value, n); }
    }
    hide IsAmount, IsDecimal, Frac, At, CompareDecimal;
  }

  lemma UsageExactly(u: MandateUsage, deltas: seq<MandateUsage>, n: nat)
    requires PlacesOf(u.delta.amount, n) && UsagePlaces(deltas, n)
    ensures CheckUsage(u.delta, ReservedFor(deltas, u.mandateId)).None? <==> UsageAcceptable(u, deltas, n)
  {
    var j := LastIsStored(deltas, u.mandateId);
    hide ReservedFor, WithinDelta;
    if LastFor(deltas, u.mandateId, j) {
      hide CheckUsage;
      WithinExactly(u.delta, deltas[j].delta, n);
    }
    forall k: nat | LastFor(deltas, u.mandateId, k) ensures LastFor(deltas, u.mandateId, j) && k == j {}
  }

  lemma {:induction false} UsagesExactly(us: seq<MandateUsage>, deltas: seq<MandateUsage>, n: nat)
    requires UsagePlaces(us, n) && UsagePlaces(deltas, n)
    ensures CheckUsages(us, deltas).None? <==> forall k | 0 <= k < |us| :: UsageAcceptable(us[k], deltas, n)
  {
    hide CheckUsage, UsageAcceptable, PlacesOf, ReservedFor;
    if us != [] {
      var m := |us| - 1;
      assert forall k | 0 <= k < m :: us[..m][k] == us[k];
      UsagesExactly(us[..m], deltas, n);
      UsageExactly(us[m], deltas, n);
    }
  }

  /**
   * Exactly when an instruction is accepted against what was reserved, at any scale that holds
   * the amounts.
   */
  lemma AcceptedExactly(i: Instruction, effects: Option<StepEffects>, deltas: Option<seq<MandateUsage>>, n: nat)
    requires PlacesWithin(SpendsOf(effects), n) && PlacesWithin(FeesOf(effects), n) && UsagePlaces(Coalesce(deltas, []), n)
    requires i.actual.Some? ==>
               && PlacesWithin(i.actual.value.spends, n) && PlacesWithin(Coalesce(i.actual.value.fees, []), n)
               && UsagePlaces(i.actual.value.mandateUsage, n)
    ensures SettlementCheck(i, effects, deltas).None? <==> Acceptable(i, effects, deltas, n)
  {
    if i.actual.Some? { ActualExactly(i.actual.value, effects, deltas, n); }
    hide ActualCheck, EntriesAcceptable, UsageAcceptable, PlacesWithin, UsagePlaces;
  }

  lemma ActualExactly(a: ActualConsumption, effects: Option<StepEffects>, deltas: Option<seq<MandateUsage>>, n: nat)
    requires PlacesWithin(SpendsOf(effects), n) && PlacesWithin(FeesOf(effects), n) && UsagePlaces(Coalesce(deltas, []), n)
    requires PlacesWithin(a.spends, n) && PlacesWithin(Coalesce(a.fees, []), n) && UsagePlaces(a.mandateUsage, n)
    ensures !a.measurement.Unavailable? && a.schema == "totem:act:actual-consumption/v1" && a.measuredAt >= 0 ==>
              (ActualCheck(a, effects, deltas).None? <==> ActualAcceptable(a, effects, deltas, n))
  {
    EntriesExactly(SpendsOf(effects), a.spends, SpendOutsideReserved, n);
    EntriesExactly(FeesOf(effects), Coalesce(a.fees, []), FeeOutsideReserved, n);
    if deltas.Some? { UsagesExactly(a.mandateUsage, deltas.value, n); }
    hide CheckEntries, CheckUsages, EntriesAcceptable, UsageAcceptable, PlacesWithin, UsagePlaces;
  }
}
