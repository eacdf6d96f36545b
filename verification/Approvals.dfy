/**
 * Exactly which requests a run is answered yes, which are put before a human, and what an
 * approval writes, stated of the run, its profile and the mandates.
 */
module Approvals {
  import opened Outcomes
  import opened Digits
  import opened ScaledAmounts
  import opened Settlement
  import opened Sums
  import opened RunLedger
  import opened Autonomy

  // ---- The limits ---------------------------------------------------------

  /** What was moved of the token and the amount of the entry are together within the cap. */
  predicate Fits(cap: Option<Cap>, moved: map<string, string>, e: Spend) {
    cap.Some? && cap.value.tokenId == e.tokenId ==>
      StoredUnits(Lookup(moved, e.tokenId)) + ToScaled(e.amount) <= ToScaled(cap.value.amount)
  }

  /** The entry alone is within the cap per step. */
  predicate FitsStep(limits: RunLimits, e: Spend) {
    limits.maxStepSpend.Some? && limits.maxStepSpend.value.tokenId == e.tokenId ==>
      ToScaled(e.amount) <= ToScaled(limits.maxStepSpend.value.amount)
  }

  predicate CountsWithin(limits: RunLimits, totals: Totals, now: int, startedAt: int) {
    && (limits.maxSteps.Some? ==> totals.committedSteps + totals.reservedSteps < limits.maxSteps.value)
    && (limits.maxParallel.Some? ==> totals.reservedSteps < limits.maxParallel.value)
    && (limits.maxFailures.Some? ==> totals.abortedSteps < limits.maxFailures.value)
    && (limits.maxDurationMs.Some? ==> now <= startedAt + limits.maxDurationMs.value)
  }

  predicate SpendsWithin(limits: RunLimits, totals: Totals, spends: seq<Spend>) {
    forall k | 0 <= k < |spends| :: FitsStep(limits, spends[k]) && Fits(limits.maxGrossSpend, totals.spentByToken, spends[k])
  }

  predicate FeesWithin(limits: RunLimits, totals: Totals, fees: Option<seq<Spend>>) {
    fees.Some? ==> forall k | 0 <= k < |fees.value| :: Fits(limits.maxFees, totals.feesByToken, fees.value[k])
  }

  predicate ChannelWithin(limits: RunLimits, totals: Totals, channelId: string) {
    limits.maxExposure.Some? ==>
      StoredUnits(Lookup(totals.outstandingByToken, channelId)) <= ToScaled(limits.maxExposure.value.amount)
  }

  predicate ExposureWithin(limits: RunLimits, totals: Totals, channels: Option<seq<string>>) {
    channels.Some? ==> forall k | 0 <= k < |channels.value| :: ChannelWithin(limits, totals, channels.value[k])
  }

  predicate WithinLimits(limits: RunLimits, effects: StepEffects, totals: Totals, now: int, startedAt: int) {
    && CountsWithin(limits, totals, now, startedAt) && SpendsWithin(limits, totals, effects.spends)
    && FeesWithin(limits, totals, effects.fees) && ExposureWithin(limits, totals, effects.channels)
  }

  /** The first limit that is hit is a cap of the whole run on spends or on fees. */
  predicate RunCapFirst(limits: RunLimits, effects: StepEffects, totals: Totals, now: int, startedAt: int) {
    && CountsWithin(limits, totals, now, startedAt)
    && ((SpendsWithin(limits, totals, effects.spends) && !FeesWithin(limits, totals, effects.fees))
        || GrossSpendFirst(limits, totals, effects.spends))
  }

  predicate GrossSpendFirst(limits: RunLimits, totals: Totals, spends: seq<Spend>) {
    exists k :: 0 <= k < |spends| && SpendsWithin(limits, totals, spends[..k])
                && FitsStep(limits, spends[k]) && !Fits(limits.maxGrossSpend, totals.spentByToken, spends[k])
  }

  lemma CapFits(cap: Option<Cap>, moved: map<string, string>, e: Spend)
    ensures Passes(cap, moved, e) <==> !Fits(cap, moved, e)
  {
    if cap.Some? { PassesMeans(Lookup(moved, e.tokenId), e.amount, cap.value.amount); }
    hide ToScaled, StoredUnits, Add, Gt, Lookup;
  }

  lemma SpendFits(limits: RunLimits, totals: Totals, e: Spend)
    ensures var hit := EntryHit(limits, totals, Spends, e);
            && (hit.None? <==> FitsStep(limits, e) && Fits(limits.maxGrossSpend, totals.spentByToken, e))
            && (hit == Some(MaxGrossSpend) <==> FitsStep(limits, e) && !Fits(limits.maxGrossSpend, totals.spentByToken, e))
            && (hit.Some? ==> hit.value in {MaxGrossSpend, MaxStepSpend})
  {
    CapFits(limits.maxGrossSpend, totals.spentByToken, e);
    hide ToScaled, Passes, Fits;
  }

  lemma FeeFits(limits: RunLimits, totals: Totals, e: Spend)
    ensures EntryHit(limits, totals, Fees, e) == if Fits(limits.maxFees, totals.feesByToken, e) then None else Some(MaxFees)
  {
    CapFits(limits.maxFees, totals.feesByToken, e);
    hide Passes, Fits;
  }

  lemma ChannelFits(limits: RunLimits, totals: Totals, e: Spend)
    ensures EntryHit(limits, totals, Channels, e) == if ChannelWithin(limits, totals, e.tokenId) then None else Some(MaxExposure)
  {
    ToScaledZero();
    if limits.maxExposure.Some? { PassesMeans(Lookup(totals.outstandingByToken, e.tokenId), "0", limits.maxExposure.value.amount); }
    hide ToScaled, StoredUnits, Add, Gt, Lookup;
  }

  lemma {:induction false} SpendsFit(limits: RunLimits, totals: Totals, spends: seq<Spend>)
    ensures var hit := FirstHit(limits, totals, Spends, spends);
            && (hit.None? <==> SpendsWithin(limits, totals, spends))
            && (hit == Some(MaxGrossSpend) <==> GrossSpendFirst(limits, totals, spends))
            && (hit.Some? ==> hit.value in {MaxGrossSpend, MaxStepSpend})
  {
    hide EntryHit, Fits, FitsStep;
    if spends != [] {
      var n := |spends| - 1;
      var init := spends[..n];
      SpendsFit(limits, totals, init);
      SpendFits(limits, totals, spends[n]);
      SpendsWithinSnoc(limits, totals, spends);
      if SpendsWithin(limits, totals, init) {
        assert FitsStep(limits, spends[n]) && !Fits(limits.maxGrossSpend, totals.spentByToken, spends[n]) ==> GrossSpendFirst(limits, totals, spends);
      }
      GrossFirstSnoc(limits, totals, spends);
    }
  }

  lemma SpendsWithinSnoc(limits: RunLimits, totals: Totals, spends: seq<Spend>)
    requires spends != []
    ensures var n := |spends| - 1;
            SpendsWithin(limits, totals, spends) <==>
              SpendsWithin(limits, totals, spends[..n]) && FitsStep(limits, spends[n]) && Fits(limits.maxGrossSpend, totals.spentByToken, spends[n])
  {
    hide Fits, FitsStep;
    var n := |spends| - 1;
    assert forall k | 0 <= k < n :: spends[..n][k] == spends[k];
  }

  lemma GrossFirstSnoc(limits: RunLimits, totals: Totals, spends: seq<Spend>)
    requires spends != []
    ensures var n := |spends| - 1;
            GrossSpendFirst(limits, totals, spends) <==>
              GrossSpendFirst(limits, totals, spends[..n])
              || (SpendsWithin(limits, totals, spends[..n]) && FitsStep(limits, spends[n]) && !Fits(limits.maxGrossSpend, totals.spentByToken, spends[n]))
  {
    hide Fits, FitsStep, SpendsWithin;
    var n := |spends| - 1;
    assert forall k | 0 <= k < n :: spends[..n][..k] == spends[..k] && spends[..n][k] == spends[k];
  }

  lemma {:induction false} FeesFit(limits: RunLimits, totals: Totals, fees: seq<Spend>)
    ensures var hit := FirstHit(limits, totals, Fees, fees);
            && (hit.None? <==> FeesWithin(limits, totals, Some(fees)))
            && (hit.Some? ==> hit == Some(MaxFees))
  {
    hide EntryHit, Fits;
    if fees != [] {
      var n := |fees| - 1;
      FeesFit(limits, totals, fees[..n]);
      FeeFits(limits, totals, fees[n]);
      assert forall k | 0 <= k < n :: fees[..n][k] == fees[k];
    }
  }

  lemma {:induction false} ExposureFits(limits: RunLimits, totals: Totals, channels: seq<string>, entries: seq<Spend>)
    requires |entries| == |channels| && forall k | 0 <= k < |channels| :: entries[k] == Spend(channels[k], "0")
    ensures var hit := FirstHit(limits, totals, Channels, entries);
            && (hit.None? <==> ExposureWithin(limits, totals, Some(channels)))
            && (hit.Some? ==> hit == Some(MaxExposure))
  {
    hide EntryHit, ChannelWithin;
    if channels != [] {
      var n := |channels| - 1;
      ExposureFits(limits, totals, channels[..n], entries[..n]);
      ChannelFits(limits, totals, entries[n]);
      assert forall k | 0 <= k < n :: channels[..n][k] == channels[k];
    }
  }

  /** An action passes exactly when every count and every entry is within its limit. */
  lemma LimitsExactly(limits: RunLimits, effects: StepEffects, totals: Totals, now: int, startedAt: int)
    ensures LimitHit(limits, effects, totals, now, startedAt).None? <==> WithinLimits(limits, effects, totals, now, startedAt)
    ensures LimitHit(limits, effects, totals, now, startedAt).Some? ==>
              (Escalates(LimitHit(limits, effects, totals, now, startedAt).value) <==> RunCapFirst(limits, effects, totals, now, startedAt))
  {
    SpendsFit(limits, totals, effects.spends);
    FeesFit(limits, totals, Coalesce(effects.fees, []));
    ExposureFits(limits, totals, Coalesce(effects.channels, []), Entries(Some(effects), Channels));
    CountsExactly(limits, totals, now, startedAt);
    NoneIsEmpty(limits, totals);
    EntriesOf(effects);
    hide FirstHit, SpendsWithin, FeesWithin, ExposureWithin, CountsWithin, CountHit, GrossSpendFirst, Entries;
  }

  lemma EntriesOf(effects: StepEffects)
    ensures Entries(Some(effects), Spends) == effects.spends && Entries(Some(effects), Fees) == Coalesce(effects.fees, [])
  {}

  lemma NoneIsEmpty(limits: RunLimits, totals: Totals)
    ensures FeesWithin(limits, totals, None) && FeesWithin(limits, totals, Some([]))
    ensures ExposureWithin(limits, totals, None) && ExposureWithin(limits, totals, Some([]))
  {}

  lemma CountsExactly(limits: RunLimits, totals: Totals, now: int, startedAt: int)
    ensures CountHit(limits, totals, now, startedAt).None? <==> CountsWithin(limits, totals, now, startedAt)
    ensures CountHit(limits, totals, now, startedAt).Some? ==> !Escalates(CountHit(limits, totals, now, startedAt).value)
  {}

  /** A channel entry moves nothing. */
  lemma {:induction false} ChannelsMoveNothing(entries: seq<Spend>, channelId: string)
    requires forall k | 0 <= k < |entries| :: entries[k].amount == "0"
    ensures EntryUnits(entries, channelId) == 0
  {
    ToScaledZero();
    hide ToScaled;
    if entries != [] { ChannelsMoveNothing(entries[..|entries| - 1], channelId); }
  }

  /**
   * In every state the run store reaches the outstanding amount of every channel reads as zero,
   * so the limit on outstanding exposure is never hit, whatever it is.
   */
  lemma ExposureNeverHit(ops: seq<Op>, runId: string, limits: RunLimits, channels: Option<seq<string>>)
    requires AllProper(EMPTY_LEDGER, ops) && runId in After(EMPTY_LEDGER, ops).runs
    ensures forall c :: StoredUnits(Lookup(After(EMPTY_LEDGER, ops).runs[runId].totals.outstandingByToken, c)) == 0
    ensures ExposureWithin(limits, After(EMPTY_LEDGER, ops).runs[runId].totals, channels)
  {
    var l := After(EMPTY_LEDGER, ops);
    TotalsAgree(ops);
    hide *;
    AgreementMeansZero(l, runId);
    ZeroIsWithin(limits, l.runs[runId].totals, channels);
  }

  lemma ZeroIsWithin(limits: RunLimits, totals: Totals, channels: Option<seq<string>>)
    requires forall c :: StoredUnits(Lookup(totals.outstandingByToken, c)) == 0
    ensures ExposureWithin(limits, totals, channels)
  {
    hide StoredUnits, ToScaled;
  }

  lemma AgreementMeansZero(l: Ledger, runId: string)
    requires Agrees(l) && runId in l.runs
    ensures forall c :: StoredUnits(Lookup(l.runs[runId].totals.outstandingByToken, c)) == 0
  {
    hide StoredUnits, ToScaled, Entries, Lookup;
    forall c ensures StoredUnits(Lookup(l.runs[runId].totals.outstandingByToken, c)) == 0 {
      assert TallyAgrees(l, runId, RunLedger.Moved(Channels, c));
      NothingShared(l, runId, c);
    }
  }

  lemma NothingShared(l: Ledger, runId: string, channelId: string)
    ensures Recomputed(l, runId, RunLedger.Moved(Channels, channelId)) == 0
  {
    forall id | id in l.reservations ensures ShareOf(runId, RunLedger.Moved(Channels, channelId))(l.reservations[id]) == 0 {
      var r := l.reservations[id];
      if r.receipt.Some? { ChannelsMoveNothing(Entries(r.receipt.value.effects, Channels), channelId); }
    }
    SumZero(l.reservations, ShareOf(runId, RunLedger.Moved(Channels, channelId)));
  }

  // ---- The grants ---------------------------------------------------------

  /** The grant is one of the run's, and its mandate authorises the action. */
  predicate Authorizes(run: Run, v: Verdicts, g: string) { g in run.grantProofIds && g in v.mandates }

  /** Some grant authorises, all that are required do, and one of the alternatives does when there are any. */
  predicate GrantsSuffice(run: Run, profile: Profile, q: Request, v: Verdicts) {
    && (exists g :: g in run.grantProofIds && g in v.mandates)
    && (q.action in profile.requirements ==>
          && (forall g | g in profile.requirements[q.action].allOf :: Authorizes(run, v, g))
          && (profile.requirements[q.action].anyOf == [] || exists g :: g in profile.requirements[q.action].anyOf && Authorizes(run, v, g)))
  }

  /** The deltas are the usages of the grants at the places `at`, which are all that authorise, in order. */
  predicate UsagesOf(grants: seq<string>, mandates: map<string, Usage>, deltas: seq<MandateUsage>, at: seq<nat>) {
    && |at| == |deltas|
    && (forall k | 0 <= k < |at| :: at[k] < |grants| && grants[at[k]] in mandates
                                    && deltas[k].mandateId == grants[at[k]] && deltas[k].delta == mandates[grants[at[k]]])
    && (forall j, k | 0 <= j < k < |at| :: at[j] < at[k])
    && (forall p: nat | p < |grants| && grants[p] in mandates :: p in at)
  }

  lemma {:induction false} DeltasAre(grants: seq<string>, mandates: map<string, Usage>) returns (at: seq<nat>)
    ensures UsagesOf(grants, mandates, AuthorizedDeltas(grants, mandates), at)
  {
    at := [];
    if grants != [] {
      var n := |grants| - 1;
      var before := DeltasAre(grants[..n], mandates);
      at := if grants[n] in mandates then before + [n] else before;
      hide UsagesOf;
      UsagesSnoc(grants, mandates, AuthorizedDeltas(grants[..n], mandates), before);
    }
  }

  lemma UsagesSnoc(grants: seq<string>, mandates: map<string, Usage>, deltas: seq<MandateUsage>, at: seq<nat>)
    requires grants != [] && UsagesOf(grants[..|grants| - 1], mandates, deltas, at)
    ensures var n := |grants| - 1;
            if grants[n] in mandates then UsagesOf(grants, mandates, deltas + [MandateUsage(grants[n], mandates[grants[n]])], at + [n])
            else UsagesOf(grants, mandates, deltas, at)
  {
    var n := |grants| - 1;
    assert forall p | 0 <= p < n :: grants[..n][p] == grants[p];
    if grants[n] in mandates { assert (at + [n])[|at|] == n; }
    forall p: nat | p < n && grants[p] in mandates ensures p in at + [n] { assert grants[..n][p] in mandates; }
  }

  lemma NamedExactly(grants: seq<string>, mandates: map<string, Usage>, g: string)
    ensures Names(AuthorizedDeltas(grants, mandates), g) <==> g in grants && g in mandates
    ensures AuthorizedDeltas(grants, mandates) == [] <==> forall h | h in grants :: h !in mandates
  {
    var at := DeltasAre(grants, mandates);
    var deltas := AuthorizedDeltas(grants, mandates);
    hide AuthorizedDeltas;
    forall p: nat | p < |grants| && grants[p] in mandates ensures deltas != [] && Names(deltas, grants[p]) {
      assert p in at;
      var k :| 0 <= k < |at| && at[k] == p;
      assert deltas[k].mandateId == grants[p];
    }
    if deltas != [] { assert grants[at[0]] in mandates; }
    if g in grants && g in mandates {
      var p :| 0 <= p < |grants| && grants[p] == g;
      assert Names(deltas, grants[p]);
    }
  }

  lemma GrantsExactly(run: Run, profile: Profile, q: Request, v: Verdicts)
    ensures var deltas := AuthorizedDeltas(run.grantProofIds, v.mandates);
            RequirementMet(Lookup(profile.requirements, q.action), deltas) && deltas != [] <==> GrantsSuffice(run, profile, q, v)
  {
    var deltas := AuthorizedDeltas(run.grantProofIds, v.mandates);
    forall g ensures Names(deltas, g) <==> Authorizes(run, v, g) { NamedExactly(run.grantProofIds, v.mandates, g); }
    NamedExactly(run.grantProofIds, v.mandates, "");
    hide AuthorizedDeltas, Names, Authorizes;
  }

  // ---- The answer ---------------------------------------------------------

  /** The run and its profile are known, the nonce is new, and transition and obligations are in order. */
  predicate Admissible(l: Ledger, profiles: map<string, Profile>, q: Request, v: Verdicts) {
    && q.runId in l.runs && l.runs[q.runId].profileId in profiles
    && q.nonce !in l.runs[q.runId].usedNonces && v.transition && v.obligations
  }

  /**
   * Exactly when a request is approved: it is admissible, nothing it moves passes a limit, and
   * the grants of the run that authorise it are those its profile requires.
   */
  lemma ApprovedExactly(l: Ledger, profiles: map<string, Profile>, q: Request, v: Verdicts, now: nat)
    ensures Authorize(l, profiles, q, v, now).1.Approved? <==>
      && Admissible(l, profiles, q, v)
      && var run := l.runs[q.runId];
      && var profile := profiles[run.profileId];
      && WithinLimits(profile.limits, q.effects, run.totals, now, run.startedAt) && v.otherLimit.None?
      && GrantsSuffice(run, profile, q, v)
  {
    if q.runId in l.runs && l.runs[q.runId].profileId in profiles {
      var run := l.runs[q.runId];
      LimitsExactly(profiles[run.profileId].limits, q.effects, run.totals, now, run.startedAt);
      GrantsExactly(run, profiles[run.profileId], q, v);
    }
    hide LimitHit, WithinLimits, RequirementMet, GrantsSuffice, AuthorizedDeltas, ReservationId, Reserve, NewReservation, RunCapFirst;
  }

  /**
   * Exactly when an admissible request goes to a human: the profile escalates and a run-wide cap
   * is the first limit hit, or another escalating limit is; or all is within limits but the grants.
   */
  lemma HumanExactly(l: Ledger, profiles: map<string, Profile>, q: Request, v: Verdicts, now: nat)
    ensures Authorize(l, profiles, q, v, now).1.RequiresHuman? <==>
      && Admissible(l, profiles, q, v)
      && var run := l.runs[q.runId];
      && var profile := profiles[run.profileId];
      if !WithinLimits(profile.limits, q.effects, run.totals, now, run.startedAt) then
        profile.escalates && RunCapFirst(profile.limits, q.effects, run.totals, now, run.startedAt)
      else if v.otherLimit.Some? then profile.escalates && v.otherLimit.value
      else !GrantsSuffice(run, profile, q, v)
  {
    if q.runId in l.runs && l.runs[q.runId].profileId in profiles {
      var run := l.runs[q.runId];
      LimitsExactly(profiles[run.profileId].limits, q.effects, run.totals, now, run.startedAt);
      GrantsExactly(run, profiles[run.profileId], q, v);
    }
    hide LimitHit, WithinLimits, RequirementMet, GrantsSuffice, AuthorizedDeltas, ReservationId, Reserve, NewReservation, RunCapFirst, Escalates;
  }

  /** The run with one more used nonce. */
  predicate OnlyNonce(before: Run, after: Run, nonce: string) {
    after.usedNonces == before.usedNonces + [nonce] && after.(usedNonces := before.usedNonces) == before
  }

  /** A request that is not approved reserves nothing; once run and profile are known it uses up a new nonce. */
  lemma RefusalWrites(l: Ledger, profiles: map<string, Profile>, q: Request, v: Verdicts, now: nat)
    requires !Authorize(l, profiles, q, v, now).1.Approved?
    ensures var l' := Authorize(l, profiles, q, v, now).0;
            if q.runId in l.runs && l.runs[q.runId].profileId in profiles && q.nonce !in l.runs[q.runId].usedNonces then
              && l'.reservations == l.reservations && l'.runs.Keys == l.runs.Keys && OnlyNonce(l.runs[q.runId], l'.runs[q.runId], q.nonce)
              && forall runId | runId in l.runs && runId != q.runId :: l'.runs[runId] == l.runs[runId]
            else l' == l
  {
    hide LimitHit, RequirementMet, AuthorizedDeltas, Refusal, Reserve, ReservationId;
  }

  /**
   * What an approval answers and writes: the usages of all grants that authorise, in order, and
   * one reservation of exactly what was requested for a minute, counted as a reserved step,
   * unless its id is that of a live reservation.
   */
  lemma ApprovalWrites(l: Ledger, profiles: map<string, Profile>, q: Request, v: Verdicts, now: nat) returns (at: seq<nat>)
    requires Authorize(l, profiles, q, v, now).1.Approved?
    ensures q.runId in l.runs
    ensures var (l', a) := Authorize(l, profiles, q, v, now);
            && UsagesOf(l.runs[q.runId].grantProofIds, v.mandates, a.usageDeltas, at)
            && a.reservationId == "res:" + q.runId + ":" + q.stepId + ":" + Show(now) && a.expiresAt == now + 60_000
            && l'.runs.Keys == l.runs.Keys && (forall runId | runId in l.runs && runId != q.runId :: l'.runs[runId] == l.runs[runId])
            && var live := a.reservationId in l.reservations && l.reservations[a.reservationId].status.Reserved?;
            && l'.reservations
                 == (if live then l.reservations
                     else l.reservations[a.reservationId :=
                            Reservation(q.runId, q.stepId, q.actionDigest, Some(q.effects), Some(a.usageDeltas), now + 60_000, Reserved, None)])
            && var run, run' := l.runs[q.runId], l'.runs[q.runId];
            && run'.totals == (if live then run.totals else run.totals.(reservedSteps := run.totals.reservedSteps + 1))
            && OnlyNonce(run, run'.(totals := run.totals), q.nonce)
  {
    at := DeltasAre(l.runs[q.runId].grantProofIds, v.mandates);
    hide LimitHit, RequirementMet, AuthorizedDeltas, UsagesOf, Show;
  }

  /** A failed transition check, a failed obligation or a used nonce: no approval, whatever else holds. */
  lemma InadmissibleRejected(l: Ledger, profiles: map<string, Profile>, q: Request, v: Verdicts, now: nat)
    requires !Admissible(l, profiles, q, v)
    ensures Authorize(l, profiles, q, v, now).1 == Rejected
  {
    hide LimitHit, RequirementMet, AuthorizedDeltas, Reserve, ReservationId;
  }
}
