/** Runs that reach the spend bound: every parallel step spends the whole cap. */
module SpendRuns {
  import opened Arithmetic
  import opened Outcomes
  import opened Digits
  import opened ScaledAmounts
  import opened Settlement
  import opened RunLedger
  import opened Autonomy

  /** p parallel steps and one cap. */
  function CapFor(c: Column, cap: Cap, p: nat): Profile {
    Profile(OneCap(c, cap).(maxParallel := Some(p as int)), false, map[])
  }

  function ProfilesFor(c: Column, cap: Cap, p: nat): map<string, Profile> { map["profile" := CapFor(c, cap, p)] }

  const FIRST_RUN := Run("profile", ["grant"], 0, ZERO_TOTALS, [])

  function WholeCap(c: Column, cap: Cap): StepEffects { EffectsIn(c, [Spend(cap.tokenId, cap.amount)]) }

  function StepId(k: nat): string { ReservationId("run", Show(k), 0) }

  function AuthorizeStep(c: Column, cap: Cap, k: nat): Move {
    DoAuthorize(Request("run", Show(k), "action", "", WholeCap(c, cap), Show(k)),
                Verdicts(true, true, None, map["grant" := Usage(0, None)]), 0)
  }

  function CommitMove(c: Column, cap: Cap, k: nat): Move {
    DoStore(Op.DoCommit(0, StepId(k), Receipt(0, Some(WholeCap(c, cap)), None)))
  }

  /** Open the run, authorise k steps, commit the first j of them. */
  function FullRun(c: Column, cap: Cap, k: nat, j: nat): seq<Move>
    decreases k + j
  {
    if j > 0 then FullRun(c, cap, k, j - 1) + [CommitMove(c, cap, j - 1)]
    else if k > 0 then FullRun(c, cap, k - 1, 0) + [AuthorizeStep(c, cap, k - 1)]
    else [DoStore(DoOpenRun("run", FIRST_RUN))]
  }

  lemma {:induction false} PlayedSnoc(l: Ledger, profiles: map<string, Profile>, moves: seq<Move>, m: Move, c: Column, tok: string)
    ensures Played(l, profiles, moves + [m]) == Play(Played(l, profiles, moves), profiles, m)
    ensures AllDisciplined(l, profiles, moves + [m], c, tok)
       <==> AllDisciplined(l, profiles, moves, c, tok) && Disciplined(Played(l, profiles, moves), m, c, tok)
    decreases |moves|
  {
    hide Play, Disciplined;
    if moves == [] {
      assert [m][1..] == [] && moves + [m] == [m];
      assert Played(Play(l, profiles, m), profiles, []) == Play(l, profiles, m);
      assert AllDisciplined(Play(l, profiles, m), profiles, [], c, tok);
    } else {
      assert (moves + [m])[1..] == moves[1..] + [m];
      PlayedSnoc(Play(l, profiles, moves[0]), profiles, moves[1..], m, c, tok);
    }
  }

  lemma StepIdsDiffer(i: nat, k: nat)
    ensures StepId(i) == StepId(k) <==> i == k
  {
    var a, b := StepId(i), StepId(k);
    var pre, post := "res:run:", ":" + Show(0);
    assert a == pre + Show(i) + post && b == pre + Show(k) + post;
    assert a[|pre|..|a| - |post|] == Show(i) && b[|pre|..|b| - |post|] == Show(k);
    NatOfShow(i);
    NatOfShow(k);
  }

  /** The reservation of step i, open unless it is one of the first j. */
  predicate StepStands(l: Ledger, c: Column, cap: Cap, i: nat, j: nat) {
    StepId(i) in l.reservations &&
    var r := l.reservations[StepId(i)];
    r.runId == "run" && r.effects == Some(WholeCap(c, cap)) && r.expiresAt == RESERVATION_TTL_MS && (i >= j <==> r.status.Reserved?)
  }

  predicate Untouched(l: Ledger, i: nat) {
    StepId(i) !in l.reservations && ("run" in l.runs ==> Show(i) !in l.runs["run"].usedNonces)
  }

  /** k steps authorised, the first j committed. */
  ghost predicate Stands(l: Ledger, c: Column, cap: Cap, k: nat, j: nat) {
    && "run" in l.runs && RunStands(l.runs["run"], c, cap, k, j)
    && (forall i: nat | i >= k :: Untouched(l, i)) && forall i: nat | i < k :: StepStands(l, c, cap, i, j)
  }

  predicate RunStands(run: Run, c: Column, cap: Cap, k: nat, j: nat) {
    && run.profileId == "profile" && run.grantProofIds == ["grant"] && run.startedAt == 0
    && run.totals.reservedSteps == k - j && StoredUnits(Lookup(ColumnOf(run.totals, c), cap.tokenId)) == j * ToScaled(cap.amount)
  }

  lemma OneWholeCap(c: Column, cap: Cap)
    requires !c.Channels?
    ensures forall d: Column :: Entries(Some(WholeCap(c, cap)), d) == if d == c then [Spend(cap.tokenId, cap.amount)] else []
    ensures EntryUnits([Spend(cap.tokenId, cap.amount)], cap.tokenId) == ToScaled(cap.amount)
    ensures EntryCount([Spend(cap.tokenId, cap.amount)], cap.tokenId) == 1
  {
    assert [Spend(cap.tokenId, cap.amount)][..0] == [];
    hide ToScaled;
  }

  /** Before anything is committed the next step passes the limits. */
  lemma NextPasses(totals: Totals, c: Column, cap: Cap, p: nat)
    requires !c.Channels? && totals.reservedSteps < p && StoredUnits(Lookup(ColumnOf(totals, c), cap.tokenId)) == 0
    ensures LimitHit(CapFor(c, cap, p).limits, WholeCap(c, cap), totals, 0, 0).None?
  {
    var limits, e := CapFor(c, cap, p).limits, Spend(cap.tokenId, cap.amount);
    OneWholeCap(c, cap);
    PassesMeans(Lookup(ColumnOf(totals, c), cap.tokenId), cap.amount, cap.amount);
    hide ToScaled, Gt, Add, StoredUnits, Entries, EntryUnits, EntryCount;
    assert EntryHit(limits, totals, c, e).None?;
    assert [e][..0] == [];
    assert FirstHit(limits, totals, c, [e]).None?;
  }

  lemma AuthorizedStep(l: Ledger, c: Column, cap: Cap, p: nat, k: nat)
    requires !c.Channels? && k < p && Stands(l, c, cap, k, 0)
    ensures var q := AuthorizeStep(c, cap, k).request;
            Play(l, ProfilesFor(c, cap, p), AuthorizeStep(c, cap, k))
              == Reserve(UseNonce(l, "run", q.nonce).0, StepId(k), NewReservation(q, [MandateUsage("grant", Usage(0, None))], 0))
    ensures Disciplined(l, AuthorizeStep(c, cap, k), c, cap.tokenId)
  {
    assert Untouched(l, k);
    NextPasses(l.runs["run"].totals, c, cap, p);
    OneWholeCap(c, cap);
    hide LimitHit, Entries, EntryCount, Reserve, ReservationId, ToScaled, StoredUnits;
    assert ["grant"][..0] == [];
    assert AuthorizedDeltas(["grant"], map["grant" := Usage(0, None)]) == [MandateUsage("grant", Usage(0, None))];
  }

  lemma ReserveShape(l: Ledger, nonce: string, id: string, r: Reservation)
    requires "run" in l.runs && nonce !in l.runs["run"].usedNonces && id !in l.reservations && r.runId == "run"
    ensures var run := l.runs["run"];
            Reserve(UseNonce(l, "run", nonce).0, id, r)
              == Ledger(l.runs["run" := run.(usedNonces := run.usedNonces + [nonce],
                                             totals := run.totals.(reservedSteps := run.totals.reservedSteps + 1))],
                        l.reservations[id := r])
  {}

  /** What an authorised step leaves: one more reservation, one more nonce, one more held step. */
  lemma AuthorizedShape(l: Ledger, c: Column, cap: Cap, p: nat, k: nat) returns (r: Reservation)
    requires !c.Channels? && k < p && Stands(l, c, cap, k, 0)
    ensures var run := l.runs["run"];
            Play(l, ProfilesFor(c, cap, p), AuthorizeStep(c, cap, k))
              == Ledger(l.runs["run" := run.(usedNonces := run.usedNonces + [Show(k)],
                                             totals := run.totals.(reservedSteps := run.totals.reservedSteps + 1))],
                        l.reservations[StepId(k) := r])
    ensures r.runId == "run" && r.effects == Some(WholeCap(c, cap)) && r.expiresAt == RESERVATION_TTL_MS && r.status.Reserved?
  {
    assert Untouched(l, k);
    AuthorizedStep(l, c, cap, p, k);
    r := NewReservation(AuthorizeStep(c, cap, k).request, [MandateUsage("grant", Usage(0, None))], 0);
    assert r.runId == "run" && r.effects == Some(WholeCap(c, cap)) && r.expiresAt == RESERVATION_TTL_MS && r.status.Reserved?;
    hide Play, StepId, Show, ProfilesFor, WholeCap, Stands, Reserve, UseNonce, NewReservation;
    ReserveShape(l, Show(k), StepId(k), r);
  }

  lemma AuthorizedStands(l: Ledger, c: Column, cap: Cap, p: nat, k: nat)
    requires !c.Channels? && k < p && Stands(l, c, cap, k, 0)
    ensures Stands(Play(l, ProfilesFor(c, cap, p), AuthorizeStep(c, cap, k)), c, cap, k + 1, 0)
  {
    var r := AuthorizedShape(l, c, cap, p, k);
    var l' := Play(l, ProfilesFor(c, cap, p), AuthorizeStep(c, cap, k));
    hide Play, StepId, Show, StoredUnits, ToScaled, WholeCap, ProfilesFor, AuthorizeStep;
    forall i: nat | i >= k + 1 ensures Untouched(l', i) {
      assert Untouched(l, i);
      StepIdsDiffer(i, k);
      ShownDiffer(i, k);
    }
    forall i: nat | i < k + 1 ensures StepStands(l', c, cap, i, 0) {
      StepIdsDiffer(i, k);
      assert i < k ==> StepStands(l, c, cap, i, 0);
    }
  }

  lemma ShownDiffer(i: nat, k: nat)
    ensures Show(i) == Show(k) <==> i == k
  {
    NatOfShow(i);
    NatOfShow(k);
    hide Show, NatOf;
  }

  lemma CommittedUnits(t: Totals, c: Column, cap: Cap)
    requires !c.Channels?
    ensures StoredUnits(Lookup(ColumnOf(CommitTotals(t, Some(WholeCap(c, cap))), c), cap.tokenId))
         == StoredUnits(Lookup(ColumnOf(t, c), cap.tokenId)) + ToScaled(cap.amount)
  {
    OneWholeCap(c, cap);
    FoldUnits(ColumnOf(t, c), [Spend(cap.tokenId, cap.amount)], cap.tokenId);
    hide Fold, EntryUnits, EntryCount, Entries, ToScaled, StoredUnits;
  }

  lemma CommittedShape(l: Ledger, c: Column, cap: Cap, p: nat, k: nat, j: nat) returns (r: Reservation)
    requires !c.Channels? && j < k && Stands(l, c, cap, k, j)
    ensures var run := l.runs["run"];
            Play(l, ProfilesFor(c, cap, p), CommitMove(c, cap, j))
              == Ledger(l.runs["run" := run.(totals := CommitTotals(run.totals, Some(WholeCap(c, cap))))], l.reservations[StepId(j) := r])
    ensures r.runId == "run" && r.effects == Some(WholeCap(c, cap)) && r.expiresAt == RESERVATION_TTL_MS && !r.status.Reserved?
    ensures Disciplined(l, CommitMove(c, cap, j), c, cap.tokenId)
  {
    assert StepStands(l, c, cap, j, j);
    var receipt := Receipt(0, Some(WholeCap(c, cap)), None);
    r := l.reservations[StepId(j)].(status := Status.Committed, receipt := Some(receipt));
    hide StepId, Show, WholeCap, ProfilesFor, Stands, RunLedger.Commit;
    CommitShape(l, StepId(j), receipt);
  }

  lemma CommitShape(l: Ledger, id: string, receipt: Receipt)
    requires "run" in l.runs && id in l.reservations && l.reservations[id].runId == "run" && l.reservations[id].status.Reserved?
    requires l.reservations[id].expiresAt >= 0
    ensures var run := l.runs["run"];
            RunLedger.Commit(l, 0, id, receipt).0
              == Ledger(l.runs["run" := run.(totals := CommitTotals(run.totals, receipt.effects))],
                        l.reservations[id := l.reservations[id].(status := Status.Committed, receipt := Some(receipt))])
  {
    hide CommitTotals;
  }

  lemma OthersUntouched(l: Ledger, runs: map<string, Run>, j: nat, r: Reservation, i: nat)
    requires Untouched(l, i) && i != j && "run" in l.runs && "run" in runs && runs["run"].usedNonces == l.runs["run"].usedNonces
    ensures Untouched(Ledger(runs, l.reservations[StepId(j) := r]), i)
  {
    StepIdsDiffer(i, j);
    hide StepId, Show;
  }

  lemma NowCommitted(l: Ledger, runs: map<string, Run>, r: Reservation, c: Column, cap: Cap, i: nat, j: nat)
    requires StepStands(l, c, cap, i, j)
    requires r.runId == "run" && r.effects == Some(WholeCap(c, cap)) && r.expiresAt == RESERVATION_TTL_MS && !r.status.Reserved?
    ensures StepStands(Ledger(runs, l.reservations[StepId(j) := r]), c, cap, i, j + 1)
  {
    StepIdsDiffer(i, j);
    hide StepId, Show, WholeCap;
  }

  lemma CommittedRun(run: Run, c: Column, cap: Cap, k: nat, j: nat)
    requires !c.Channels? && j < k && RunStands(run, c, cap, k, j)
    ensures RunStands(run.(totals := CommitTotals(run.totals, Some(WholeCap(c, cap)))), c, cap, k, j + 1)
  {
    CommittedUnits(run.totals, c, cap);
    DistributeSum(j, 1, ToScaled(cap.amount));
    hide StoredUnits, ToScaled, WholeCap, Fold, Entries;
  }

  lemma CommittedStands(l: Ledger, c: Column, cap: Cap, p: nat, k: nat, j: nat)
    requires !c.Channels? && j < k && Stands(l, c, cap, k, j)
    ensures Stands(Play(l, ProfilesFor(c, cap, p), CommitMove(c, cap, j)), c, cap, k, j + 1)
    ensures Disciplined(l, CommitMove(c, cap, j), c, cap.tokenId)
  {
    var r := CommittedShape(l, c, cap, p, k, j);
    var n, l' := j + 1, Play(l, ProfilesFor(c, cap, p), CommitMove(c, cap, j));
    CommittedRun(l.runs["run"], c, cap, k, j);
    var runs := l'.runs;
    assert runs["run"].usedNonces == l.runs["run"].usedNonces;
    hide Play, Disciplined, StepId, Show, WholeCap, ProfilesFor, CommitMove, CommitTotals, RunStands, StepStands, Untouched;
    forall i: nat | i >= k ensures Untouched(l', i) { OthersUntouched(l, runs, j, r, i); }
    forall i: nat | i < k ensures StepStands(l', c, cap, i, n) { NowCommitted(l, runs, r, c, cap, i, j); }
  }

  lemma OpenedStands(c: Column, cap: Cap)
    ensures Stands(Apply(EMPTY_LEDGER, DoOpenRun("run", FIRST_RUN)), c, cap, 0, 0)
  {
    ToScaledZero();
    hide ToScaled, StepId, Show;
  }

  lemma OnlyOpened(c: Column, cap: Cap, p: nat)
    ensures Stands(Played(EMPTY_LEDGER, ProfilesFor(c, cap, p), FullRun(c, cap, 0, 0)), c, cap, 0, 0)
    ensures AllDisciplined(EMPTY_LEDGER, ProfilesFor(c, cap, p), FullRun(c, cap, 0, 0), c, cap.tokenId)
  {
    var m, profiles := DoStore(DoOpenRun("run", FIRST_RUN)), ProfilesFor(c, cap, p);
    PlayedSnoc(EMPTY_LEDGER, profiles, [], m, c, cap.tokenId);
    assert [] + [m] == [m];
    OpenedStands(c, cap);
    hide Stands, ProfilesFor;
  }

  lemma {:induction false} FullRunStands(c: Column, cap: Cap, p: nat, k: nat, j: nat)
    requires !c.Channels? && j <= k <= p
    ensures Stands(Played(EMPTY_LEDGER, ProfilesFor(c, cap, p), FullRun(c, cap, k, j)), c, cap, k, j)
    ensures AllDisciplined(EMPTY_LEDGER, ProfilesFor(c, cap, p), FullRun(c, cap, k, j), c, cap.tokenId)
    decreases k + j
  {
    var profiles := ProfilesFor(c, cap, p);
    hide Stands, ProfilesFor, Played, AllDisciplined, Play, Disciplined, AuthorizeStep, CommitMove;
    if j > 0 {
      FullRunStands(c, cap, p, k, j - 1);
      var before := FullRun(c, cap, k, j - 1);
      PlayedSnoc(EMPTY_LEDGER, profiles, before, CommitMove(c, cap, j - 1), c, cap.tokenId);
      CommittedStands(Played(EMPTY_LEDGER, profiles, before), c, cap, p, k, j - 1);
    } else if k > 0 {
      FullRunStands(c, cap, p, k - 1, 0);
      var before := FullRun(c, cap, k - 1, 0);
      PlayedSnoc(EMPTY_LEDGER, profiles, before, AuthorizeStep(c, cap, k - 1), c, cap.tokenId);
      AuthorizedStands(Played(EMPTY_LEDGER, profiles, before), c, cap, p, k - 1);
      AuthorizedStep(Played(EMPTY_LEDGER, profiles, before), c, cap, p, k - 1);
    } else {
      OnlyOpened(c, cap, p);
    }
  }

  /** A run under the bound's discipline and limits. */
  predicate BoundApplies(profiles: map<string, Profile>, moves: seq<Move>, runId: string, c: Column, cap: Cap, p: nat) {
    AllDisciplined(EMPTY_LEDGER, profiles, moves, c, cap.tokenId) && Limited(Played(EMPTY_LEDGER, profiles, moves), profiles, runId, c, cap, p)
  }

  /** For every p the bound is reached: p steps authorised side by side and committed spend p times the cap. */
  lemma SpendBoundIsReached(c: Column, cap: Cap, p: nat)
    requires !c.Channels?
    ensures var profiles, moves := ProfilesFor(c, cap, p), FullRun(c, cap, p, p);
            && BoundApplies(profiles, moves, "run", c, cap, p)
            && Autonomy.Moved(Played(EMPTY_LEDGER, profiles, moves), "run", c, cap.tokenId) == p * ToScaled(cap.amount)
  {
    FullRunStands(c, cap, p, p, p);
    hide Played, AllDisciplined, FullRun, StoredUnits, ToScaled;
  }

  predicate SpendsWithin(profiles: map<string, Profile>, moves: seq<Move>, runId: string, c: Column, cap: Cap, p: nat) {
    BoundApplies(profiles, moves, runId, c, cap, p) ==> Autonomy.Moved(Played(EMPTY_LEDGER, profiles, moves), runId, c, cap.tokenId) <= ToScaled(cap.amount)
  }

  /** Every run with at most p steps at a time stays within the cap itself. */
  ghost predicate CapHolds(c: Column, cap: Cap, p: nat) {
    forall profiles, moves, runId :: SpendsWithin(profiles, moves, runId, c, cap, p)
  }

  lemma OneOrNothing(p: nat, cap: nat)
    requires p <= 1 || cap == 0
    ensures p * cap <= cap
  {
    if p > 1 { assert p * 0 == 0; }
  }

  lemma OneStepWithin(profiles: map<string, Profile>, moves: seq<Move>, runId: string, c: Column, cap: Cap, p: nat)
    requires !c.Channels? && (p <= 1 || ToScaled(cap.amount) == 0)
    ensures SpendsWithin(profiles, moves, runId, c, cap, p)
  {
    hide Played, AllDisciplined, Autonomy.Moved, Held, ToScaled, Limited;
    OneOrNothing(p, ToScaled(cap.amount));
    if BoundApplies(profiles, moves, runId, c, cap, p) {
      LimitedRun(Played(EMPTY_LEDGER, profiles, moves), profiles, runId, c, cap, p);
      SpendBound(profiles, moves, runId, c, cap, p);
      HeldNonNegative(Played(EMPTY_LEDGER, profiles, moves), runId, c, cap.tokenId);
    }
  }

  lemma LimitedRun(l: Ledger, profiles: map<string, Profile>, runId: string, c: Column, cap: Cap, p: nat)
    requires Limited(l, profiles, runId, c, cap, p)
    ensures runId in l.runs
  {}

  /**
   * Exactly when the cap bounds the spend of every disciplined run: with at most one step at a
   * time, or when it is zero.
   */
  lemma CapHoldsExactly(c: Column, cap: Cap, p: nat)
    requires !c.Channels?
    ensures CapHolds(c, cap, p) <==> p <= 1 || ToScaled(cap.amount) == 0
  {
    hide BoundApplies, Autonomy.Moved, Played, FullRun, ProfilesFor, ToScaled;
    if p <= 1 || ToScaled(cap.amount) == 0 {
      forall profiles, moves, runId ensures SpendsWithin(profiles, moves, runId, c, cap, p) {
        OneStepWithin(profiles, moves, runId, c, cap, p);
      }
    } else {
      SpendBoundIsReached(c, cap, p);
      DistributeSum(p - 1, 1, ToScaled(cap.amount));
      MulAtLeast(p - 1, ToScaled(cap.amount));
      assert !SpendsWithin(ProfilesFor(c, cap, p), FullRun(c, cap, p, p), "run", c, cap, p);
    }
  }
}
