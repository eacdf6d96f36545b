# Governed actions: a verified model

This project models how the repository schedules, authorises, executes at most once and
settles governed actions, and proves properties of that model in Dafny 4.11. Verify it
with `dafny verify dfyconfig.toml`.

The parts, one module per component:

- **Recipes** (`Recipes`, `RecipeRuns`): the topological sort of recipe steps, execution in
  batches under a concurrency cap, and saga compensation.
- **Amounts** (`Arithmetic`, `Digits`, `Decimals`, `ScaledAmounts`, `Deposits`, `MinimaAmounts`): decimal
  strings with a value function into whole units of 10^-n. There are two arithmetics in the
  source, an exact one and one that cuts to 8 decimals, and both are related to exact values.
- **Ledgers** (`Settlement`, `Acceptance`, `RunLedger`, `Autonomy`, `Approvals`, `SpendRuns`,
  `GrantUsage`, `GrantRequests`, `SqlLedger`, `SqlRequests`, `SqlBudget`, `Fates`, over `Sums`):
  reservations that become committed, aborted or unknown, totals kept incrementally, limits
  checked before reserving, and the two-table database form, which follows the in-memory one.
- **Actuation** (`ErrorTaxonomy`, `OperationStore`, `Actuation`): the durable claim, the retry
  loop, the safety stop, and a transition system of interleaved, crashing callers.
- **Quotas** (`FixedWindows`, `Overruns`, `Plans`, `PolicyOverruns`, `Policies`, `RateLimit`,
  `AmountCap`, `PolicyKeys`, `AnchoredUsage`, `Composable`, `Locks`): fixed windows, who shares
  them, all-or-nothing reservation over layers, TTL leases.
- **Matching and encoding** (`Scope`, `Sorting`, `CanonicalJson`, `DigestPreimages`, `JsonTexts`).

A store that the source updates in place is a class with the source's fields. Each of its
methods states its whole effect through a function on values, and the theorems over whole
runs are proved about those functions. A store method is one atomic step. What each main
operation means is stated a second time, in the terms of its input and independently of those
functions: when it succeeds, what it answers and what it writes.

## Where the code differs from what is said about it

- Metered usages are compared with the recorded delta one by one, never their sum, and not at
  all when the reservation recorded no deltas. A settlement conserves usage exactly when the
  actual usages together are within the recorded deltas together, none recorded being the empty
  list. Naming no mandate twice is enough when deltas were recorded, and not enough otherwise
  (`RunLedger.ReceiptConservesExactly`, `Settlement.SettlementConserves`,
  `Settlement.RepeatedMandateOverspends`, `RunLedger.UnrecordedUsageIsNotConserved`).
- Entries of one token inside one action are compared with the run cap one by one: n of them
  move at most n times what is left of the cap, and k whole caps pass together. So every
  passing action fits into the cap exactly when at most one entry per token is allowed
  (`Autonomy.EntriesBound`, `Autonomy.WholeCapsPass`, `Autonomy.FitsExactly`).
- What held steps may spend is not part of the compared spend, so with one entry per action a
  run may spend p times its cap with p parallel steps, and no more. The cap bounds every such
  run exactly when p is at most one or the cap is zero (`Autonomy.SpendBound`,
  `SpendRuns.SpendBoundIsReached`, `SpendRuns.CapHoldsExactly`).
- A committed channel moves the amount zero into the outstanding totals, so these read as zero in
  every state and the limit on outstanding channel exposure never refuses
  (`Approvals.ExposureNeverHit`).
- Comments say the budget of an outcome-unknown grant stays held. The limit sum counts only
  committed and reserved grants, and committing an unknown one consults no limit. A run keeps
  its limit exactly when every such late commit would have passed the check
  (`GrantUsage.LateCommitExact`, `GrantUsage.LimitKeptExactly`, `GrantUsage.GrantBudget`,
  `GrantUsage.LateSettlementOverruns`).
- The scope matcher accepts all a glob accepts exactly when the scope has at most one
  wildcard, or two that are its last two segments (`Scope.CompleteExactly`,
  `Scope.TwoStarsAreNarrower`).
- The quotas keep their caps at any clock readings. Twice the cap per interval holds as long as
  nothing is newly held at a reading before its key's window began, so the clock may step back
  inside a window. Beyond that the exact condition on the list of readings is proved, for quota
  steps of free amounts, for the calls of an amount cap and for those of a rate limit, where
  every reservation weighs one and five readings are not enough (`FixedWindows.TwiceTheCap`,
  `Overruns.OverrunsExactly`, `PolicyOverruns.CapOverrunsExactly`,
  `PolicyOverruns.RateOverrunsExactly`, `PolicyOverruns.RateHoldsSteppingBack`).
- A composition that is itself a layer can answer already_reserved while one of its layers
  newly holds the operation, and a refusal further out then leaves that hold behind
  (`Composable.NestingExactly`, `Composable.RefusalLeaksExactly`, `Composable.MixedLayersLeak`).
- The database store does not expire overdue grants before it checks a limit, the in-memory
  store does. Its sum also counts what run reservations draw, which no limit check has seen
  (`SqlLedger.VerdictsAgreeExactly`, `SqlBudget.OverdueGrantTellsApart`, `SqlBudget.SqlBudget`).
- A recipe step whose `execute` throws rejects the whole recipe without compensating anything
  (`RecipeRuns.ExecuteRecipe`).
- In the database store a renewal or a settlement that throws rolls back the expiry it found; in
  the in-memory run store that expiry stays. This is the only step at which the two part
  (`Fates.StepMirrorsExactly`, `Fates.StoresInStep`).
- Quota keys join owner and token with a NUL character. Owners that contain one can share the
  quota of another owner's token (`PolicyKeys.SharedExactly`, `PolicyKeys.SeparatorCollides`).

## Model

| member | source | states |
|---|---|---|
| Recipes.OrderSteps | packages/act-core/src/recipes.ts:74-111 | Succeeds exactly when step ids are unique, every dependency names a step and the graph is acyclic (some rank strictly decreases along dependencies); the result is a permutation of the steps with every dependency earlier, in order of arrival: sorted by the step that made them free, then by their place in the recipe, also when a dependsOn list repeats an id; otherwise the error names the first repeated id, the first unknown dependency with its step, or the cycle |
| Recipes.ArrivalUnique | packages/act-core/src/recipes.ts:97-106 | There is only one topological order by arrival, so the queue discipline fixes the result |
| Recipes.CheckSteps | packages/act-core/src/recipes.ts:75-86 | Accepts exactly unique ids with known dependencies, and then the index finds every step; else names the first fault |
| Recipes.BuildGraph | packages/act-core/src/recipes.ts:88-95 | In-degrees count dependsOn entries with repetition, and a dependency lists a dependent once per entry, in the order of the recipe |
| Recipes.InitialQueue | packages/act-core/src/recipes.ts:97 | The queue starts as exactly the steps that wait for nothing, in the order of the recipe |
| Recipes.Release | packages/act-core/src/recipes.ts:102-105 | Finishing a step takes one pending entry per listing off each dependent and appends exactly those that reach zero, in the order of the recipe |
| Recipes.Kahn | packages/act-core/src/recipes.ts:97-106 | What is ordered has its dependencies first and is in order of arrival; if a step is left over the graph has a cycle |
| Recipes.LeftoverIsCyclic | packages/act-core/src/recipes.ts:107-109 | Steps the sort could not reach wait for each other, so no rank exists |
| Recipes.OrderGivesRank | packages/act-core/src/recipes.ts:73-111 | A topological order is a rank, so success implies acyclicity |
| RecipeRuns.ExecuteRecipe | packages/act-core/src/recipes.ts:113-182 | Over every run: dependencies finish in earlier batches, no step starts twice, no batch exceeds the concurrency cap, none follows a failed batch, no slot stays idle while a step could start; the result has one entry for each started step and no other, in topological order, with its status and with its compensation exactly when that has run; ok holds exactly when every step ended confirmed or skipped; after a failure exactly the rollback is compensated; a step that throws ends the run with nothing compensated |
| RecipeRuns.RunBatches | packages/act-core/src/recipes.ts:131-162 | The batch loop ends, keeps the schedule rules, and without a failure has started every step |
| RecipeRuns.FilterReady | packages/act-core/src/recipes.ts:132-134 | The ready list is the order filtered to steps not done whose dependencies are done |
| RecipeRuns.RecordBatch | packages/act-core/src/recipes.ts:146-161 | Every outcome of a batch is recorded, and the failure flag is set exactly when one is neither confirmed nor skipped |
| RecipeRuns.SomethingIsReady | packages/act-core/src/recipes.ts:131-136 | Progress: while a step is not done, some step is ready, by acyclicity of the order |
| RecipeRuns.GreedyIsEager | packages/act-core/src/recipes.ts:132-136 | A step that could start with a batch and does not finds the batch full of steps before it in the order |
| RecipeRuns.BatchExtends | packages/act-core/src/recipes.ts:131-162 | Each batch keeps the schedule rules and lowers the number of steps not yet started |
| RecipeRuns.Compensate | packages/act-core/src/recipes.ts:164-177 | Compensations follow the rollback list until one throws, and each is recorded at its step |
| RecipeRuns.RollbackExact | packages/act-core/src/recipes.ts:167-176 | The rollback holds exactly the confirmed steps that declare a compensation, each once |
| RecipeRuns.ReportTells | packages/act-core/src/recipes.ts:179-181 | The report has one entry per started step, in topological order, with its outcome and exactly the compensations that ran |
| RecipeRuns.RollbackReverses | packages/act-core/src/recipes.ts:167 | The rollback goes backwards through the topological order |
| RecipeRuns.DependentsCompensatedFirst | packages/act-core/src/recipes.ts:164-177 | Whenever b depends, directly or through a path, on a, b is compensated before a |
| Decimals.AddDecimalExact | packages/agent-policy/src/settlement.ts:157-166 | addDecimal is the exact sum for operands of any length, in canonical form, at every scale that holds both |
| Decimals.CompareDecimalExact | packages/agent-policy/src/settlement.ts:168-175 | compareDecimal is the sign of the exact difference |
| Decimals.SubtractDecimalExact | packages/agent-policy/src/settlement.ts:294-304 | subtractDecimal is the exact difference cut off at zero, in canonical form |
| Decimals.CanonicalUnique | packages/agent-policy/src/settlement.ts:157-166 | Canonical decimals of one value are one string, so printed results can be compared as text |
| Decimals.AddDecimalCommutes | packages/agent-policy/src/settlement.ts:157-166 | The order of the operands does not show in the printed sum |
| Decimals.AddDecimalAssociates | packages/agent-policy/src/settlement.ts:147-155 | The order in which entries are added does not show in the printed sum |
| Decimals.SubtractUndoesAdd | packages/agent-policy/src/settlement.ts:294-304 | Subtracting what was added gives the canonical amount back, as a string |
| Decimals.CompareIsIdentity | packages/agent-policy/src/settlement.ts:168-175 | On canonical amounts comparing equal is being the same string |
| ScaledAmounts.ToScaledFromScaled | packages/agent-policy/src/run-state-store.ts:504-514 | toScaled undoes fromScaled, which prints canonical decimals of at most 8 places |
| ScaledAmounts.AccumulateAdds | packages/agent-policy/src/run-state-store.ts:516-518 | accumulate adds in whole units of 10^-8 |
| ScaledAmounts.ToScaledFloor | packages/agent-policy/src/run-state-store.ts:504-508 | toScaled is the exact amount cut to 8 decimals: less than one unit is lost, none with 8 places or fewer |
| ScaledAmounts.ToScaledMonotone | packages/agent-policy/src/autonomy.ts:372-391 | The cut respects the exact comparison of the settlement contracts |
| ScaledAmounts.ToScaledSuperadditive | packages/agent-policy/src/autonomy.ts:392-394 | Cutting the parts of a sum never gives more than cutting the sum |
| ScaledAmounts.FoldLoss | packages/agent-policy/src/run-state-store.ts:249-251 | A total of k spends is never above the exact sum and at most k units of 10^-8 below it |
| Deposits.LeadingNumberLongest | packages/chain-provider/src/verify-deposit.ts:202-205 | The number read from a deposit text is its longest prefix that is an amount |
| Deposits.TrimExactly | packages/chain-provider/src/verify-deposit.ts:202-205 | Trimming cuts off exactly the blanks and line ends at both ends |
| Deposits.CompareAmountsExact | packages/chain-provider/src/verify-deposit.ts:202-226 | For all pairs of texts compareAmounts is the sign of the exact difference of the denoted amounts and agrees with compareDecimal |
| MinimaAmounts.PrintValue | extensions/totem-extension/src/constants.ts:28-42 | The printed amount is the value rounded down to d decimals, in canonical form |
| MinimaAmounts.ParseFormat | extensions/totem-extension/src/constants.ts:28-95 | Parsing what was printed with d decimals gives the value rounded down to a multiple of 10^(44-d); so the result is at most v and above v - 10^(44-d); with all 44 decimals it gives the value back |
| MinimaAmounts.FormatParse | extensions/totem-extension/src/constants.ts:28-95 | Printing with all decimals undoes parsing on canonical amounts that fit |
| MinimaAmounts.WholeUnits | extensions/totem-extension/src/constants.ts:28-95 | By default one displayed unit is 10^44 base units, and back |
| Settlement.SumAmounts | packages/agent-policy/src/settlement.ts:147-155 | Returns the per-token totals of the entries, or the malformed-amount error |
| Settlement.TokenTotalsExact | packages/agent-policy/src/settlement.ts:147-155 | Each token total is the exact sum of its entries and is present exactly when the token has one |
| Settlement.MalformedExactly | packages/agent-policy/src/settlement.ts:141-155 | Summing throws exactly when some amount is malformed |
| Settlement.CompareEntries | packages/agent-policy/src/settlement.ts:182-203 | The loop over the summed actual entries gives the verdict of the token-wise comparison |
| Settlement.AssertActualWithinReserved | packages/agent-policy/src/settlement.ts:177-225 | Gives the first complaint about spends, fees and metered usages against what was reserved |
| Settlement.AssertSettlementInstruction | packages/agent-policy/src/settlement.ts:228-263 | Gives the error of an instruction in the order of the checks, or none |
| Acceptance.AcceptedExactly | packages/agent-policy/src/settlement.ts:177-263 | An instruction is accepted if and only if it is complete, terminal and of a known dispatch state, a release was not dispatched, a commit carries no actual, and an actual is measured, within the reserved entries for every token and, when deltas were recorded, within the last delta of its mandate, usage by usage |
| Settlement.AcceptedEntriesWithin | packages/agent-policy/src/settlement.ts:182-203 | Entries are accepted exactly when for every token the exact actual sum is reserved and not exceeded |
| Settlement.SumReservedUsage | packages/agent-policy/src/settlement.ts:266-278 | Returns the summed usage of the deltas or the malformed-amount error |
| Settlement.UsageTotalExact | packages/agent-policy/src/settlement.ts:266-278 | Counts and amounts add up exactly; the amount is absent exactly when every amount is |
| Settlement.DistinctUsagesWithin | packages/agent-policy/src/settlement.ts:205-223 | Usages of different mandates, each within its reserved delta, are together within the reserved sum |
| Settlement.ReleasedExactly | packages/agent-policy/src/settlement.ts:281-292 | actual + released = reserved, for count and amount, exactly when no more was used than reserved (the guard of the clamp); usage without an amount counts as none |
| Settlement.ConservesExactly | packages/agent-policy/src/settlement.ts:177-292 | With or without recorded deltas, an accepted settle-actual instruction conserves usage (actual + released = reserved, for counts and decimal amounts) if and only if its usages together are within the recorded deltas together, in count and in amount; no recorded deltas are the empty list |
| Settlement.SettlementConserves | packages/agent-policy/src/settlement.ts:177-292 | When deltas were recorded distinct mandate ids are enough for that: an accepted settle-actual instruction that names no mandate twice conserves usage |
| Settlement.RepeatedMandateOverspends | packages/agent-policy/src/settlement.ts:207-223 | Counterexample without distinct ids: an accepted instruction naming a mandate twice uses two of one reserved |
| CanonicalJson.WriteUnique | packages/agent-policy/src/run.ts:199-208 | A printed value followed by a delimiter determines the value and what follows it |
| CanonicalJson.QuoteUnique | packages/agent-policy/src/run.ts:202 | A quoted string determines its contents and what follows it (section 7 of RFC 8259) |
| CanonicalJson.CanonDecidesSame | packages/agent-policy/src/run.ts:204-207 | Sorted forms are equal exactly for values that differ in key insertion order only |
| CanonicalJson.TextDecidesSame | packages/agent-policy/src/digest.ts:12-19 | Two values have one canonical text exactly when they are the same up to key insertion order |
| JsonTexts.CanonicalTextIs | packages/agent-policy/src/digest.ts:12-19 | The canonical text is a JSON text (RFC 8259) of the value with the keys of every object in ascending order |
| Sorting.SortIgnoresOrder | packages/agent-policy/src/run.ts:205 | Sorting by key forgets the insertion order and nothing else |
| DigestPreimages.ActionPreimageBinds | packages/agent-policy/src/run.ts:216-229 | Two actions have one digest preimage exactly when they agree on every bound field (effects up to key order, parent receipts up to order) |
| DigestPreimages.ProposalPreimageBinds | packages/agent-policy/src/digest.ts:34-54 | Two proposals have one digest preimage exactly when they agree on every field but createdAt |
| JsonTexts.ActionPreimageIs | packages/agent-policy/src/run.ts:216-229 | The text an action digest is taken of: the domain and the canonical text of exactly the nine named fields, parent receipts sorted |
| JsonTexts.ProposalPreimageIs | packages/agent-policy/src/digest.ts:34-54 | The text a proposal digest is taken of: the domain and the canonical text of exactly the named fields, without createdAt |
| RunLedger.MemoryRunStateStore.CreateRun | packages/agent-policy/src/run-state-store.ts:200-205 | Refuses a known run id, else adds the run |
| RunLedger.MemoryRunStateStore.ReserveStep | packages/agent-policy/src/run-state-store.ts:211-228 | Ignores an id that is still reserved, else stores the reservation and counts it |
| RunLedger.MemoryRunStateStore.CommitStep | packages/agent-policy/src/run-state-store.ts:230-259 | Turns an expired reservation unknown and fails, else commits it and folds its receipt into the totals |
| RunLedger.MemoryRunStateStore.AbortStep | packages/agent-policy/src/run-state-store.ts:261-272 | Aborts a reserved step and is silent on any other |
| RunLedger.MemoryRunStateStore.RecoverReservations | packages/agent-policy/src/run-state-store.ts:298-313 | Marks exactly the overdue reservations asked about unknown and returns all unknown ones |
| RunLedger.MemoryRunStateStore.ReconcileReservation | packages/agent-policy/src/run-state-store.ts:315-367 | Closes an unknown or overdue reservation as aborted or committed, with the default receipt when none is given |
| RunLedger.MemoryRunStateStore.SettleReservation | packages/agent-policy/src/run-state-store.ts:369-477 | Replays, refuses, or closes by an accepted instruction; an expiry found on the way stays even when validation throws |
| RunLedger.MemoryRunStateStore.RenewReservation | packages/agent-policy/src/run-state-store.ts:479-493 | Extends a live lease only forwards; an overdue one becomes unknown |
| RunLedger.MemoryRunStateStore.CheckNonce | packages/agent-policy/src/run-state-store.ts:290-296 | Accepts a nonce once per run |
| RunLedger.MemoryRunStateStore.FoldEntries | packages/agent-policy/src/run-state-store.ts:249-257 | The folding loop accumulates the entries in order, token by token |
| Fates.MemoryFate | packages/agent-policy/src/run-state-store.ts:211-493 | Every operation gives every reservation the fate of one table: committed or renewed in time, aborted while reserved, unknown when late, closed by a verdict or a settlement, else unchanged |
| Fates.MemoryAnswers | packages/agent-policy/src/run-state-store.ts:230-493 | What commit, abort, reconcile and renew answer: no error when they did what was asked, else why not |
| Fates.MemorySettles | packages/agent-policy/src/run-state-store.ts:369-477 | A settlement answers the first receipt again, that the reservation is closed, why it is refused, or the new receipt |
| Fates.ReceiptTells | packages/agent-policy/src/run-state-store.ts:387-470 | What a settlement writes on the receipt by its disposition: the actual spends and fees, the reserved effects, or nothing; its ids, outcome, reserved and released usage |
| Fates.ReceiptExactly | packages/agent-policy/src/run-state-store.ts:387-410 | A settlement is refused if and only if its instruction is, or a sum of usages or the rest cannot be formed, and with the error of the instruction first |
| RunLedger.TotalsAgree | packages/agent-policy/src/run-state-store.ts:200-477 | When no closed or outcome-unknown id is reserved again, in every reachable state the step counts are the numbers of held, committed and aborted reservations and every stored amount is the sum over committed receipts, each folded once |
| RunLedger.ReserveAgreesExactly | packages/agent-policy/src/run-state-store.ts:211-228 | Reserving keeps all totals right if and only if the id is fresh or that of a live reservation |
| RunLedger.StepAgrees | packages/agent-policy/src/run-state-store.ts:200-493 | Every store operation keeps all totals equal to their recomputation |
| RunLedger.ClampNeverActs | packages/agent-policy/src/run-state-store.ts:247 | A held reservation is counted, so Math.max(0, reservedSteps - 1) never clamps |
| RunLedger.FoldUnits | packages/agent-policy/src/run-state-store.ts:249-251 | Folding entries raises a token total by exactly the cut amounts of that token |
| RunLedger.ClosedIsFinal | packages/agent-policy/src/run-state-store.ts:230-493 | No operation changes a committed or aborted reservation |
| RunLedger.ReplayChangesNothing | packages/agent-policy/src/run-state-store.ts:373-379 | Replaying a settlement id after any further operations returns the first receipt and changes nothing |
| RunLedger.StoredAmountLoss | packages/agent-policy/src/run-state-store.ts:249-257 | A stored amount is never above the exact sum over committed receipts and at most k*10^-8 below it for k entries |
| RunLedger.ReceiptConservesExactly | packages/agent-policy/src/run-state-store.ts:369-477 | A completed settlement writes reserved, actual and released usage with actual + released = reserved if and only if the actual usages together are within the recorded deltas together, for every reservation with or without recorded deltas |
| RunLedger.UnrecordedUsageIsNotConserved | packages/agent-policy/src/settlement.ts:205-223 | Counterexample without recorded deltas: any such reservation is settled with an actual count of one, reserved zero and released zero, although no mandate is named twice |
| Autonomy.CheckRunLimits | packages/agent-policy/src/autonomy.ts:80-161 | Returns the first boundary hit by the counts, spends, fees and channels |
| Autonomy.GrantBoundAutonomyPolicy.AuthorizeAndReserve | packages/agent-policy/src/grant-bound-autonomy.ts:174-296 | Uses up the nonce before every later check, refuses at the first failed check, and reserves only when all pass |
| Autonomy.GrantBoundAutonomyPolicy.CollectDeltas | packages/agent-policy/src/grant-bound-autonomy.ts:236-248 | Collects the grants that authorise, in order, with the usage each reserves |
| Autonomy.GrantBoundAutonomyPolicy.Commit | packages/agent-policy/src/grant-bound-autonomy.ts:298-315 | Commits with the effects given by the executor, else with the authorised ones |
| Autonomy.OneEntryFits | packages/agent-policy/src/autonomy.ts:114-127 | An action with at most one entry of a token that passes the limits fits into what is left of the cap |
| Autonomy.AcceptedWithinAuthorized | packages/agent-policy/src/settlement.ts:182-203 | An accepted actual consumption moves, at 8-decimal scale, no more of a token than its one authorised entry |
| Autonomy.SpendBound | packages/agent-policy/src/grant-bound-autonomy.ts:206-284 | In every reachable state spent + held is at most p times the cap for at most p parallel steps (spends and fees alike); with p = 1 the spend is within the cap |
| SpendRuns.SpendBoundIsReached | packages/agent-policy/src/autonomy.ts:80-161 | For every p and cap some disciplined run under p parallel steps reaches exactly p times the cap, for spends and for fees |
| SpendRuns.CapHoldsExactly | packages/agent-policy/src/autonomy.ts:80-161 | The cap bounds the spend of every disciplined run if and only if at most one step runs at a time or the cap is zero |
| Autonomy.StepBound | packages/agent-policy/src/autonomy.ts:101-106 | Committed plus held steps never exceed maxSteps |
| Autonomy.NonceAdmitsOnce | packages/agent-policy/src/grant-bound-autonomy.ts:182-185 | A nonce gets at most one step of a run approved, whatever happens in between |
| Autonomy.EntriesBound | packages/agent-policy/src/autonomy.ts:114-145 | An action with n entries of a token that passes the limits moves at most n times what is left of the cap |
| Autonomy.WholeCapsPass | packages/agent-policy/src/autonomy.ts:80-161 | For every k, an action that lists the whole cap k times passes the limits of a profile with that cap and one step at a time, when nothing has moved yet, and committing it moves k times the cap |
| Autonomy.FitsExactly | packages/agent-policy/src/autonomy.ts:114-145 | Every passing action with at most k entries of the token fits into the cap if and only if k is at most one or the cap is zero |
| Autonomy.ApprovalHolds | packages/agent-policy/src/grant-bound-autonomy.ts:250-284 | An approval takes a step and holds its effects exactly when its reservation id is not that of a live reservation; else it changes only the nonce |
| Approvals.ApprovedExactly | packages/agent-policy/src/grant-bound-autonomy.ts:174-296 | A request is approved if and only if run and profile are known, the nonce is new, transition and obligations pass, every count and every entry is within its limit, some grant of the run is authorised by its mandate, every required grant is, and one of the alternatives when there are any |
| Approvals.HumanExactly | packages/agent-policy/src/grant-bound-autonomy.ts:206-262 | A request goes to a human if and only if it is admissible and either the profile escalates and a run-wide cap (or another escalating limit) is the first limit hit, or all limits pass and the grants do not suffice |
| Approvals.ApprovalWrites | packages/agent-policy/src/grant-bound-autonomy.ts:236-296 | An approval reserves exactly what was requested, with the usages of all grants that authorise, in order, for a minute, counted as one reserved step, unless its id is that of a live reservation |
| Approvals.RefusalWrites | packages/agent-policy/src/grant-bound-autonomy.ts:174-262 | A request that is not approved uses up at most its nonce |
| Approvals.InadmissibleRejected | packages/agent-policy/src/grant-bound-autonomy.ts:174-204 | A used nonce, a failed transition or a failed obligation is rejected whatever else holds |
| Approvals.LimitsExactly | packages/agent-policy/src/autonomy.ts:96-161 | The limits pass if and only if all counts, spends, fees and exposures are within them; the first hit escalates exactly when it is a run-wide cap on spends or fees |
| Approvals.GrantsExactly | packages/agent-policy/src/autonomy.ts:346-361 | The grant requirement is met by some grant exactly when the grants of the run that authorise include all of allOf and, when anyOf is not empty, one of it |
| Approvals.ExposureNeverHit | packages/agent-policy/src/run-state-store.ts:255-257 | In every reachable state the outstanding amount of every channel reads as zero, so the limit on outstanding channel exposure is never hit |
| GrantUsage.MemoryGrantUsageStore.Clean | packages/agent-policy/src/grant-usage.ts:446-456 | Marks exactly the overdue grants unknown |
| GrantUsage.MemoryGrantUsageStore.CurrentUsage | packages/agent-policy/src/grant-usage.ts:402-422 | The loop adds up committed and reserved charges of the mandate inside the window; an unreadable amount throws |
| GrantUsage.MemoryGrantUsageStore.AssertWithinLimit | packages/agent-policy/src/grant-usage.ts:424-444 | Gives the limit error for count and total against the current usage |
| GrantUsage.MemoryGrantUsageStore.AuthorizeAndReserve | packages/agent-policy/src/grant-usage.ts:123-201 | Expires first, returns an identical live reservation, refuses a collision, checks the limit, then reserves |
| GrantUsage.MemoryGrantUsageStore.Commit | packages/agent-policy/src/grant-usage.ts:203-216 | Commits a live reservation at its reserved usage |
| GrantUsage.MemoryGrantUsageStore.Abort | packages/agent-policy/src/grant-usage.ts:218-224 | Aborts a reserved grant and nothing else |
| GrantUsage.MemoryGrantUsageStore.ReconcileReservation | packages/agent-policy/src/grant-usage.ts:263-291 | Closes an unknown or overdue grant |
| GrantUsage.MemoryGrantUsageStore.SettleActual | packages/agent-policy/src/grant-usage.ts:293-361 | Replays, refuses, or closes at the metered usage |
| GrantUsage.MemoryGrantUsageStore.RenewReservation | packages/agent-policy/src/grant-usage.ts:363-377 | Extends a live lease only forwards |
| GrantUsage.GrantBudget | packages/agent-policy/src/grant-usage.ts:123-224 | Over all runs with one windowless limit and at most one usage entry per settlement, committed + reserved usage is at most the limit plus what was committed after having become unknown, for count and total |
| Fates.GrantFate | packages/agent-policy/src/grant-usage.ts:203-377 | Every operation gives every grant the fate of the same table, and a committed grant its charge: the reserved usage, or what a settlement measured |
| Fates.GrantAnswers | packages/agent-policy/src/grant-usage.ts:203-377 | What commit, abort, reconcile and renew of a grant answer |
| Fates.GrantSettles | packages/agent-policy/src/grant-usage.ts:293-361 | What the settlement of a grant answers |
| GrantRequests.GrantedExactly | packages/agent-policy/src/grant-usage.ts:123-201 | A request is granted anew if and only if its id is not live and there is no limit, or the count and the total used in the window and what is asked are within it; then exactly what was asked is held, else only the overdue grants are marked |
| GrantRequests.LimitExactly | packages/agent-policy/src/grant-usage.ts:402-444 | The limit check passes if and only if all amounts read are digit strings and the sums over the committed and reserved grants of the mandate in the window, with what is asked, are within the limit |
| GrantRequests.WindowIsUnique | packages/agent-policy/src/grant-usage.ts:405-409 | The window start is the only multiple of the window length with now in the window that begins there |
| GrantUsage.BudgetStep | packages/agent-policy/src/grant-usage.ts:123-456 | Each operation raises counted usage by no more than its late charge, or ends within the limit |
| GrantUsage.SettledCharge | packages/agent-policy/src/grant-usage.ts:309-358 | A settlement charges no more than was reserved and leaves the grant closed |
| GrantUsage.LateCommitExact | packages/agent-policy/src/grant-usage.ts:263-361 | Committing an outcome-unknown grant, by reconciliation or settlement, keeps a limit if and only if what is counted before plus what it charges is within the limit |
| GrantUsage.LimitKeptExactly | packages/agent-policy/src/grant-usage.ts:123-377 | A run with one windowless limit keeps it after each of its first n operations if and only if each late commit among them would have passed the limit check it skips |
| GrantUsage.LateSettlementOverruns | packages/agent-policy/src/grant-usage.ts:411-415 | Counterexample to the comment that unknown budget is held: two grants of one are completed under a limit of one |
| SqlLedger.SqliteRunStateStore.Insert | packages/agent-policy/src/sqlite-run-state-store.ts:736-772 | INSERT OR IGNORE of the reservation row and of one usage row per mandate, the first delta winning |
| SqlLedger.SqliteRunStateStore.ReserveStep | packages/agent-policy/src/sqlite-run-state-store.ts:148-163 | Ignores a live reservation, else inserts both kinds of rows |
| SqlLedger.SqliteRunStateStore.Write | packages/agent-policy/src/sqlite-run-state-store.ts:774-793 | Sets the status in both tables |
| SqlLedger.SqliteRunStateStore.CommitStep | packages/agent-policy/src/sqlite-run-state-store.ts:165-186 | Commits both tables, or writes the expiry to both and then fails |
| SqlLedger.SqliteRunStateStore.AbortStep | packages/agent-policy/src/sqlite-run-state-store.ts:188-198 | Aborts a reserved row in both tables and is silent about any other row |
| SqlLedger.SqliteRunStateStore.Abort | packages/agent-policy/src/sqlite-run-state-store.ts:337-345 | Aborts a reserved row in both tables and throws on any other row |
| SqlLedger.SqliteRunStateStore.ExpireReservations | packages/agent-policy/src/sqlite-run-state-store.ts:822-840 | The second update follows the result of the first |
| SqlLedger.SqliteRunStateStore.ReconcileReservation | packages/agent-policy/src/sqlite-run-state-store.ts:389-419 | Closes both tables or rolls back |
| SqlLedger.SqliteRunStateStore.SettleReservation | packages/agent-policy/src/sqlite-run-state-store.ts:421-520 | Settles a run reservation and overwrites its usage rows by mandate, or rolls back |
| SqlLedger.SqliteRunStateStore.SettleActual | packages/agent-policy/src/sqlite-run-state-store.ts:522-610 | Settles a grant reservation and its one usage row, or rolls back |
| SqlLedger.SqliteRunStateStore.RenewReservation | packages/agent-policy/src/sqlite-run-state-store.ts:612-632 | An overdue renewal throws and rolls its own expiry back |
| SqlLedger.SqliteRunStateStore.AssertWithinLimit | packages/agent-policy/src/sqlite-run-state-store.ts:647-685 | The loop over the joined rows gives the limit error |
| SqlLedger.SqliteRunStateStore.AuthorizeAndReserve | packages/agent-policy/src/sqlite-run-state-store.ts:240-316 | Checks the limit and inserts in one transaction, without expiring first |
| SqlLedger.TwoTablesAgree | packages/agent-policy/src/sqlite-run-state-store.ts:148-632 | After every sequence of transactions each usage row is what the reservation row says: present for exactly the reserved mandates, with its status and its reserved or metered charge |
| Fates.DatabaseFate | packages/agent-policy/src/sqlite-run-state-store.ts:148-632 | Every transaction gives every reservation row the fate of the same table, but that a renewal or a settlement that throws takes the expiry back |
| Fates.DatabaseAnswers | packages/agent-policy/src/sqlite-run-state-store.ts:165-198 | What the transactions answer; one that throws leaves the tables as they were, but for the expiry a commit finds |
| Fates.DatabaseSettlesRun | packages/agent-policy/src/sqlite-run-state-store.ts:421-520 | What settleReservation answers, and that it changes nothing when it throws or replays |
| Fates.DatabaseSettlesGrant | packages/agent-policy/src/sqlite-run-state-store.ts:522-610 | What settleActual answers, and that it changes nothing when it throws or replays |
| Fates.SettledUsage | packages/agent-policy/src/sqlite-run-state-store.ts:421-520 | A settle-actual sets the charge of a reserved mandate to the last usage measured for it, or to nothing |
| SqlRequests.RowGrantedExactly | packages/agent-policy/src/sqlite-run-state-store.ts:240-316 | A request is granted anew if and only if its id is not that of a reserved row and there is no limit, or what counts in the window and what is asked are within it; for a new id exactly the two rows that hold it are inserted, and a request that is not granted changes nothing |
| SqlRequests.JoinLimitExactly | packages/agent-policy/src/sqlite-run-state-store.ts:647-685 | The limit check passes if and only if all joined amounts in the window are digit strings and their sums, with what is asked, are within the limit |
| SqlRequests.RunRowWritten | packages/agent-policy/src/sqlite-run-state-store.ts:148-163 | A run reservation under a new id is inserted as it is, reserved at the given time, with one usage row per mandate that holds its first delta |
| Fates.StepMirrorsExactly | packages/agent-policy/src/sqlite-run-state-store.ts:165-632 | A step keeps the database and the in-memory run store in step, on status, expiry, effects, deltas and receipt of every reservation, if and only if it is not a renewal or a refused settlement of an overdue reservation |
| Fates.StoresInStep | packages/agent-policy/src/sqlite-run-state-store.ts:148-632 | Over every run without such a step the database holds exactly the reservations of the in-memory run store |
| SqlLedger.SqlStepAgrees | packages/agent-policy/src/sqlite-run-state-store.ts:148-632 | Every transaction keeps the two tables in agreement, including expiry and both settle methods |
| SqlLedger.SumsAgree | packages/agent-policy/src/sqlite-run-state-store.ts:658-671 | The joined sum equals the sum over the scanned reservations |
| SqlLedger.LimitVerdictsAgree | packages/agent-policy/src/sqlite-run-state-store.ts:647-685 | The limit verdict of the joined query is the verdict that scanning the same reservations gives |
| SqlLedger.VerdictsAgreeExactly | packages/agent-policy/src/sqlite-run-state-store.ts:240-316 | The database and the in-memory store, which expires first, give every request on a mandate in a window one limit verdict if and only if the overdue reservations in the window are readable and charge nothing, or the in-memory store cannot read the others |
| SqlLedger.CleaningTakesOverdue | packages/agent-policy/src/grant-usage.ts:402-456 | Expiring takes exactly the charges of the overdue reservations out of the counted usage |
| SqlBudget.SqlBudget | packages/agent-policy/src/sqlite-run-state-store.ts:148-632 | Over all runs of the database store with one windowless limit checked for every grant of the mandate, the joined sum is at most the limit plus what was drawn without a check (by new run reservations and by late commits of unknown ones), for count and total |
| SqlBudget.SqlStep | packages/agent-policy/src/sqlite-run-state-store.ts:148-632 | Each transaction raises what is drawn from a mandate by no more than its unchecked part, or ends within the limit |
| SqlBudget.JoinedIsDrawn | packages/agent-policy/src/sqlite-run-state-store.ts:658-671 | Without a window the joined sum is what the reserved and committed reservation rows draw from the mandate, run reservations included |
| SqlBudget.OverdueGrantTellsApart | packages/agent-policy/src/sqlite-run-state-store.ts:240-316 | One concrete input: with an overdue grant of one under a limit of one the database refuses another one and the in-memory store admits it |
| ErrorTaxonomy.DeviceErrorTaxonomy.constructor | packages/act-core/src/error-taxonomy.ts:95-109 | The shipped tables are loaded under modbus, opcua and the fallback |
| ErrorTaxonomy.DeviceErrorTaxonomy.Register | packages/act-core/src/error-taxonomy.ts:98-105 | Registers one class for one protocol and code |
| ErrorTaxonomy.FlagsFollowClass | packages/act-core/src/error-taxonomy.ts:28-37 | Retryable exactly for transient, safe state exactly for safety, never both |
| ErrorTaxonomy.RegisterChangesOneCode | packages/act-core/src/error-taxonomy.ts:111-129 | Registering changes the class of exactly that code: for its protocol, and through the fallback for protocols without an entry of their own |
| ErrorTaxonomy.ShippedSafetyTrip | packages/act-core/src/error-taxonomy.ts:83-117 | A safety trip is of class safety through every protocol without an entry of its own |
| ErrorTaxonomy.ShippedExactly | packages/act-core/src/error-taxonomy.ts:47-109 | Through the shipped tables exactly three codes need a safe state and exactly the listed transient ones are retried, protocol by protocol |
| ErrorTaxonomy.UnheldIsUnclassified | packages/act-core/src/error-taxonomy.ts:111-129 | A code that no table holds is unclassified |
| ErrorTaxonomy.CodeTells | packages/act-core/src/error-taxonomy.ts:37-46 | The code of a classification is the raw code, after the protocol in upper case where there is one |
| OperationStore.StatusesSplit | packages/act-core/src/operation-store.ts:67-78 | Every status is in flight, terminal or reconcilable, and only one of them |
| OperationStore.DeviceOperationStore.ClaimOperation | packages/act-core/src/operation-store.ts:101-121 | Creates the in-flight record once; every later claim gets the existing record |
| OperationStore.DeviceOperationStore.TransitionOperation | packages/act-core/src/operation-store.ts:123-131 | Replaces an existing record and never creates one |
| OperationStore.DeviceOperationStore.ListOpen | packages/act-core/src/operation-store.ts:138-141 | Lists exactly the operations in flight or reconcilable |
| Actuation.RunWithPolicy | packages/act-core/src/edge-adapter.ts:533-682 | The run stops at the first reply that is not a retryable failure or at the last attempt; a safety-class failure ends safe-stated exactly when the safe-state command was there and succeeded, else requires-reset; any other failure ends as its mode says (abort: aborted; fail-silent: suppressed; fail-closed: requires-reset; fail-safe: safe-stated or failed; fail-operational: by the fallback); undeclared, a write aborts and a read is silent |
| Actuation.LoopStopsExactly | packages/act-core/src/edge-adapter.ts:551-571 | The number of attempts is the only k with all earlier replies retryable failures and the k-th not, or the attempts used up |
| Actuation.ConcludeEnds | packages/act-core/src/edge-adapter.ts:551-682 | What is returned after the last reply is what the class of its error and the failure mode say |
| Actuation.RetriedExactly | packages/act-core/src/edge-adapter.ts:593-597 | A failure is worth another attempt as the own predicate of the definition says; without one exactly for three transport codes, or with a taxonomy exactly for the transient class |
| Actuation.SafetyNotRetryable | packages/act-core/src/edge-adapter.ts:593-597 | Under the taxonomy predicate a safety failure is never worth another attempt |
| Actuation.OkMeansDone | packages/act-core/src/edge-adapter.ts:554-682 | A result is ok exactly when the device accepted or confirmed, or a permitted fallback did |
| Actuation.Execute | packages/act-core/src/edge-adapter.ts:423-467 | Claims before actuating, serves a repeated call from the record by its state, ends as the run ends, records its outcome, attempts and data, and leaves the record in flight when the device throws |
| Actuation.DuplicateReportsRun | packages/act-core/src/edge-adapter.ts:472-527 | A repeated call reports the outcome, attempts, mode, terminal outcome and, unless merely accepted, the data of the recorded run, and is ok only when it was confirmed |
| Actuation.ResolvedIsServed | packages/act-core/src/edge-adapter.ts:472-527 | A repeated call is told in flight, pending or terminal by the state of the record, and is ok only for a confirmed one |
| Actuation.AtMostOnce | packages/act-core/src/edge-adapter.ts:443-466 | Over every interleaving of execute calls with crashes anywhere, also between an actuate call and its reply: at most one caller enters the retry loop, at most max(1, maxAttempts) actuate calls are sent, every other returned result is deduplicated |
| Actuation.NothingAfterSafety | packages/act-core/src/edge-adapter.ts:551-597 | With the taxonomy predicate a safety-class failure is the last reply and no actuate call of anyone is sent after it |
| Actuation.RecordMovesForward | packages/act-core/src/operation-store.ts:101-131 | A step moves the record forward, from absent to in flight to reported and at most one stage, if and only if it is not a write from outside that puts a reported record in flight again |
| Actuation.AloneIsTheLoop | packages/act-core/src/edge-adapter.ts:551-571 | A caller left alone sends the calls and makes the attempts of the loop in runWithPolicy |
| RateLimit.RateLimitPolicy.EvaluateKey | packages/agent-policy/src/rate-limit.ts:90-102 | Refuses when committed plus held proposals reach the maximum of the current window |
| RateLimit.RateLimitPolicy.Evaluate | packages/agent-policy/src/rate-limit.ts:104-106 | Read-only verdict for a proposal |
| RateLimit.RateLimitPolicy.RollOver | packages/agent-policy/src/rate-limit.ts:78-88 | An elapsed window restarts at now and releases its held operations |
| RateLimit.RateLimitPolicy.Reserve | packages/agent-policy/src/rate-limit.ts:108-141 | Refuses a known id with other contents, replays a live one, and holds a new one within the maximum |
| RateLimit.RateLimitPolicy.Commit | packages/agent-policy/src/rate-limit.ts:143-153 | Moves a held operation to the committed count once |
| RateLimit.RateLimitPolicy.Release | packages/agent-policy/src/rate-limit.ts:160-165 | Refunds a reserved operation only |
| RateLimit.RateLimitHolds | packages/agent-policy/src/rate-limit.ts:67-165 | After any calls, at any clock readings, committed + reserved is within the maximum for every key, and an operation is marked reserved exactly when its bucket holds it |
| RateLimit.RateLimitTwice | packages/agent-policy/src/rate-limit.ts:67-165 | When no reservation is newly held at a reading before its key's current window began, any interval of one window length yields at most twice the maximum of commits |
| RateLimit.RateLimitForward | packages/agent-policy/src/rate-limit.ts:78-141 | Readings that do not decrease meet that guard |
| RateLimit.EvaluatePredictsReserve | packages/agent-policy/src/rate-limit.ts:90-141 | On an unseen id evaluate tells what reserve answers |
| RateLimit.ReleaseUndoesReserve | packages/agent-policy/src/rate-limit.ts:108-165 | Releasing a new reservation restores every usage and every other reservation |
| PolicyKeys.RateSharedExactly | packages/agent-policy/src/rate-limit.ts:53-141 | Within one window a new proposal is approved if and only if fewer than the maximum stand as newly approved for its owner and token: the owner is the principal, or without one the agent id, and no other owner, token or agent id counts |
| PolicyKeys.RateSharedBound | packages/agent-policy/src/rate-limit.ts:53-141 | Within one window at most the maximum stands as newly approved for one owner and token, whatever the agent ids |
| AmountCap.AmountCapPolicy.WindowUsage | packages/agent-policy/src/amount-cap.ts:77-83 | Adds up the committed and held amounts of the current window |
| AmountCap.AmountCapPolicy.Evaluate | packages/agent-policy/src/amount-cap.ts:113-136 | Read-only verdict for a proposal |
| AmountCap.AmountCapPolicy.RollOver | packages/agent-policy/src/amount-cap.ts:89-99 | An elapsed day restarts at now and releases its held operations |
| AmountCap.AmountCapPolicy.Reserve | packages/agent-policy/src/amount-cap.ts:138-189 | Refuses, passes amountless proposals, or holds within both caps; a refusal by the daily cap still rolls over |
| AmountCap.AmountCapPolicy.Commit | packages/agent-policy/src/amount-cap.ts:191-201 | Moves a held amount to the committed total once |
| AmountCap.AmountCapPolicy.Release | packages/agent-policy/src/amount-cap.ts:208-213 | Refunds a reserved operation only |
| AmountCap.AmountCapHolds | packages/agent-policy/src/amount-cap.ts:77-213 | After any calls, at any clock readings, committed + reserved is within the daily cap, if there is one, for every key, and an operation is marked reserved exactly when its bucket holds it |
| AmountCap.AmountCapTwice | packages/agent-policy/src/amount-cap.ts:77-213 | When no reservation is newly held at a reading before its key's current window began, any 24 hours of reservations yield at most twice the cap of commits |
| AmountCap.AmountCapForward | packages/agent-policy/src/amount-cap.ts:89-189 | Readings that do not decrease meet that guard |
| AmountCap.EvaluatePredictsReserve | packages/agent-policy/src/amount-cap.ts:113-189 | On an unseen id evaluate tells what reserve answers |
| AmountCap.ReleaseUndoesReserve | packages/agent-policy/src/amount-cap.ts:138-213 | Releasing a new reservation restores every usage and every other reservation |
| PolicyKeys.CapSharedExactly | packages/agent-policy/src/amount-cap.ts:68-189 | Within one day a new amount is approved if and only if it is within the cap per transaction and, with what stands for its owner and token, within the daily cap |
| PolicyKeys.CapSharedBound | packages/agent-policy/src/amount-cap.ts:68-189 | Within one day at most the daily cap stands as newly approved for one owner and token, whatever the agent ids |
| PolicyKeys.AmountlessPasses | packages/agent-policy/src/amount-cap.ts:101-189 | Without an amount a new proposal passes and holds nothing; an amount that is no digit string is refused |
| PolicyKeys.SharedExactly | packages/agent-policy/src/amount-cap.ts:68-71 | Two proposals share a quota if and only if they have one owner and one token, when no owner holds the separator |
| PolicyKeys.SeparatorCollides | packages/agent-policy/src/amount-cap.ts:68-71 | Counterexample with a separator in the owner: proposals of different owners and tokens share one quota |
| PolicyKeys.StrangersRate | packages/agent-policy/src/rate-limit.ts:53-141 | A reservation leaves the verdicts of a rate limit on proposals of another owner or token as they were |
| PolicyKeys.StrangersCap | packages/agent-policy/src/amount-cap.ts:68-189 | A reservation leaves the verdicts of an amount cap on proposals of another owner or token as they were |
| FixedWindows.StepKeepsCap | packages/agent-policy/src/amount-cap.ts:89-213 | Every rollover, hold, commit and release keeps the caps and the agreement of marks and buckets, at any clock readings |
| FixedWindows.AdvanceKeeps | packages/agent-policy/src/amount-cap.ts:89-213 | At any clock readings every admitted step also keeps the log: windows of a key do not overlap, entries are reserved before the end of their window, and no window has more than the cap |
| FixedWindows.ClosingFindsHold | packages/agent-policy/src/rate-limit.ts:143-165 | A reserved operation is always found in its bucket, so the fall-through of commit is never taken |
| FixedWindows.TwiceTheCap | packages/agent-policy/src/rate-limit.ts:78-153 | Over all admitted runs in which nothing is held at a reading before its window began, commits out of any interval of one window length total at most twice the cap |
| Overruns.OverrunsExactly | packages/agent-policy/src/amount-cap.ts:89-213 | For every list of readings of a key: some run of quota steps over them, with amounts limited by the cap alone, commits more than twice the cap out of one interval if and only if the cap is not zero and the readings can open three windows at least a width apart with a reservation before the end of each, those three in one interval |
| Overruns.OverrunNeedsThree | packages/agent-policy/src/amount-cap.ts:89-213 | A run that commits more than twice the cap has three such windows among its readings, in order |
| Overruns.TraceIsOfTheRun | packages/agent-policy/src/amount-cap.ts:89-201 | Every committed entry comes from one reading that opened its window and a later or equal one that reserved it, and a window opens only after all reservations of the one before |
| Overruns.SteppingBackOverruns | packages/agent-policy/src/amount-cap.ts:89-213 | The readings 0, one width, 0, two widths, 0 let every cap be overrun |
| Overruns.ForwardIsInTime | packages/agent-policy/src/amount-cap.ts:89-213 | A run whose readings per key do not decrease holds nothing before its window |
| Overruns.ForwardHasNoThree | packages/agent-policy/src/amount-cap.ts:89-213 | Readings that do not decrease open no three such windows |
| Plans.PlansExactly | packages/agent-policy/src/amount-cap.ts:89-213 | For every list of readings and every largest amount: some run of quota steps of at most that amount commits more than twice the cap out of one interval if and only if the readings have a plan: positive amounts at readings of one interval, window after window, at most the cap in each and more than twice the cap together |
| Plans.FreePlansAreThreeWindows | packages/agent-policy/src/amount-cap.ts:89-213 | When amounts are limited by the cap alone, the readings have a plan if and only if the cap is not zero and they can open three windows |
| PolicyOverruns.RateOverrunsExactly | packages/agent-policy/src/rate-limit.ts:67-165 | For every list of readings the calls of a rate limit can commit more than twice the maximum out of one interval if and only if the readings have a plan of reservations that weigh one each |
| PolicyOverruns.CapOverrunsExactly | packages/agent-policy/src/amount-cap.ts:77-213 | For every list of readings the calls of an amount cap can commit more than twice the daily cap out of 24 hours if and only if the readings have a plan of amounts within the per-transaction cap |
| PolicyOverruns.FreeCapOverrunsExactly | packages/agent-policy/src/amount-cap.ts:77-213 | Without a smaller per-transaction cap that is: the daily cap is not zero and the readings can open three windows at least a day apart with a reservation of each in one interval |
| PolicyOverruns.RateHoldsSteppingBack | packages/agent-policy/src/rate-limit.ts:67-165 | The readings 0, one width, 0, two widths, 0, which let every cap be overrun by free amounts, let no rate limit of two or more be overrun |
| Policies.RetryMustMatch | packages/agent-policy/src/rate-limit.ts:110-119 | An operation id bound to one proposal is refused to a proposal differing in any policy-relevant field |
| PolicyKeys.RetriedExactly | packages/agent-policy/src/rate-limit.ts:108-131 | A retry under the id of a standing reservation changes nothing and is told its state if it is the same proposal, and is rejected if it is not |
| AnchoredUsage.SnapshotFromUsage | packages/authority/src/usage.ts:79-123 | The loop sums the usages of the window anchored around now, or throws on an unreadable amount |
| AnchoredUsage.SnapshotSums | packages/authority/src/usage.ts:79-123 | A snapshot holds the exact sums of its anchored window |
| AnchoredUsage.SnapshotExactly | packages/authority/src/usage.ts:79-123 | With or without a window a snapshot throws exactly on an unreadable amount in the window, counts a usage without a count once, and has a total amount exactly when some usage in the window has one |
| AnchoredUsage.PassesExactly | packages/authority/src/usage.ts:15-51 | The check passes exactly what fits, with what the snapshot holds, into every limit there is |
| AnchoredUsage.AnchoredWindowWithin | packages/authority/src/usage.ts:15-51 | Usage recorded only after passing the check stays within the limit in every anchored window, in whatever order it comes |
| AnchoredUsage.AnchoredTwiceTheLimit | packages/authority/src/usage.ts:15-123 | Any interval of one window length holds at most twice the limit |
| Composable.ComposablePolicy.Reserve | packages/agent-policy/src/composable.ts:39-67 | The walk over the layer objects, with its rollback and its repeated rollback, is the walk on values |
| Composable.ComposablePolicy.ReleaseReserved | packages/agent-policy/src/composable.ts:69-79 | Releases in reverse order and goes on past a layer that throws |
| Composable.AllOrNothing | packages/agent-policy/src/composable.ts:39-79 | A reserve that is refused, finds the operation committed or throws leaves it held by exactly the layers that held it before (but for layers that reserve and cannot release); earlier holds survive even a failed rollback. The layers may be scripted ones, rate limits and amount caps in any mixture |
| Composable.ApprovedMeansHeld | packages/agent-policy/src/composable.ts:39-62 | An approved reservation holds the operation in every willing layer |
| Composable.AnswerIsOfFirst | packages/agent-policy/src/composable.ts:39-67 | The answer is that of the first layer that does not go on, unless the rollback fails, and the layers after it are not asked; when all go on it is an approval with the state they make |
| Composable.AskContract | packages/agent-policy/src/composable.ts:39-61 | What the proofs about the walk know of a layer: its calls meet the layer contract, and an evaluation or a throw holds nothing |
| Composable.ContractIsScripted | packages/agent-policy/src/composable.ts:39-61 | Every call that meets the layer contract is a step of a scripted layer, so scripted layers stand for all layers that meet it |
| Composable.RateLimitIsALayer | packages/agent-policy/src/rate-limit.ts:108-165 | Every call of the rate limit meets the layer contract, and its release gives the operation up |
| Composable.AmountCapIsALayer | packages/agent-policy/src/amount-cap.ts:138-213 | Every call of the amount cap meets the layer contract, and its release gives the operation up |
| Composable.QuotasAllOrNothing | packages/agent-policy/src/composable.ts:39-79 | Over any list of rate limits and amount caps at any clock readings the composition answers; on an approval all of them hold the operation (an amount cap when there is an amount), else each holds it exactly if it did before |
| Composable.NestingExactly | packages/agent-policy/src/composable.ts:39-62 | An approval of willing layers answers already_reserved while a layer newly holds the operation, so that an outer composition would not release it, if and only if some reserving layer did not hold it before and some reserving layer held it when asked |
| Composable.RefusalLeaksExactly | packages/agent-policy/src/composable.ts:39-91 | When a composition that approved is inside one that is then refused, some layer is left with a new hold if and only if the inner answer hid it |
| Composable.MixedLayersLeak | packages/agent-policy/src/composable.ts:39-91 | One layer that holds the operation and one that does not: the new hold is hidden and is left behind by a refusal |
| Scope.MatchScope | packages/authority/src/scope.ts:3-27 | The two-pointer loop and both early returns decide the declarative meaning: the first * takes all slack (at least one segment when last), every later * exactly one segment |
| Scope.JoinSplit | packages/authority/src/scope.ts:7-8 | Splitting loses nothing and leaves no separator in a segment |
| Scope.StarScope | packages/authority/src/scope.ts:4 | The early return for the scope * agrees with the loop |
| Scope.SameScope | packages/authority/src/scope.ts:5 | The early return for equal strings agrees with the loop |
| Scope.MatchIsSound | packages/authority/src/scope.ts:3-27 | What is accepted, the ordinary many-wildcard glob accepts |
| Scope.MatchIsComplete | packages/authority/src/scope.ts:3-27 | With at most one * everything the glob accepts is accepted |
| Scope.CompleteExactly | packages/authority/src/scope.ts:3-27 | The matcher accepts everything the glob accepts if and only if the scope has at most one *, or exactly two that are its last two segments |
| Scope.TrailingPairIsComplete | packages/authority/src/scope.ts:13-20 | With two trailing * everything the glob accepts is accepted |
| Scope.TwoStarsAreNarrower | packages/authority/src/scope.ts:13-20 | One concrete action that the glob accepts and the matcher refuses |
| Locks.ResourceLockManager.Acquire | packages/act-core/src/locks.ts:66-87 | Refuses only a live lease of another holder, else writes the new lease |
| Locks.ResourceLockManager.Release | packages/act-core/src/locks.ts:89-101 | Deletes the lease only for its holder |
| Locks.ResourceLockManager.IsLocked | packages/act-core/src/locks.ts:103-108 | Shows a lease only while it is live |
| Locks.SpansNeverOverlap | packages/act-core/src/locks.ts:66-101 | Over any run with a clock that does not run backwards the spans of two grants of one resource never overlap |
| Locks.TableShowsSpans | packages/act-core/src/locks.ts:49-108 | The table shows a resource as taken exactly when a granted span covers the time, by that holder |
| Locks.LeaseIsStable | packages/act-core/src/locks.ts:66-101 | What others do leaves a live lease in place |
| Locks.LeaseLasts | packages/act-core/src/locks.ts:66-87 | A granted lease is live exactly before at + ttl, or for ever without a TTL; another holder gets the resource exactly from then on, and the span of the grant ends then |
| Locks.RefusedExactly | packages/act-core/src/locks.ts:66-87 | An acquire is refused if and only if a granted span of another holder covers its time |
| Locks.ReleaseFrees | packages/act-core/src/locks.ts:89-101 | A release by the holder ends the span and frees the resource; by anyone else it does nothing |
| Locks.TakenOverCannotRelease | packages/act-core/src/locks.ts:89-101 | A holder whose lease was taken over cannot release the new lease |

## Left out

- Autonomy.Authorize: taken as one atomic step, although the source awaits between the checks and the reservation.
- Autonomy.SpendBound: assumes the discipline stated in `Disciplined`: ids not reused after closing, one entry per token and action, commits and reconciliations with the authorised effects (settlements need no such assumption). An approval on a live reservation id holds nothing of its own (`Autonomy.ApprovalHolds`), so its effects are in neither term of the bound.
- RunLedger.TotalsAgree: assumes that no closed or outcome-unknown id is reserved again; such a reservation overwrites the record and leaves a total wrong (`RunLedger.ReserveAgreesExactly`).
- SqlLedger.TwoTablesAgree: assumes fresh ids, settleReservation on run rows only, and caller-made receipts without metered usage; the run snapshot column is not modelled a second time.
- SqlBudget.SqlBudget: assumes the transactions of TwoTablesAgree, one windowless limit for the mandate, reserved usages that are not negative and of readable amounts, one delta per mandate and reservation, and at most one usage entry per grant settlement.
- The verdicts on transitions, obligations, physical and compute limits and mandates are inputs of the authorisation step; the per-action requirements of the policy options and of the profile are one map.
- Hash functions: facts are about the hashed texts, and a digest is represented by its text.
- The `intent.inference` block of a proposal is not part of its digest and not modelled.
- JavaScript numbers are integers here, so the checks that a count or a time is an integer, or finite, are always met; numbers inside JSON are their printed text.
- Strings are sequences of characters: lone surrogates, which JSON.stringify escapes, and the UTF-16 order of keys outside the basic plane are not modelled; nor are JSON bigint and undefined members.
- Texts that BigInt accepts although they are not digit strings (blanks around them, signs, hexadecimal, the empty text) count as malformed.
- Token ids such as `__proto__` are not added to the plain-object totals of run-state-store.ts; the maps here hold every key.
- Insertion order of Maps: where a loop over a Map stops at the first offender, the error says only which kind of check failed.
- Objects handed to the in-memory stores are kept by reference in the source; here they are values.
- The in-memory run store's per-reservation usage rows, which are not updated by commit and abort, its second receipt map, and the sorted lists of receipts.
- Timers, back-off sleeps and abandoned calls: a timeout is a failed attempt with code EXECUTION_TIMEOUT, and a timed-out device call that finishes later is not followed.
- The rollback hook of the execution policy, events, receipts' optional evidence and error texts.
- The preparation phase of an action (schema, guardrails, interlocks, schedules, approvals) and the lifecycle writer; the latter appears as reports written from outside in the transition system.
- ComposablePolicy.evaluate, commit, release and reset, and reset of the quota policies.
- Concurrent settling of promises inside one recipe batch: a batch is its list of outcomes.
- The storage libraries, identity graphs and mandate signatures are not part of this model.
