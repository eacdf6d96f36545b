/**
 * Governed actuation: the retry loop under an execution policy, the durable claim around it,
 * and what holds over every interleaving of execute calls for one operation.
 */
module Actuation {
  import opened Outcomes
  import opened ErrorTaxonomy
  import opened OperationStore
  import S = Settlement

  datatype FailureMode = FailSafe | FailSilent | FailOperational | FailClosed | Abort

  datatype ActionError = ActionError(code: string, message: string)

  /** How a device call ends; a timeout is a failure with code EXECUTION_TIMEOUT. */
  datatype Reply = Ok(data: Option<string>) | Fails(errorCode: Option<string>, error: Option<string>) | Throws

  datatype Definition = Definition(
    isWrite: bool, failureMode: Option<FailureMode>, maxAttempts: Option<int>, retryable: Option<ActionError -> bool>,
    taxonomy: Option<Tables>, protocol: Option<string>, isAsync: bool, acceptedOnly: bool,
    hasSafeState: bool, hasFallback: bool, returnExisting: bool)

  /** How the definition's other device calls end. */
  datatype Hooks = Hooks(safeStateThrows: bool, fallback: Reply)

  datatype ExecutionResult = ExecutionResult(
    ok: bool, data: Option<string>, errorCode: Option<string>, outcome: ActionOutcome, failureMode: FailureMode, attempts: int,
    deduplicated: bool, dispatch: S.DispatchState, terminal: Option<S.TerminalOutcome>)

  datatype Thrown = BindingBroken | DeviceThrew | FallbackThrew

  // ---- The retry loop -----------------------------------------------------

  function EffectiveMode(def: Definition): FailureMode {
    Coalesce(def.failureMode, if def.isWrite then Abort else FailSilent)
  }

  /** Math.max(1, maxAttempts ?? 1) */
  function MaxAttempts(def: Definition): (n: nat)
    ensures n >= 1
    ensures def.maxAttempts.None? ==> n == 1
    ensures def.maxAttempts.Some? ==> n >= def.maxAttempts.value && (n == 1 || n == def.maxAttempts.value)
  {
    var n := Coalesce(def.maxAttempts, 1);
    if n > 1 then n else 1
  }

  function ToActionError(reply: Reply): ActionError
    requires reply.Fails?
  {
    ActionError(Coalesce(reply.errorCode, "EXECUTION_FAILED"), Coalesce(reply.error, "execution returned failure"))
  }

  predicate DefaultRetryable(error: ActionError) { error.code in {"EXECUTION_TIMEOUT", "TRANSPORT_ERROR", "ECONNRESET"} }

  function KindOf(def: Definition, error: ActionError): Option<DeviceErrorClass> {
    if def.taxonomy.None? then None else Some(Classify(def.taxonomy.value, def.protocol, StringCode(error.code)).kind)
  }

  /** policy.retryable ?? buildRetryable(def) */
  predicate Retryable(def: Definition, error: ActionError) {
    if def.retryable.Some? then def.retryable.value(error)
    else if def.taxonomy.None? then DefaultRetryable(error)
    else Classify(def.taxonomy.value, def.protocol, StringCode(error.code)).retryable
  }

  datatype Phase = Again | Succeeded(data: Option<string>) | GaveUp(error: ActionError) | Threw

  /** Where the loop goes after the reply to its attempt number `attempts`. */
  function AfterReply(def: Definition, attempts: nat, reply: Reply): Phase {
    match reply
    case Throws => Threw
    case Ok(data) => Succeeded(data)
    case Fails(_, _) =>
      var error := ToActionError(reply);
      if attempts >= MaxAttempts(def) || !Retryable(def, error) then GaveUp(error) else Again
  }

  /** The attempts made, and how the loop ends, when `n` attempts were made before. */
  function Tries(def: Definition, replies: nat -> Reply, n: nat): (nat, Phase)
    requires n < MaxAttempts(def)
    decreases MaxAttempts(def) - n
  {
    var phase := AfterReply(def, n + 1, replies(n));
    if phase.Again? then Tries(def, replies, n + 1) else (n + 1, phase)
  }

  function FailureResult(def: Definition, error: ActionError, attempts: nat, outcome: ActionOutcome, terminal: S.TerminalOutcome): ExecutionResult {
    ExecutionResult(false, None, Some(error.code), outcome, EffectiveMode(def), attempts, false,
                    if def.isAsync then S.DispatchUnknown else S.NotDispatched, Some(terminal))
  }

  /** applySafetyStop */
  function SafetyStop(def: Definition, hooks: Hooks, error: ActionError, attempts: nat): ExecutionResult {
    var applied := def.hasSafeState && !hooks.safeStateThrows;
    FailureResult(def, error, attempts, if applied then SafeStated else RequiresReset, S.Failed)
  }

  /** applyFailureMode */
  function FailByMode(def: Definition, hooks: Hooks, error: ActionError, attempts: nat): Result<ExecutionResult, Thrown> {
    match EffectiveMode(def)
    case Abort => Result.Ok(FailureResult(def, error, attempts, ActionOutcome.Aborted, S.Aborted))
    case FailSilent => Result.Ok(FailureResult(def, error, attempts, Suppressed, S.Failed))
    case FailClosed => Result.Ok(FailureResult(def, error, attempts, RequiresReset, S.Failed))
    case FailSafe =>
      var applied := def.hasSafeState && !hooks.safeStateThrows;
      Result.Ok(FailureResult(def, error, attempts, if applied then SafeStated else ActionOutcome.Failed, S.Failed))
    case FailOperational =>
      if !def.hasFallback then Result.Ok(FailureResult(def, error, attempts, ActionOutcome.Failed, S.Failed))
      else match hooks.fallback
        case Throws => Err(FallbackThrew)
        case Ok(data) => Result.Ok(ExecutionResult(true, data, None, ActionOutcome.Confirmed, FailOperational, attempts, false, S.Dispatched, Some(S.Confirmed)))
        case Fails(code, _) => Result.Ok(ExecutionResult(false, None, code, ActionOutcome.Failed, FailOperational, attempts, false, S.Dispatched, Some(S.Failed)))
  }

  /** What runWithPolicy returns or throws after the loop. */
  function Conclude(def: Definition, hooks: Hooks, attempts: nat, phase: Phase): Result<ExecutionResult, Thrown>
    requires !phase.Again?
  {
    match phase
    case Threw => Err(DeviceThrew)
    case Succeeded(data) =>
      Result.Ok(ExecutionResult(true, data, None, if def.acceptedOnly then Accepted else ActionOutcome.Confirmed, EffectiveMode(def), attempts,
                                false, S.Dispatched, if def.acceptedOnly then None else Some(S.Confirmed)))
    case GaveUp(error) =>
      if KindOf(def, error) == Some(Safety) then Result.Ok(SafetyStop(def, hooks, error, attempts))
      else FailByMode(def, hooks, error, attempts)
  }

  // ---- How a run ends -----------------------------------------------------

  predicate RetriedFailure(def: Definition, reply: Reply) { reply.Fails? && Retryable(def, ToActionError(reply)) }

  /** The loop stops at the first reply that is not a retryable failure, or when the attempts are used up. */
  predicate StopsAt(def: Definition, replies: nat -> Reply, k: nat) {
    && 1 <= k <= MaxAttempts(def) && (forall j | 0 <= j < k - 1 :: RetriedFailure(def, replies(j)))
    && (k == MaxAttempts(def) || !RetriedFailure(def, replies(k - 1)))
  }

  /** The declared mode; when none is declared a write aborts and a read fails silently. */
  predicate InMode(def: Definition, mode: FailureMode) {
    def.failureMode == Some(mode) || (def.failureMode.None? && mode == if def.isWrite then Abort else FailSilent)
  }

  predicate MadeBy(def: Definition, attempts: nat, result: ExecutionResult) {
    result.attempts == attempts && !result.deduplicated && InMode(def, result.failureMode)
  }

  /** A failure of the device with this code, reported with this outcome. */
  predicate FailedWith(def: Definition, attempts: nat, code: Option<string>, outcome: ActionOutcome, terminal: S.TerminalOutcome,
                       r: Result<ExecutionResult, Thrown>) {
    && r.Ok? && MadeBy(def, attempts, r.value) && !r.value.ok && r.value.data.None? && r.value.outcome == outcome
    && r.value.errorCode == Some(Coalesce(code, "EXECUTION_FAILED")) && r.value.terminal == Some(terminal)
    && r.value.dispatch == if def.isAsync then S.DispatchUnknown else S.NotDispatched
  }

  predicate SafetyCode(def: Definition, code: Option<string>) {
    def.taxonomy.Some? && Classify(def.taxonomy.value, def.protocol, StringCode(Coalesce(code, "EXECUTION_FAILED"))).kind.Safety?
  }

  predicate SafeStateReached(def: Definition, hooks: Hooks) { def.hasSafeState && !hooks.safeStateThrows }

  predicate FallbackReported(def: Definition, hooks: Hooks, attempts: nat, r: Result<ExecutionResult, Thrown>) {
    if hooks.fallback.Throws? then r == Err(FallbackThrew)
    else
      && r.Ok? && MadeBy(def, attempts, r.value) && r.value.dispatch == S.Dispatched && (r.value.ok <==> hooks.fallback.Ok?)
      && (hooks.fallback.Ok? ==> r.value.data == hooks.fallback.data && r.value.errorCode.None?
                                 && r.value.outcome == ActionOutcome.Confirmed && r.value.terminal == Some(S.Confirmed))
      && (hooks.fallback.Fails? ==> r.value.data.None? && r.value.errorCode == hooks.fallback.errorCode
                                    && r.value.outcome == ActionOutcome.Failed && r.value.terminal == Some(S.Failed))
  }

  /** The end of a run whose last failure is not of the safety class, mode by mode. */
  predicate ModeReported(def: Definition, hooks: Hooks, attempts: nat, code: Option<string>, r: Result<ExecutionResult, Thrown>) {
    && (InMode(def, Abort) ==> FailedWith(def, attempts, code, ActionOutcome.Aborted, S.Aborted, r))
    && (InMode(def, FailSilent) ==> FailedWith(def, attempts, code, Suppressed, S.Failed, r))
    && (InMode(def, FailClosed) ==> FailedWith(def, attempts, code, RequiresReset, S.Failed, r))
    && (InMode(def, FailSafe) && SafeStateReached(def, hooks) ==> FailedWith(def, attempts, code, SafeStated, S.Failed, r))
    && (InMode(def, FailSafe) && !SafeStateReached(def, hooks) ==> FailedWith(def, attempts, code, ActionOutcome.Failed, S.Failed, r))
    && (InMode(def, FailOperational) && !def.hasFallback ==> FailedWith(def, attempts, code, ActionOutcome.Failed, S.Failed, r))
    && (InMode(def, FailOperational) && def.hasFallback ==> FallbackReported(def, hooks, attempts, r))
  }

  /**
   * How a run ends after its last reply: a safety-class failure is reported as safe-stated
   * exactly when the safe-state command was there and succeeded, else as requires-reset,
   * whatever the mode; any other failure is reported as the mode says.
   */
  predicate EndsAfter(def: Definition, hooks: Hooks, attempts: nat, last: Reply, r: Result<ExecutionResult, Thrown>) {
    match last
    case Throws => r == Err(DeviceThrew)
    case Ok(data) =>
      && r.Ok? && MadeBy(def, attempts, r.value) && r.value.ok && r.value.data == data && r.value.errorCode.None?
      && r.value.dispatch == S.Dispatched
      && (def.acceptedOnly ==> r.value.outcome == Accepted && r.value.terminal.None?)
      && (!def.acceptedOnly ==> r.value.outcome == ActionOutcome.Confirmed && r.value.terminal == Some(S.Confirmed))
    case Fails(code, _) =>
      if SafetyCode(def, code) then
        && (SafeStateReached(def, hooks) ==> FailedWith(def, attempts, code, SafeStated, S.Failed, r))
        && (!SafeStateReached(def, hooks) ==> FailedWith(def, attempts, code, RequiresReset, S.Failed, r))
      else ModeReported(def, hooks, attempts, code, r)
  }

  ghost predicate RunEnds(def: Definition, replies: nat -> Reply, hooks: Hooks, r: Result<ExecutionResult, Thrown>) {
    exists k: nat :: StopsAt(def, replies, k) && EndsAfter(def, hooks, k, replies(k - 1), r)
  }

  lemma SafetyEnds(def: Definition, hooks: Hooks, attempts: nat, code: Option<string>, text: string)
    requires SafetyCode(def, code)
    ensures var error := ActionError(Coalesce(code, "EXECUTION_FAILED"), text);
            EndsAfter(def, hooks, attempts, Fails(code, None), Conclude(def, hooks, attempts, GaveUp(error)))
  {
    hide Classify, FailByMode;
  }

  lemma FailureFits(def: Definition, attempts: nat, code: Option<string>, text: string, outcome: ActionOutcome, terminal: S.TerminalOutcome)
    ensures var error := ActionError(Coalesce(code, "EXECUTION_FAILED"), text);
            FailedWith(def, attempts, code, outcome, terminal, Result.Ok(FailureResult(def, error, attempts, outcome, terminal)))
  {}

  lemma OneMode(def: Definition, mode: FailureMode)
    ensures InMode(def, mode) <==> mode == EffectiveMode(def)
  {}

  lemma FallbackEnds(def: Definition, hooks: Hooks, attempts: nat, error: ActionError)
    requires EffectiveMode(def) == FailOperational && def.hasFallback
    ensures FallbackReported(def, hooks, attempts, FailByMode(def, hooks, error, attempts))
  {
    hide EffectiveMode, InMode;
    OneMode(def, FailOperational);
  }

  lemma ModeEnds(def: Definition, hooks: Hooks, attempts: nat, code: Option<string>, text: string)
    ensures var error := ActionError(Coalesce(code, "EXECUTION_FAILED"), text);
            ModeReported(def, hooks, attempts, code, FailByMode(def, hooks, error, attempts))
  {
    hide EffectiveMode, InMode, FailedWith, FailureResult, FallbackReported;
    var error := ActionError(Coalesce(code, "EXECUTION_FAILED"), text);
    forall mode ensures InMode(def, mode) <==> mode == EffectiveMode(def) { OneMode(def, mode); }
    forall o, t ensures FailedWith(def, attempts, code, o, t, Result.Ok(FailureResult(def, error, attempts, o, t))) {
      FailureFits(def, attempts, code, text, o, t);
    }
    if EffectiveMode(def).FailOperational? && def.hasFallback { FallbackEnds(def, hooks, attempts, error); }
  }

  lemma ConcludeEnds(def: Definition, hooks: Hooks, attempts: nat, last: Reply)
    requires !AfterReply(def, attempts, last).Again?
    ensures EndsAfter(def, hooks, attempts, last, Conclude(def, hooks, attempts, AfterReply(def, attempts, last)))
  {
    hide Classify, FailByMode, ModeReported, Retryable, MaxAttempts;
    if last.Fails? {
      var text := Coalesce(last.error, "execution returned failure");
      if SafetyCode(def, last.errorCode) { SafetyEnds(def, hooks, attempts, last.errorCode, text); }
      ModeEnds(def, hooks, attempts, last.errorCode, text);
    }
  }

  lemma TriesRunEnds(def: Definition, replies: nat -> Reply, hooks: Hooks)
    ensures !Tries(def, replies, 0).1.Again?
    ensures RunEnds(def, replies, hooks, Conclude(def, hooks, Tries(def, replies, 0).0, Tries(def, replies, 0).1))
  {
    TriesEnds(def, replies, 0);
    var k := Tries(def, replies, 0).0;
    LoopStopsExactly(def, replies, k);
    ConcludeEnds(def, hooks, k, replies(k - 1));
    hide Tries, Conclude, EndsAfter, AfterReply;
    assert StopsAt(def, replies, k);
  }

  method RunWithPolicy(def: Definition, replies: nat -> Reply, hooks: Hooks) returns (r: Result<ExecutionResult, Thrown>)
    ensures var (attempts, phase) := Tries(def, replies, 0); !phase.Again? && r == Conclude(def, hooks, attempts, phase)
    ensures RunEnds(def, replies, hooks, r)
  {
    hide Conclude, RunEnds;
    TriesEnds(def, replies, 0);
    TriesRunEnds(def, replies, hooks);
    var attempts := 0;
    while attempts < MaxAttempts(def)
      invariant attempts < MaxAttempts(def) && Tries(def, replies, 0) == Tries(def, replies, attempts)
      decreases MaxAttempts(def) - attempts
    {
      var last := replies(attempts);
      attempts := attempts + 1;
      if last.Throws? { return Conclude(def, hooks, attempts, Threw); }
      if last.Ok? { return Conclude(def, hooks, attempts, Succeeded(last.data)); }
      if attempts >= MaxAttempts(def) || !Retryable(def, ToActionError(last)) {
        return Conclude(def, hooks, attempts, GaveUp(ToActionError(last)));
      }
    }
  }

  lemma {:induction false} TriesEnds(def: Definition, replies: nat -> Reply, n: nat)
    requires n < MaxAttempts(def)
    ensures var (k, phase) := Tries(def, replies, n);
            n < k <= MaxAttempts(def) && phase == AfterReply(def, k, replies(k - 1)) && !phase.Again?
    ensures forall j | n <= j < Tries(def, replies, n).0 - 1 :: AfterReply(def, j + 1, replies(j)).Again?
    decreases MaxAttempts(def) - n
  {
    if AfterReply(def, n + 1, replies(n)).Again? { TriesEnds(def, replies, n + 1); }
  }

  /** There is only one number at which the loop can stop. */
  lemma LoopStopsExactly(def: Definition, replies: nat -> Reply, k: nat)
    ensures k == Tries(def, replies, 0).0 <==> StopsAt(def, replies, k)
  {
    TriesEnds(def, replies, 0);
    var n := Tries(def, replies, 0).0;
    assert forall j | 0 <= j < n - 1 :: RetriedFailure(def, replies(j)) by {
      forall j | 0 <= j < n - 1 ensures RetriedFailure(def, replies(j)) { assert AfterReply(def, j + 1, replies(j)).Again?; }
    }
    assert n < MaxAttempts(def) ==> !RetriedFailure(def, replies(n - 1));
    hide Tries, Retryable;
  }

  /**
   * What is worth another attempt: what the definition's own predicate says of the error; without
   * one the three transport codes, and with a taxonomy exactly the transient class.
   */
  lemma RetriedExactly(def: Definition, reply: Reply)
    requires reply.Fails?
    ensures var code := Coalesce(reply.errorCode, "EXECUTION_FAILED");
            RetriedFailure(def, reply) <==>
              if def.retryable.Some? then def.retryable.value(ActionError(code, Coalesce(reply.error, "execution returned failure")))
              else if def.taxonomy.None? then code == "EXECUTION_TIMEOUT" || code == "TRANSPORT_ERROR" || code == "ECONNRESET"
              else Classify(def.taxonomy.value, def.protocol, StringCode(code)).kind.Transient?
  {
    if def.taxonomy.Some? { FlagsFollowClass(def.taxonomy.value, def.protocol, StringCode(ToActionError(reply).code)); }
    hide Classify;
  }

  /** Under the taxonomy's own retry predicate a safety failure is never followed by another attempt. */
  lemma SafetyNotRetryable(def: Definition, reply: Reply)
    requires def.retryable.None? && reply.Fails? && KindOf(def, ToActionError(reply)) == Some(Safety)
    ensures !RetriedFailure(def, reply)
  {
    FlagsFollowClass(def.taxonomy.value, def.protocol, StringCode(ToActionError(reply).code));
    hide Classify;
  }

  /** A result that is ok was confirmed or accepted by the device, or by the fallback path. */
  lemma OkMeansDone(def: Definition, hooks: Hooks, attempts: nat, phase: Phase)
    requires !phase.Again? && Conclude(def, hooks, attempts, phase).Ok?
    ensures var r := Conclude(def, hooks, attempts, phase).value;
            && r.attempts == attempts && !r.deduplicated
            && (r.ok <==> r.outcome == ActionOutcome.Confirmed || r.outcome == Accepted)
            && (r.ok <==> phase.Succeeded? || (EffectiveMode(def).FailOperational? && def.hasFallback && hooks.fallback.Ok?
                                               && KindOf(def, phase.error) != Some(Safety)))
  {
    hide KindOf, EffectiveMode;
  }

  // ---- execute ------------------------------------------------------------

  /** resolveExisting */
  function ResolveExisting(def: Definition, record: OperationRecord): ExecutionResult {
    var mode := EffectiveMode(def);
    match record.status
    case InFlight =>
      ExecutionResult(false, None, Some("OPERATION_IN_FLIGHT"), if def.returnExisting then ActionOutcome.OutcomeUnknown else ActionOutcome.Aborted,
                      mode, record.attempts, true, S.DispatchUnknown, None)
    case Reported(o) =>
      if IsReconcilable(record.status) then
        ExecutionResult(false, None, Some("OPERATION_PENDING"), o, mode, record.attempts, true,
                        if o.OutcomeUnknown? then S.DispatchUnknown else S.Dispatched,
                        if o.OutcomeUnknown? then Some(S.OutcomeUnknown) else None)
      else
        ExecutionResult(o.Confirmed?, record.result, None, Coalesce(record.outcome, o), mode, record.attempts, true, S.Dispatched,
                        Some(if o.Confirmed? then S.Confirmed else if o.Aborted? then S.Aborted else S.Failed))
  }

  function RecordOf(id: string, proposalId: Option<string>, r: ExecutionResult, now: int): OperationRecord {
    OperationRecord(id, proposalId, Reported(r.outcome), r.attempts, Some(r.outcome), now, r.data)
  }

  /** A repeated call reports the recorded run: same outcome, data and attempts, ok only when it was confirmed. */
  lemma DuplicateReportsRun(def: Definition, hooks: Hooks, attempts: nat, phase: Phase, id: string, proposalId: Option<string>, now: int)
    requires !phase.Again? && Conclude(def, hooks, attempts, phase).Ok?
    ensures var first := Conclude(def, hooks, attempts, phase).value;
            var again := ResolveExisting(def, RecordOf(id, proposalId, first, now));
            && again.deduplicated && again.outcome == first.outcome && again.attempts == first.attempts
            && (again.ok <==> first.outcome == ActionOutcome.Confirmed)
            && (first.outcome != Accepted ==> again.data == first.data)
            && again.terminal == first.terminal && again.failureMode == first.failureMode
  {
    ConcludedShape(def, hooks, attempts, phase);
    hide Conclude, EffectiveMode;
  }

  /** The outcomes a run can end with, and what each says of the terminal outcome. */
  lemma ConcludedShape(def: Definition, hooks: Hooks, attempts: nat, phase: Phase)
    requires !phase.Again? && Conclude(def, hooks, attempts, phase).Ok?
    ensures var r := Conclude(def, hooks, attempts, phase).value;
            && r.failureMode == EffectiveMode(def)
            && match r.outcome
               case Accepted => r.terminal.None?
               case Confirmed => r.terminal == Some(S.Confirmed)
               case Aborted => r.terminal == Some(S.Aborted)
               case OutcomeUnknown | Running | Reconciling => false
               case _ => r.terminal == Some(S.Failed)
  {
    hide KindOf, EffectiveMode;
  }

  /**
   * What a repeated call is told by the state of the record: an operation in flight or not
   * terminal is never ok, and is pending or in flight by its error code; a terminal one is ok
   * exactly when it was confirmed, with the recorded outcome and data.
   */
  predicate ServedFrom(def: Definition, record: OperationRecord, r: ExecutionResult) {
    && r.deduplicated && r.attempts == record.attempts && InMode(def, r.failureMode)
    && (record.status.InFlight? ==>
          && !r.ok && r.data.None? && r.errorCode == Some("OPERATION_IN_FLIGHT") && r.terminal.None? && r.dispatch == S.DispatchUnknown
          && r.outcome == if def.returnExisting then ActionOutcome.OutcomeUnknown else ActionOutcome.Aborted)
    && (IsReconcilable(record.status) ==>
          && !r.ok && r.data.None? && r.errorCode == Some("OPERATION_PENDING") && Reported(r.outcome) == record.status
          && (r.terminal == Some(S.OutcomeUnknown) <==> r.outcome.OutcomeUnknown?) && (r.terminal.None? <==> !r.outcome.OutcomeUnknown?)
          && r.dispatch == if r.outcome.OutcomeUnknown? then S.DispatchUnknown else S.Dispatched)
    && (IsTerminal(record.status) ==>
          && (r.ok <==> record.status == Reported(ActionOutcome.Confirmed)) && r.data == record.result && r.errorCode.None?
          && Reported(r.outcome) == (if record.outcome.Some? then Reported(record.outcome.value) else record.status)
          && r.dispatch == S.Dispatched && r.terminal.Some? && (r.terminal.value.Confirmed? <==> r.ok)
          && (r.terminal.value.Aborted? <==> record.status == Reported(ActionOutcome.Aborted))
          && (r.terminal.value.Failed? <==> !r.terminal.value.Confirmed? && !r.terminal.value.Aborted?))
  }

  lemma ResolvedIsServed(def: Definition, record: OperationRecord)
    ensures ServedFrom(def, record, ResolveExisting(def, record))
  {}

  /** The record of a claimed operation: what the run reported, or still in flight when it threw. */
  predicate RecordTells(record: OperationRecord, id: string, proposalId: Option<string>, r: Result<ExecutionResult, Thrown>, now: int) {
    && record.operationId == id && record.proposalId == proposalId && record.updatedAt == now
    && (r.Ok? ==> && record.status == Reported(r.value.outcome) && record.outcome == Some(r.value.outcome)
                  && record.attempts == r.value.attempts && record.result == r.value.data)
    && (r.Err? ==> record.status.InFlight? && record.outcome.None? && record.attempts == 0 && record.result.None?)
  }

  method Execute(def: Definition, store: DeviceOperationStore?, bound: bool, id: string, proposalId: Option<string>,
                 replies: nat -> Reply, hooks: Hooks, now: int) returns (r: Result<ExecutionResult, Thrown>)
    modifies store
    ensures !bound ==> r == Err(BindingBroken)
    ensures bound && store == null ==> RunEnds(def, replies, hooks, r)
    ensures store != null && (!bound || id in old(store.operations)) ==> store.operations == old(store.operations)
    ensures bound && store != null && id in old(store.operations) ==> r.Ok? && ServedFrom(def, old(store.operations)[id], r.value)
    ensures bound && store != null && id !in old(store.operations) ==>
      && RunEnds(def, replies, hooks, r)
      && id in store.operations && RecordTells(store.operations[id], id, proposalId, r, now)
      && store.operations == old(store.operations)[id := store.operations[id]]
  {
    hide Conclude, Tries, ResolveExisting, RunEnds, ServedFrom, RecordOf;
    if !bound { return Err(BindingBroken); }
    if store == null {
      r := RunWithPolicy(def, replies, hooks);
      return;
    }
    var claim := store.ClaimOperation(id, proposalId, now);
    if !claim.claimed {
      ResolvedIsServed(def, claim.record);
      return Result.Ok(ResolveExisting(def, claim.record));
    }
    r := RunWithPolicy(def, replies, hooks);
    if r.Ok? {
      RecordIsFor(id, proposalId, r.value, now);
      var _ := store.TransitionOperation(RecordOf(id, proposalId, r.value, now));
    }
  }

  lemma RecordIsFor(id: string, proposalId: Option<string>, r: ExecutionResult, now: int)
    ensures RecordOf(id, proposalId, r, now).operationId == id
    ensures RecordTells(RecordOf(id, proposalId, r, now), id, proposalId, Result.Ok(r), now)
  {}

  // ---- Interleaved callers ------------------------------------------------

  /** Where one execute call for the operation stands. A crash forgets everything but the claim. */
  datatype Caller =
    | Trying(attempts: nat)
    | Waiting(attempts: nat)
    | Concluding(attempts: nat, phase: Phase)
    | Holding(result: ExecutionResult)
    | Returned(result: ExecutionResult, owner: bool)
    | Rejected(thrown: Thrown)
    | Crashed(owner: bool)

  /**
   * `calls` counts the actuate calls sent to the device for the operation, and `log` is every
   * reply to one of them that reached its caller, in order.
   */
  datatype World = World(operations: Operations, callers: map<nat, Caller>, log: seq<Reply>, calls: nat)

  datatype Step =
    | Begin(c: nat, proposalId: Option<string>, now: int)
    | Sent(c: nat)
    | Actuated(c: nat, reply: Reply)
    | Concluded(c: nat, hooks: Hooks)
    | Stored(c: nat, proposalId: Option<string>, now: int)
    | Crash(c: nat)
    | Elsewhere(next: OperationRecord)

  predicate Owns(caller: Caller) {
    match caller
    case Returned(_, owner) => owner
    case Crashed(owner) => owner
    case _ => true
  }

  function Put(w: World, c: nat, caller: Caller): World { w.(callers := w.callers[c := caller]) }

  /** One step of one caller, a crash, or a record written from outside; a step that is not enabled does nothing. */
  function Next(def: Definition, id: string, w: World, step: Step): World {
    match step
    case Begin(c, proposalId, now) =>
      if c in w.callers then w
      else
        var (ops, claim) := Claim(w.operations, id, proposalId, now);
        Put(w.(operations := ops), c, if claim.claimed then Trying(0) else Returned(ResolveExisting(def, claim.record), false))
    case Sent(c) =>
      if c !in w.callers || !w.callers[c].Trying? then w
      else Put(w.(calls := w.calls + 1), c, Waiting(w.callers[c].attempts))
    case Actuated(c, reply) =>
      if c !in w.callers || !w.callers[c].Waiting? then w
      else
        var attempts := w.callers[c].attempts + 1;
        var phase := AfterReply(def, attempts, reply);
        Put(w.(log := w.log + [reply]), c, if phase.Again? then Trying(attempts) else Concluding(attempts, phase))
    case Concluded(c, hooks) =>
      if c !in w.callers || !w.callers[c].Concluding? || w.callers[c].phase.Again? then w
      else
        var result := Conclude(def, hooks, w.callers[c].attempts, w.callers[c].phase);
        Put(w, c, if result.Ok? then Holding(result.value) else Rejected(result.error))
    case Stored(c, proposalId, now) =>
      if c !in w.callers || !w.callers[c].Holding? then w
      else
        var result := w.callers[c].result;
        Put(w.(operations := Transition(w.operations, RecordOf(id, proposalId, result, now)).0), c, Returned(result, true))
    case Crash(c) => if c in w.callers then Put(w, c, Crashed(Owns(w.callers[c]))) else w
    case Elsewhere(next) => w.(operations := Transition(w.operations, next).0)
  }

  function Run(def: Definition, id: string, w: World, steps: seq<Step>): World {
    if steps == [] then w else Next(def, id, Run(def, id, w, steps[..|steps| - 1]), steps[|steps| - 1])
  }

  predicate AllRetries(def: Definition, log: seq<Reply>) {
    forall j | 0 <= j < |log| :: AfterReply(def, j + 1, log[j]).Again?
  }

  /**
   * At most one call is unanswered, and it was sent because every reply so far was a failure
   * worth another attempt; else every reply but the last was one.
   */
  predicate CallsFit(def: Definition, w: World) {
    && |w.log| <= w.calls <= |w.log| + 1 && w.calls <= MaxAttempts(def)
    && AllRetries(def, if w.calls > |w.log| || w.log == [] then w.log else w.log[..|w.log| - 1])
  }

  predicate OwnerFits(def: Definition, w: World, c: nat)
    requires c in w.callers
  {
    match w.callers[c]
    case Trying(attempts) => attempts == |w.log| == w.calls < MaxAttempts(def) && AllRetries(def, w.log)
    case Waiting(attempts) => attempts == |w.log| == w.calls - 1
    case Returned(result, owner) => !owner ==> result.deduplicated
    case _ => true
  }

  predicate Safe(def: Definition, id: string, w: World) {
    && (forall c, d | c in w.callers && d in w.callers && Owns(w.callers[c]) && Owns(w.callers[d]) :: c == d)
    && (id !in w.operations ==> w.log == [] && w.calls == 0 && forall c | c in w.callers :: !Owns(w.callers[c]))
    && (forall c | c in w.callers :: OwnerFits(def, w, c))
    && CallsFit(def, w)
  }

  lemma BeginSafe(def: Definition, id: string, w: World, step: Step)
    requires Safe(def, id, w) && step.Begin?
    ensures Safe(def, id, Next(def, id, w, step))
  {
    hide AfterReply, MaxAttempts, Conclude;
  }

  lemma SentSafe(def: Definition, id: string, w: World, c: nat)
    requires Safe(def, id, w)
    ensures Safe(def, id, Next(def, id, w, Sent(c)))
  {
    if c in w.callers && w.callers[c].Trying? {
      assert OwnerFits(def, w, c);
      hide AfterReply, MaxAttempts, ResolveExisting, Conclude, AllRetries;
      var w' := Next(def, id, w, Sent(c));
      forall d | d in w'.callers ensures OwnerFits(def, w', d) { assert d != c ==> OwnerFits(def, w, d); }
    }
  }

  lemma ActuatedSafe(def: Definition, id: string, w: World, c: nat, reply: Reply)
    requires Safe(def, id, w)
    ensures Safe(def, id, Next(def, id, w, Actuated(c, reply)))
  {
    if c in w.callers && w.callers[c].Waiting? {
      assert OwnerFits(def, w, c);
      var attempts := w.callers[c].attempts + 1;
      AgainLeavesRoom(def, attempts, reply);
      hide AfterReply, MaxAttempts, ResolveExisting, Conclude;
      var w' := Next(def, id, w, Actuated(c, reply));
      assert w'.log[..|w'.log| - 1] == w.log;
      assert forall j | 0 <= j < |w.log| :: w'.log[j] == w.log[j];
      forall d | d in w'.callers ensures OwnerFits(def, w', d) { assert d != c ==> OwnerFits(def, w, d); }
    }
  }

  lemma AgainLeavesRoom(def: Definition, attempts: nat, reply: Reply)
    ensures AfterReply(def, attempts, reply).Again? ==> attempts < MaxAttempts(def)
  {}

  lemma OtherStepsSafe(def: Definition, id: string, w: World, step: Step)
    requires Safe(def, id, w) && !step.Begin? && !step.Sent? && !step.Actuated?
    ensures Safe(def, id, Next(def, id, w, step))
  {
    var w' := Next(def, id, w, step);
    hide AfterReply, MaxAttempts, ResolveExisting, Conclude;
    forall d | d in w'.callers ensures OwnerFits(def, w', d) { assert d in w.callers && OwnerFits(def, w, d); }
  }

  lemma {:induction false} RunSafe(def: Definition, id: string, w: World, steps: seq<Step>)
    requires Safe(def, id, w)
    ensures Safe(def, id, Run(def, id, w, steps))
  {
    hide Safe, Next;
    if steps != [] {
      var init, last := steps[..|steps| - 1], steps[|steps| - 1];
      RunSafe(def, id, w, init);
      var before := Run(def, id, w, init);
      match last
      case Begin(_, _, _) => BeginSafe(def, id, before, last);
      case Sent(c) => SentSafe(def, id, before, c);
      case Actuated(c, reply) => ActuatedSafe(def, id, before, c, reply);
      case _ => OtherStepsSafe(def, id, before, last);
    }
  }

  /**
   * At-most-once actuation: over every interleaving of any number of execute calls for an
   * operation not yet recorded, with crashes and outside reports anywhere, also between an
   * actuate call and its reply, one caller at most enters the retry loop, at most
   * max(1, maxAttempts) actuate calls are sent, and every other call that returns was served
   * from the record.
   */
  lemma AtMostOnce(def: Definition, id: string, operations: Operations, steps: seq<Step>)
    requires id !in operations
    ensures var w := Run(def, id, World(operations, map[], [], 0), steps);
            && (forall c, d | c in w.callers && d in w.callers && Owns(w.callers[c]) && Owns(w.callers[d]) :: c == d)
            && |w.log| <= w.calls <= MaxAttempts(def)
            && forall c | c in w.callers && w.callers[c].Returned? && !w.callers[c].owner :: w.callers[c].result.deduplicated
  {
    RunSafe(def, id, World(operations, map[], [], 0), steps);
    var w := Run(def, id, World(operations, map[], [], 0), steps);
    forall c | c in w.callers && w.callers[c].Returned? && !w.callers[c].owner ensures w.callers[c].result.deduplicated {
      assert OwnerFits(def, w, c);
    }
  }

  /** Under the taxonomy's retry predicate no actuate call is sent after a safety-class failure, whoever would send it. */
  lemma NothingAfterSafety(def: Definition, id: string, operations: Operations, steps: seq<Step>, j: nat)
    requires id !in operations && def.retryable.None?
    requires var log := Run(def, id, World(operations, map[], [], 0), steps).log;
             j < |log| && log[j].Fails? && KindOf(def, ToActionError(log[j])) == Some(Safety)
    ensures var w := Run(def, id, World(operations, map[], [], 0), steps);
            j == |w.log| - 1 && w.calls == |w.log|
  {
    RunSafe(def, id, World(operations, map[], [], 0), steps);
    var w := Run(def, id, World(operations, map[], [], 0), steps);
    hide Run, Classify, KindOf, Retryable;
    var settled := if w.calls > |w.log| || w.log == [] then w.log else w.log[..|w.log| - 1];
    assert forall i | 0 <= i < |settled| :: settled[i] == w.log[i];
    assert CallsFit(def, w) && AllRetries(def, settled);
    SafetyNotRetryable(def, w.log[j]);
  }

  function StageOf(ops: Operations, id: string): nat {
    if id !in ops then 0 else if ops[id].status.InFlight? then 1 else 2
  }

  /** A record that is reported already is put in flight again, from outside. */
  predicate Reopens(w: World, id: string, step: Step) {
    step.Elsewhere? && step.next.operationId == id && step.next.status.InFlight? && StageOf(w.operations, id) == 2
  }

  /**
   * The record moves forward, absent, in flight, reported, one stage at a time, exactly at the
   * steps that do not reopen it from outside. Actuating at most once does not rest on it.
   */
  lemma RecordMovesForward(def: Definition, id: string, w: World, step: Step)
    ensures var before, after := StageOf(w.operations, id), StageOf(Next(def, id, w, step).operations, id);
            before <= after <= before + 1 <==> !Reopens(w, id, step)
  {
    hide ResolveExisting, AfterReply, Conclude;
  }

  // ---- One caller alone ---------------------------------------------------

  /** The actuate steps of a caller that is left alone. */
  function Script(def: Definition, replies: nat -> Reply, n: nat, c: nat): seq<Step>
    requires n < MaxAttempts(def)
    decreases MaxAttempts(def) - n
  {
    [Sent(c), Actuated(c, replies(n))] + if AfterReply(def, n + 1, replies(n)).Again? then Script(def, replies, n + 1, c) else []
  }

  lemma {:induction false} RunConcat(def: Definition, id: string, w: World, a: seq<Step>, b: seq<Step>)
    ensures Run(def, id, w, a + b) == Run(def, id, Run(def, id, w, a), b)
    decreases |b|
  {
    hide Next;
    if b == [] {
      assert a + b == a;
    } else {
      assert (a + b)[..|a + b| - 1] == a + b[..|b| - 1];
      RunConcat(def, id, w, a, b[..|b| - 1]);
    }
  }

  lemma AloneStep(def: Definition, id: string, w: World, c: nat, n: nat, reply: Reply)
    requires c in w.callers && w.callers[c] == Trying(n)
    ensures var w' := Run(def, id, w, [Sent(c), Actuated(c, reply)]);
            var phase := AfterReply(def, n + 1, reply);
            && c in w'.callers && w'.callers[c] == (if phase.Again? then Trying(n + 1) else Concluding(n + 1, phase))
            && |w'.log| == |w.log| + 1 && w'.calls == w.calls + 1
  {
    var steps := [Sent(c), Actuated(c, reply)];
    assert steps[..1] == [Sent(c)] && [Sent(c)][..0] == [];
    assert Run(def, id, w, [Sent(c)]) == Next(def, id, w, Sent(c));
    hide AfterReply;
  }

  /** Left alone, the step-by-step caller makes the attempts of the loop in runWithPolicy and ends as it does. */
  lemma {:induction false} AloneIsTheLoop(def: Definition, id: string, w: World, replies: nat -> Reply, n: nat, c: nat)
    requires n < MaxAttempts(def) && c in w.callers && w.callers[c] == Trying(n)
    ensures var w' := Run(def, id, w, Script(def, replies, n, c));
            var (k, phase) := Tries(def, replies, n);
            c in w'.callers && w'.callers[c] == Concluding(k, phase)
            && |w'.log| == |w.log| + k - n && w'.calls == w.calls + k - n
    decreases MaxAttempts(def) - n
  {
    hide *;
    AgainLeavesRoom(def, n + 1, replies(n));
    AloneStep(def, id, w, c, n, replies(n));
    Unrolled(def, replies, n, c);
    if AfterReply(def, n + 1, replies(n)).Again? {
      AloneIsTheLoop(def, id, Run(def, id, w, [Sent(c), Actuated(c, replies(n))]), replies, n + 1, c);
      RunConcat(def, id, w, [Sent(c), Actuated(c, replies(n))], Script(def, replies, n + 1, c));
    }
  }

  lemma Unrolled(def: Definition, replies: nat -> Reply, n: nat, c: nat)
    requires n < MaxAttempts(def)
    ensures var phase := AfterReply(def, n + 1, replies(n));
            if phase.Again? && n + 1 < MaxAttempts(def) then
              Tries(def, replies, n) == Tries(def, replies, n + 1)
              && Script(def, replies, n, c) == [Sent(c), Actuated(c, replies(n))] + Script(def, replies, n + 1, c)
            else Tries(def, replies, n) == (n + 1, phase) && Script(def, replies, n, c) == [Sent(c), Actuated(c, replies(n))]
  {
    AgainLeavesRoom(def, n + 1, replies(n));
    hide AfterReply, MaxAttempts;
  }
}
