/** Durable device-operation records: one record per operation id, claimed once. */
module OperationStore {
  import opened Outcomes

  datatype ActionOutcome = Confirmed | Failed | OutcomeUnknown | Aborted | SafeStated | Suppressed | RequiresReset
                         | Accepted | Running | Reconciling

  datatype OperationStatus = InFlight | Reported(reported: ActionOutcome)

  datatype OperationRecord = OperationRecord(
    operationId: string, proposalId: Option<string>, status: OperationStatus, attempts: int,
    outcome: Option<ActionOutcome>, updatedAt: int, result: Option<string>)

  type Operations = map<string, OperationRecord>

  predicate IsTerminal(s: OperationStatus) {
    s.Reported? && (var o := s.reported; o.Confirmed? || o.Failed? || o.Aborted? || o.SafeStated? || o.Suppressed? || o.RequiresReset?)
  }

  predicate IsReconcilable(s: OperationStatus) {
    s.Reported? && (var o := s.reported; o.OutcomeUnknown? || o.Accepted? || o.Running? || o.Reconciling?)
  }

  /** Every status is in flight, terminal or reconcilable, and only one of them. */
  lemma StatusesSplit(s: OperationStatus)
    ensures s.InFlight? || IsTerminal(s) || IsReconcilable(s)
    ensures !(s.InFlight? && IsTerminal(s)) && !(s.InFlight? && IsReconcilable(s)) && !(IsTerminal(s) && IsReconcilable(s))
  {}

  datatype OperationClaim = OperationClaim(claimed: bool, record: OperationRecord)

  function Claim(ops: Operations, id: string, proposalId: Option<string>, now: int): (Operations, OperationClaim) {
    if id in ops then (ops, OperationClaim(false, ops[id]))
    else
      var record := OperationRecord(id, proposalId, InFlight, 0, None, now, None);
      (ops[id := record], OperationClaim(true, record))
  }

  function Transition(ops: Operations, next: OperationRecord): (Operations, bool) {
    if next.operationId !in ops then (ops, false) else (ops[next.operationId := next], true)
  }

  class DeviceOperationStore {
    var operations: Operations

    constructor ()
      ensures operations == map[]
    {
      operations := map[];
    }

    method ClaimOperation(id: string, proposalId: Option<string>, now: int) returns (claim: OperationClaim)
      modifies this
      ensures (operations, claim) == Claim(old(operations), id, proposalId, now)
    {
      if id in operations { return OperationClaim(false, operations[id]); }
      var record := OperationRecord(id, proposalId, InFlight, 0, None, now, None);
      operations := operations[id := record];
      return OperationClaim(true, record);
    }

    method TransitionOperation(next: OperationRecord) returns (transitioned: bool)
      modifies this
      ensures (operations, transitioned) == Transition(old(operations), next)
    {
      transitioned := false;
      if next.operationId in operations {
        transitioned := true;
        operations := operations[next.operationId := next];
      }
    }

    /** The ids that still need attention. */
    method ListOpen() returns (open: set<string>)
      ensures forall id :: id in open <==> id in operations && (operations[id].status.InFlight? || IsReconcilable(operations[id].status))
    {
      open := set id | id in operations && !IsTerminal(operations[id].status);
    }
  }
}
