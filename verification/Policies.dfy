/** What the policy layers share: results, bucket keys and the binding of operation ids. */
module Policies {
  import opened Outcomes
  import opened CanonicalJson
  import opened DigestPreimages
  import opened FixedWindows

  datatype PolicyOutcome = Approved | Rejected | RequiresHuman

  datatype ReservationState = New | AlreadyReserved | AlreadyCommitted

  datatype PolicyResult = PolicyResult(outcome: PolicyOutcome, state: Option<ReservationState>)

  const APPROVED := PolicyResult(Approved, None)
  const REJECTED := PolicyResult(Rejected, None)

  /** Quota is kept per authenticated principal (else agent id) and token. */
  function KeyFor(p: AgentProposal): string {
    Coalesce(p.principal, p.agentId) + "\0" + Coalesce(p.tokenId, "native")
  }

  /** The proposal digest, represented by the text that is hashed. */
  function Digest(p: AgentProposal): string { ProposalPreimage(p) }

  /** The answer for an operation id that is known already; none when it may be reserved. */
  function Replay(q: Quota, p: AgentProposal): Option<PolicyResult> {
    if p.id !in q.operations then None
    else
      var known := q.operations[p.id];
      if known.digest != Digest(p) || known.key != KeyFor(p) then Some(REJECTED)
      else match known.status
        case Reserved => Some(PolicyResult(Approved, Some(AlreadyReserved)))
        case Committed => Some(PolicyResult(Approved, Some(AlreadyCommitted)))
        case Released => None
  }

  /** An operation id bound to one proposal is refused to every proposal that differs in a policy-relevant field. */
  lemma RetryMustMatch(q: Quota, first: AgentProposal, retry: AgentProposal)
    requires first.id == retry.id && first.id in q.operations && q.operations[first.id].digest == Digest(first)
    requires Encodable(first.metadata) && Encodable(Num(first.confidence))
    requires Encodable(retry.metadata) && Encodable(Num(retry.confidence))
    ensures !SameProposal(first, retry) ==> Replay(q, retry) == Some(REJECTED)
  {
    ProposalPreimageBinds(first, retry);
    hide SameProposal, ProposalPreimage;
  }

  /** The calls of a policy layer whose quota they move. */
  datatype PolicyCall = Reserving(p: AgentProposal, now: int) | Committing(id: string) | Releasing(id: string)

  /** The clock readings of the reserve calls do not decrease. */
  predicate InOrder(calls: seq<PolicyCall>) {
    forall i, j | 0 <= i < j < |calls| && calls[i].Reserving? && calls[j].Reserving? :: calls[i].now <= calls[j].now
  }
}
