/**
 * What the canonical digests of actions and proposals commit to. The hash itself is not
 * modelled: two digests are computed from equal texts exactly when the bound fields agree.
 */
module DigestPreimages {
  import opened Outcomes
  import opened Sorting
  import opened CanonicalJson

  const DOMAIN_CANONICAL_ACTION := "TOTEM_AGENT_POLICY_CANONICAL_ACTION_V1"
  const DOMAIN_PROPOSAL := "TOTEM_AGENT_POLICY_PROPOSAL_V1"

  datatype CanonicalAgentAction = CanonicalAgentAction(
    action: string, principal: string, agent: string, target: Option<string>, nonce: Option<string>,
    effects: Json, runId: string, stepId: string, parentReceiptIds: Option<seq<string>>)

  /** `amount` to `risk` are optional; an absent metadata object is Null; `confidence` is a number. */
  datatype AgentProposal = AgentProposal(
    id: string, principal: Option<string>, agentId: string, intentType: string,
    amount: Option<string>, tokenId: Option<string>, recipient: Option<string>, reason: Option<string>, risk: Option<string>,
    metadata: Json, explanation: string, confidence: string, createdAt: int)

  /** `x ?? null` */
  function OrNull(x: Option<string>): Json { if x.Some? then Str(x.value) else Null }

  function Identity(): string -> string { (s: string) => s }

  function Strings(s: seq<string>): seq<Json> { seq(|s|, i requires 0 <= i < |s| => Str(s[i])) }

  function SortedParents(a: CanonicalAgentAction): seq<string> { Sort(Coalesce(a.parentReceiptIds, []), Identity()) }

  const ACTION_KEYS: seq<string> :=
    ["action", "principal", "agent", "target", "nonce", "effects", "runId", "stepId", "parentReceiptIds"]

  const PROPOSAL_KEYS: seq<string> := ["id", "principal", "agentId", "intent", "explanation", "confidence"]

  const INTENT_KEYS: seq<string> := ["type", "amount", "tokenId", "recipient", "reason", "risk", "metadata"]

  function Record(keys: seq<string>, values: seq<Json>): (r: Json)
    requires |keys| == |values|
  {
    Obj(seq(|keys|, i requires 0 <= i < |keys| => Member(keys[i], values[i])))
  }

  function ActionValues(a: CanonicalAgentAction): (r: seq<Json>)
    ensures |r| == 9
  {
    [ Str(a.action), Str(a.principal), Str(a.agent), OrNull(a.target), OrNull(a.nonce), a.effects,
      Str(a.runId), Str(a.stepId), Arr(Strings(SortedParents(a))) ]
  }

  function ActionPreimage(a: CanonicalAgentAction): string {
    DOMAIN_CANONICAL_ACTION + CanonicalText(Record(ACTION_KEYS, ActionValues(a)))
  }

  function IntentValues(p: AgentProposal): (r: seq<Json>)
    ensures |r| == 7
  {
    [ Str(p.intentType), OrNull(p.amount), OrNull(p.tokenId), OrNull(p.recipient), OrNull(p.reason), OrNull(p.risk), p.metadata ]
  }

  function ProposalValues(p: AgentProposal): (r: seq<Json>)
    ensures |r| == 6
  {
    [ Str(p.id), OrNull(p.principal), Str(p.agentId), Record(INTENT_KEYS, IntentValues(p)), Str(p.explanation), Num(p.confidence) ]
  }

  function ProposalPreimage(p: AgentProposal): string {
    DOMAIN_PROPOSAL + CanonicalText(Record(PROPOSAL_KEYS, ProposalValues(p)))
  }

  // ---- Records ------------------------------------------------------------

  predicate DistinctStrings(keys: seq<string>) {
    forall i, j | 0 <= i < j < |keys| :: keys[i] != keys[j]
  }

  /** A value the encoding is uniquely decodable on. */
  predicate Encodable(v: Json) { Printable(v) && KeysDistinct(v) }

  predicate AllEncodable(values: seq<Json>) {
    forall i | 0 <= i < |values| :: Encodable(values[i])
  }

  predicate AllSame(vs: seq<Json>, ws: seq<Json>) {
    |vs| == |ws| && forall i | 0 <= i < |vs| :: Same(vs[i], ws[i])
  }

  lemma RecordEncodable(keys: seq<string>, values: seq<Json>)
    requires |keys| == |values| && DistinctStrings(keys) && AllEncodable(values)
    ensures Encodable(Record(keys, values))
  {
    var ms := Record(keys, values).members;
    forall m | m in ms ensures Encodable(m.value) {
      var i :| 0 <= i < |ms| && ms[i] == m;
      assert Encodable(values[i]);
    }
  }

  /** Two records with one list of keys are the same exactly when every value is. */
  lemma SameRecord(keys: seq<string>, vs: seq<Json>, ws: seq<Json>)
    requires |keys| == |vs| == |ws| && DistinctStrings(keys)
    ensures Same(Record(keys, vs), Record(keys, ws)) <==> AllSame(vs, ws)
  {
    var ms, ns := Record(keys, vs).members, Record(keys, ws).members;
    SameObjects(ms, ns);
    forall i | 0 <= i < |ms| ensures HasSame(ns, ms[i]) <==> Same(vs[i], ws[i]) {
      if HasSame(ns, ms[i]) {
        var j :| 0 <= j < |ns| && ns[j].key == ms[i].key && Same(ms[i].value, ns[j].value);
        assert keys[i] == keys[j];
      }
      if Same(vs[i], ws[i]) { assert ns[i].key == ms[i].key; }
    }
    hide *;
    assert AllSame(vs, ws) <==> forall i | 0 <= i < |vs| :: Same(vs[i], ws[i]) by { AllSameMeans(vs, ws); }
  }

  lemma AllSameMeans(vs: seq<Json>, ws: seq<Json>)
    requires |vs| == |ws|
    ensures AllSame(vs, ws) <==> forall i | 0 <= i < |vs| :: Same(vs[i], ws[i])
  {}

  /** Equal preimages of records with one list of keys mean, and follow from, equal values. */
  lemma RecordTexts(domain: string, keys: seq<string>, vs: seq<Json>, ws: seq<Json>)
    requires |keys| == |vs| == |ws| && DistinctStrings(keys) && AllEncodable(vs) && AllEncodable(ws)
    ensures domain + CanonicalText(Record(keys, vs)) == domain + CanonicalText(Record(keys, ws)) <==> AllSame(vs, ws)
  {
    RecordEncodable(keys, vs);
    RecordEncodable(keys, ws);
    var v, w := Record(keys, vs), Record(keys, ws);
    assert Printable(v) && Printable(w) && KeysDistinct(v) && KeysDistinct(w);
    hide *;
    TextDecidesSame(v, w);
    SameRecord(keys, vs, ws);
    assert (domain + CanonicalText(v))[|domain|..] == CanonicalText(v);
    assert (domain + CanonicalText(w))[|domain|..] == CanonicalText(w);
  }

  lemma SameStr(s: string, t: string)
    ensures Same(Str(s), Str(t)) <==> s == t
    ensures Encodable(Str(s))
  {}

  lemma SameOrNull(s: Option<string>, t: Option<string>)
    ensures Same(OrNull(s), OrNull(t)) <==> s == t
    ensures Encodable(OrNull(s))
  {}

  lemma SameNum(s: string, t: string)
    ensures Same(Num(s), Num(t)) <==> s == t
  {}

  lemma SameStrings(s: seq<string>, t: seq<string>)
    ensures Same(Arr(Strings(s)), Arr(Strings(t))) <==> s == t
    ensures Encodable(Arr(Strings(s)))
  {
    var xs, ys := Strings(s), Strings(t);
    if |s| == |t| {
      assert forall i | 0 <= i < |s| :: Same(xs[i], ys[i]) <==> s[i] == t[i];
    }
  }

  // ---- Actions ------------------------------------------------------------

  lemma SameParents(a: CanonicalAgentAction, b: CanonicalAgentAction)
    ensures Same(Arr(Strings(SortedParents(a))), Arr(Strings(SortedParents(b))))
       <==> multiset(Coalesce(a.parentReceiptIds, [])) == multiset(Coalesce(b.parentReceiptIds, []))
    ensures Encodable(Arr(Strings(SortedParents(a))))
  {
    SameStrings(SortedParents(a), SortedParents(b));
    SortIgnoresOrder(Coalesce(a.parentReceiptIds, []), Coalesce(b.parentReceiptIds, []), Identity());
  }

  /** Names of one length differ in their first letter. */
  lemma ActionKeysDistinct()
    ensures |ACTION_KEYS| == 9 && DistinctStrings(ACTION_KEYS)
  {
    var k := ACTION_KEYS;
    assert |k[0]| == 6 && |k[1]| == 9 && |k[2]| == 5 && |k[3]| == 6 && |k[4]| == 5 && |k[5]| == 7 && |k[6]| == 5 && |k[7]| == 6 && |k[8]| == 16;
    assert k[0][0] == 'a' && k[3][0] == 't' && k[7][0] == 's';
    assert k[2][0] == 'a' && k[4][0] == 'n' && k[6][0] == 'r';
  }

  predicate SameAction(a: CanonicalAgentAction, b: CanonicalAgentAction) {
    && a.action == b.action && a.principal == b.principal && a.agent == b.agent && a.target == b.target
    && a.nonce == b.nonce && Same(a.effects, b.effects) && a.runId == b.runId && a.stepId == b.stepId
    && multiset(Coalesce(a.parentReceiptIds, [])) == multiset(Coalesce(b.parentReceiptIds, []))
  }

  lemma ActionFields(a: CanonicalAgentAction, b: CanonicalAgentAction)
    requires Encodable(a.effects)
    ensures AllSame(ActionValues(a), ActionValues(b)) <==> SameAction(a, b)
    ensures AllEncodable(ActionValues(a))
  {
    hide Same, OrNull, Encodable, Strings, SortedParents;
    SameStr(a.action, b.action);
    SameStr(a.principal, b.principal);
    SameStr(a.agent, b.agent);
    SameOrNull(a.target, b.target);
    SameOrNull(a.nonce, b.nonce);
    SameStr(a.runId, b.runId);
    SameStr(a.stepId, b.stepId);
    SameParents(a, b);
    NineSame(ActionValues(a), ActionValues(b));
  }

  lemma NineSame(vs: seq<Json>, ws: seq<Json>)
    requires |vs| == |ws| == 9
    ensures AllSame(vs, ws) <==>
      && Same(vs[0], ws[0]) && Same(vs[1], ws[1]) && Same(vs[2], ws[2]) && Same(vs[3], ws[3]) && Same(vs[4], ws[4])
      && Same(vs[5], ws[5]) && Same(vs[6], ws[6]) && Same(vs[7], ws[7]) && Same(vs[8], ws[8])
  {
    hide Same;
  }

  /**
   * Two actions have one digest preimage exactly when they agree on every bound field:
   * effects up to key order, parent receipts up to their order.
   */
  lemma ActionPreimageBinds(a: CanonicalAgentAction, b: CanonicalAgentAction)
    requires Encodable(a.effects) && Encodable(b.effects)
    ensures ActionPreimage(a) == ActionPreimage(b) <==> SameAction(a, b)
  {
    ActionKeysDistinct();
    assert ActionPreimage(a) == DOMAIN_CANONICAL_ACTION + CanonicalText(Record(ACTION_KEYS, ActionValues(a)));
    assert ActionPreimage(b) == DOMAIN_CANONICAL_ACTION + CanonicalText(Record(ACTION_KEYS, ActionValues(b)));
    hide *;
    ActionFields(a, b);
    ActionFields(b, a);
    RecordTexts(DOMAIN_CANONICAL_ACTION, ACTION_KEYS, ActionValues(a), ActionValues(b));
  }

  // ---- Proposals ----------------------------------------------------------

  lemma ProposalKeysDistinct()
    ensures |PROPOSAL_KEYS| == 6 && DistinctStrings(PROPOSAL_KEYS)
    ensures |INTENT_KEYS| == 7 && DistinctStrings(INTENT_KEYS)
  {
    var k := PROPOSAL_KEYS;
    assert |k[0]| == 2 && |k[1]| == 9 && |k[2]| == 7 && |k[3]| == 6 && |k[4]| == 11 && |k[5]| == 10;
    var n := INTENT_KEYS;
    assert |n[0]| == 4 && |n[1]| == 6 && |n[2]| == 7 && |n[3]| == 9 && |n[4]| == 6 && |n[5]| == 4 && |n[6]| == 8;
    assert n[0][0] == 't' && n[5][0] == 'r' && n[1][0] == 'a' && n[4][0] == 'r';
  }

  predicate SameIntent(p: AgentProposal, q: AgentProposal) {
    && p.intentType == q.intentType && p.amount == q.amount && p.tokenId == q.tokenId && p.recipient == q.recipient
    && p.reason == q.reason && p.risk == q.risk && Same(p.metadata, q.metadata)
  }

  predicate SameProposal(p: AgentProposal, q: AgentProposal) {
    && p.id == q.id && p.principal == q.principal && p.agentId == q.agentId && SameIntent(p, q)
    && p.explanation == q.explanation && p.confidence == q.confidence
  }

  lemma IntentFields(p: AgentProposal, q: AgentProposal)
    requires Encodable(p.metadata)
    ensures AllSame(IntentValues(p), IntentValues(q)) <==> SameIntent(p, q)
    ensures AllEncodable(IntentValues(p))
  {
    hide Same, OrNull, Encodable;
    SameStr(p.intentType, q.intentType);
    SameOrNull(p.amount, q.amount);
    SameOrNull(p.tokenId, q.tokenId);
    SameOrNull(p.recipient, q.recipient);
    SameOrNull(p.reason, q.reason);
    SameOrNull(p.risk, q.risk);
    var vs, ws := IntentValues(p), IntentValues(q);
    assert AllSame(vs, ws) <==>
      && Same(vs[0], ws[0]) && Same(vs[1], ws[1]) && Same(vs[2], ws[2]) && Same(vs[3], ws[3])
      && Same(vs[4], ws[4]) && Same(vs[5], ws[5]) && Same(vs[6], ws[6]);
  }

  lemma ProposalFields(p: AgentProposal, q: AgentProposal)
    requires Encodable(p.metadata) && Encodable(Num(p.confidence))
    ensures AllSame(ProposalValues(p), ProposalValues(q)) <==> SameProposal(p, q)
    ensures AllEncodable(ProposalValues(p))
  {
    hide Same, OrNull, Encodable, SameIntent, IntentValues, Record;
    ProposalKeysDistinct();
    IntentFields(p, q);
    RecordEncodable(INTENT_KEYS, IntentValues(p));
    SameRecord(INTENT_KEYS, IntentValues(p), IntentValues(q));
    SameStr(p.id, q.id);
    SameOrNull(p.principal, q.principal);
    SameStr(p.agentId, q.agentId);
    SameStr(p.explanation, q.explanation);
    SameNum(p.confidence, q.confidence);
    ProposalSame(p, q);
  }

  lemma ProposalSame(p: AgentProposal, q: AgentProposal)
    ensures AllSame(ProposalValues(p), ProposalValues(q)) <==>
      && Same(Str(p.id), Str(q.id)) && Same(OrNull(p.principal), OrNull(q.principal)) && Same(Str(p.agentId), Str(q.agentId))
      && Same(Record(INTENT_KEYS, IntentValues(p)), Record(INTENT_KEYS, IntentValues(q)))
      && Same(Str(p.explanation), Str(q.explanation)) && Same(Num(p.confidence), Num(q.confidence))
  {
    hide Same, OrNull, IntentValues, Record;
    var vs, ws := ProposalValues(p), ProposalValues(q);
    assert AllSame(vs, ws) <==>
      && Same(vs[0], ws[0]) && Same(vs[1], ws[1]) && Same(vs[2], ws[2]) && Same(vs[3], ws[3])
      && Same(vs[4], ws[4]) && Same(vs[5], ws[5]);
  }

  /**
   * Two proposals have one digest preimage exactly when they agree on every field but
   * createdAt (metadata up to key order).
   */
  lemma ProposalPreimageBinds(p: AgentProposal, q: AgentProposal)
    requires Encodable(p.metadata) && Encodable(Num(p.confidence))
    requires Encodable(q.metadata) && Encodable(Num(q.confidence))
    ensures ProposalPreimage(p) == ProposalPreimage(q) <==> SameProposal(p, q)
  {
    ProposalKeysDistinct();
    assert ProposalPreimage(p) == DOMAIN_PROPOSAL + CanonicalText(Record(PROPOSAL_KEYS, ProposalValues(p)));
    assert ProposalPreimage(q) == DOMAIN_PROPOSAL + CanonicalText(Record(PROPOSAL_KEYS, ProposalValues(q)));
    hide *;
    ProposalFields(p, q);
    ProposalFields(q, p);
    RecordTexts(DOMAIN_PROPOSAL, PROPOSAL_KEYS, ProposalValues(p), ProposalValues(q));
  }
}
