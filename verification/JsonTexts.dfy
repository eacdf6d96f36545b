/**
 * What the canonical text is: JSON in the grammar of RFC 8259 for the value with the keys of
 * every object in ascending order, and which fields of actions and proposals it carries.
 */
module JsonTexts {
  import opened Outcomes
  import opened Sorting
  import opened CanonicalJson
  import opened DigestPreimages

  // ---- The grammar --------------------------------------------------------

  /** The body decodes to the string, character by character, and holds no bare quotation mark. */
  predicate Decodes(body: string, s: string)
    decreases |s|
  {
    if s == "" then body == ""
    else body != "" && body[0] != '\"' && Unescape(body).0 == s[0] as int && Decodes(Unescape(body).1, s[1..])
  }

  ghost predicate IsQuoted(t: string, s: string) { exists body :: t == "\"" + body + "\"" && Decodes(body, s) }

  function Commas(parts: seq<string>): string {
    if parts == [] then "" else if |parts| == 1 then parts[0] else parts[0] + "," + Commas(parts[1..])
  }

  /** The text is a JSON text of the value, members in the order they are given. */
  ghost predicate IsJson(v: Json, t: string)
    decreases v, 1
  {
    match v
    case Null => t == "null"
    case Bool(b) => t == if b then "true" else "false"
    case Num(text) => t == text
    case Str(s) => IsQuoted(t, s)
    case Arr(items) =>
      exists parts: seq<string> :: |parts| == |items| && t == "[" + Commas(parts) + "]" && forall i | 0 <= i < |items| :: IsJson(items[i], parts[i])
    case Obj(members) =>
      exists parts: seq<string> :: |parts| == |members| && t == "{" + Commas(parts) + "}" && forall i | 0 <= i < |members| :: IsMember(members[i], parts[i])
  }

  ghost predicate IsMember(m: Member, t: string)
    decreases m, 0
  {
    exists k, x :: t == k + ":" + x && IsQuoted(k, m.key) && IsJson(m.value, x)
  }

  lemma {:induction false} EscapeDecodes(s: string)
    ensures Decodes(Escape(s), s)
  {
    if s != "" {
      UnescapeChar(s[0], Escape(s[1..]));
      EscapeDecodes(s[1..]);
      hide EscapeChar, Unescape;
    }
  }

  lemma QuoteIsQuoted(s: string)
    ensures IsQuoted(Quote(s), s)
  {
    EscapeDecodes(s);
    assert Quote(s) == "\"" + Escape(s) + "\"";
  }

  /** Each part after a comma. */
  function Trailing(parts: seq<string>): string { if parts == [] then "" else "," + parts[0] + Trailing(parts[1..]) }

  lemma {:induction false} CommasTrail(parts: seq<string>)
    requires parts != []
    ensures Commas(parts) == parts[0] + Trailing(parts[1..])
  {
    if |parts| == 1 {
      assert parts[1..] == [];
      assert parts[0] + "" == parts[0];
    } else {
      CommasTrail(parts[1..]);
      assert parts[1..][0] == parts[1];
      var rest := Trailing(parts[1..][1..]);
      assert Trailing(parts[1..]) == "," + parts[1] + rest;
      assert parts[0] + "," + (parts[1] + rest) == parts[0] + ("," + parts[1] + rest);
    }
  }

  lemma {:induction false} ItemsTrail(items: seq<Json>, parts: seq<string>)
    requires |parts| == |items| && forall i | 0 <= i < |items| :: parts[i] == Write(items[i])
    ensures WriteItems(items) == Trailing(parts)
  {
    hide Write;
    if items != [] { ItemsTrail(items[1..], parts[1..]); }
  }

  lemma {:induction false} MembersTrail(members: seq<Member>, parts: seq<string>)
    requires |parts| == |members| && forall i | 0 <= i < |members| :: parts[i] == WriteMember(members[i])
    ensures WriteMembers(members) == Trailing(parts)
  {
    hide WriteMember;
    if members != [] { MembersTrail(members[1..], parts[1..]); }
  }

  /** What is written is JSON for the value. */
  lemma {:induction false} WriteIsJson(v: Json)
    ensures IsJson(v, Write(v))
    decreases v, 1
  {
    match v
    case Str(s) => QuoteIsQuoted(s);
    case Arr(items) => ArrIsJson(items);
    case Obj(members) => ObjIsJson(members);
    case _ =>
  }

  lemma {:induction false} ArrIsJson(items: seq<Json>)
    ensures IsJson(Arr(items), Write(Arr(items)))
    decreases items, 0
  {
    var parts := seq(|items|, i requires 0 <= i < |items| => Write(items[i]));
    forall i | 0 <= i < |items| ensures IsJson(items[i], parts[i]) { WriteIsJson(items[i]); }
    if items != [] {
      CommasTrail(parts);
      ItemsTrail(items[1..], parts[1..]);
    }
    assert Write(Arr(items)) == "[" + Commas(parts) + "]";
  }

  lemma {:induction false} MemberIsJson(m: Member)
    ensures IsMember(m, WriteMember(m))
    decreases m, 0
  {
    WriteIsJson(m.value);
    QuoteIsQuoted(m.key);
    hide Write, Quote, IsQuoted, IsJson;
    assert WriteMember(m) == Quote(m.key) + ":" + Write(m.value);
  }

  lemma ObjWritten(members: seq<Member>, parts: seq<string>)
    requires |parts| == |members| && forall i | 0 <= i < |members| :: parts[i] == WriteMember(members[i])
    ensures Write(Obj(members)) == "{" + Commas(parts) + "}"
  {
    if members != [] {
      CommasTrail(parts);
      MembersTrail(members[1..], parts[1..]);
    }
    hide WriteMember, WriteMembers, Trailing;
  }

  lemma {:induction false} ObjIsJson(members: seq<Member>)
    ensures IsJson(Obj(members), Write(Obj(members)))
    decreases members, 0
  {
    hide Write, WriteMember, WriteMembers, Commas, IsMember;
    var parts := seq(|members|, i requires 0 <= i < |members| => WriteMember(members[i]));
    ObjWritten(members, parts);
    forall i | 0 <= i < |members| ensures IsMember(members[i], parts[i]) { MemberIsJson(members[i]); }
  }

  // ---- The order of keys --------------------------------------------------

  /** a is a prefix of b, or has the smaller character where they first differ. */
  predicate NotAfter(a: string, b: string) {
    exists k :: 0 <= k <= |a| && k <= |b| && a[..k] == b[..k] && (k == |a| || (k < |b| && a[k] < b[k]))
  }

  lemma {:induction false} LeqIsNotAfter(a: string, b: string)
    requires Leq(a, b)
    ensures NotAfter(a, b)
  {
    if a == "" {
      assert a[..0] == b[..0];
    } else if a[0] != b[0] {
      assert a[..0] == b[..0];
    } else {
      LeqIsNotAfter(a[1..], b[1..]);
      var k :| 0 <= k <= |a[1..]| && k <= |b[1..]| && a[1..][..k] == b[1..][..k] && (k == |a[1..]| || (k < |b[1..]| && a[1..][k] < b[1..][k]));
      assert a[..k + 1] == [a[0]] + a[1..][..k] && b[..k + 1] == [b[0]] + b[1..][..k];
    }
  }

  /** In every object of the value the keys ascend. */
  predicate KeysAscend(v: Json)
    decreases v
  {
    match v
    case Arr(items) => forall x | x in items :: KeysAscend(x)
    case Obj(members) =>
      (forall i, j | 0 <= i < j < |members| :: NotAfter(members[i].key, members[j].key)) && forall m | m in members :: KeysAscend(m.value)
    case _ => true
  }

  lemma {:induction false} CanonAscends(v: Json)
    ensures KeysAscend(Canon(v))
    decreases v
  {
    match v
    case Arr(items) =>
      forall x | x in CanonItems(items) ensures KeysAscend(x) {
        var i :| 0 <= i < |items| && CanonItems(items)[i] == x;
        CanonAscends(items[i]);
      }
    case Obj(members) =>
      var ms := CanonMembers(members);
      SortSorts(ms, KeyOf());
      var sorted := Sort(ms, KeyOf());
      forall i, j | 0 <= i < j < |sorted| ensures NotAfter(sorted[i].key, sorted[j].key) { LeqIsNotAfter(KeyOf()(sorted[i]), KeyOf()(sorted[j])); }
      forall m | m in sorted ensures KeysAscend(m.value) {
        assert m in multiset(ms);
        var i :| 0 <= i < |ms| && ms[i] == m;
        CanonAscends(members[i].value);
      }
    case _ =>
  }

  /** Sorting the keys keeps the value, up to the order of keys. */
  lemma {:induction false} CanonIsSame(v: Json)
    ensures Same(v, Canon(v))
    decreases v
  {
    match v
    case Arr(items) => forall i | 0 <= i < |items| ensures Same(items[i], CanonItems(items)[i]) { CanonIsSame(items[i]); }
    case Obj(members) =>
      var ms := CanonMembers(members);
      SortSorts(ms, KeyOf());
      var sorted := Sort(ms, KeyOf());
      assert |sorted| == |multiset(sorted)| == |multiset(ms)| == |ms|;
      forall i | 0 <= i < |members| ensures HasSame(sorted, members[i]) {
        CanonIsSame(members[i].value);
        assert ms[i] in multiset(ms);
        assert ms[i] in sorted;
        var j :| 0 <= j < |sorted| && sorted[j] == ms[i];
      }
    case _ =>
  }

  /** The canonical text is JSON for the value with its keys in ascending order. */
  lemma CanonicalTextIs(v: Json)
    ensures IsJson(Canon(v), CanonicalText(v)) && KeysAscend(Canon(v)) && Same(v, Canon(v))
  {
    hide *;
    WriteIsJson(Canon(v));
    CanonAscends(v);
    CanonIsSame(v);
    TextOfCanon(v);
  }

  lemma TextOfCanon(v: Json)
    ensures CanonicalText(v) == Write(Canon(v))
  {}

  // ---- The fields ---------------------------------------------------------

  predicate IsAt(v: Json, key: string, value: Json) { v.Obj? && exists k :: 0 <= k < |v.members| && v.members[k] == Member(key, value) }

  /** The field is there with the text. */
  predicate TextAt(v: Json, key: string, s: string) { IsAt(v, key, Str(s)) }

  predicate OptionalAt(v: Json, key: string, x: Option<string>) { IsAt(v, key, if x.Some? then Str(x.value) else Null) }

  /** The parent receipts as a sorted list of texts. */
  predicate ParentsAt(v: Json, key: string, parents: seq<string>, sorted: seq<string>) {
    && multiset(sorted) == multiset(parents) && (forall i, j | 0 <= i < j < |sorted| :: NotAfter(sorted[i], sorted[j]))
    && IsAt(v, key, Arr(seq(|sorted|, i requires 0 <= i < |sorted| => Str(sorted[i]))))
  }

  /** The value whose canonical text an action's digest is taken of, field by field, and nothing else. */
  predicate TellsAction(v: Json, a: CanonicalAgentAction, sorted: seq<string>) {
    && v.Obj? && |v.members| == 9
    && TextAt(v, "action", a.action) && TextAt(v, "principal", a.principal) && TextAt(v, "agent", a.agent)
    && OptionalAt(v, "target", a.target) && OptionalAt(v, "nonce", a.nonce) && IsAt(v, "effects", a.effects)
    && TextAt(v, "runId", a.runId) && TextAt(v, "stepId", a.stepId)
    && ParentsAt(v, "parentReceiptIds", Coalesce(a.parentReceiptIds, []), sorted)
  }

  predicate TellsIntent(v: Json, p: AgentProposal) {
    && v.Obj? && |v.members| == 7
    && TextAt(v, "type", p.intentType) && OptionalAt(v, "amount", p.amount) && OptionalAt(v, "tokenId", p.tokenId)
    && OptionalAt(v, "recipient", p.recipient) && OptionalAt(v, "reason", p.reason) && OptionalAt(v, "risk", p.risk)
    && IsAt(v, "metadata", p.metadata)
  }

  predicate TellsProposal(v: Json, p: AgentProposal, intent: Json) {
    && v.Obj? && |v.members| == 6
    && TextAt(v, "id", p.id) && OptionalAt(v, "principal", p.principal) && TextAt(v, "agentId", p.agentId)
    && IsAt(v, "intent", intent) && TellsIntent(intent, p)
    && TextAt(v, "explanation", p.explanation) && IsAt(v, "confidence", Num(p.confidence))
  }

  lemma RecordHas(keys: seq<string>, values: seq<Json>, k: nat)
    requires |keys| == |values| && k < |keys|
    ensures IsAt(Record(keys, values), keys[k], values[k])
  {
    assert Record(keys, values).members[k] == Member(keys[k], values[k]);
  }

  lemma RecordHasAll(keys: seq<string>, values: seq<Json>)
    requires |keys| == |values|
    ensures forall k | 0 <= k < |keys| :: IsAt(Record(keys, values), keys[k], values[k])
  {
    forall k | 0 <= k < |keys| ensures IsAt(Record(keys, values), keys[k], values[k]) { RecordHas(keys, values, k); }
  }

  lemma {:induction false} SortedParentsAscend(s: seq<string>)
    ensures multiset(Sort(s, Identity())) == multiset(s)
    ensures forall i, j | 0 <= i < j < |Sort(s, Identity())| :: NotAfter(Sort(s, Identity())[i], Sort(s, Identity())[j])
  {
    SortSorts(s, Identity());
    var sorted := Sort(s, Identity());
    forall i, j | 0 <= i < j < |sorted| ensures NotAfter(sorted[i], sorted[j]) { LeqIsNotAfter(Identity()(sorted[i]), Identity()(sorted[j])); }
  }

  /** The text an action's digest is taken of. */
  lemma ActionPreimageIs(a: CanonicalAgentAction) returns (v: Json, sorted: seq<string>)
    ensures TellsAction(v, a, sorted)
    ensures ActionPreimage(a) == "TOTEM_AGENT_POLICY_CANONICAL_ACTION_V1" + CanonicalText(v)
  {
    v := Record(ACTION_KEYS, ActionValues(a));
    sorted := SortedParents(a);
    SortedParentsAscend(Coalesce(a.parentReceiptIds, []));
    RecordHasAll(ACTION_KEYS, ActionValues(a));
    hide IsAt, Sort, NotAfter, CanonicalText;
    assert IsAt(v, ACTION_KEYS[0], ActionValues(a)[0]) && IsAt(v, ACTION_KEYS[1], ActionValues(a)[1]) && IsAt(v, ACTION_KEYS[2], ActionValues(a)[2]);
    assert IsAt(v, ACTION_KEYS[3], ActionValues(a)[3]) && IsAt(v, ACTION_KEYS[4], ActionValues(a)[4]) && IsAt(v, ACTION_KEYS[5], ActionValues(a)[5]);
    assert IsAt(v, ACTION_KEYS[6], ActionValues(a)[6]) && IsAt(v, ACTION_KEYS[7], ActionValues(a)[7]) && IsAt(v, ACTION_KEYS[8], ActionValues(a)[8]);
  }

  /** The text a proposal's digest is taken of; createdAt is not in it. */
  lemma ProposalPreimageIs(p: AgentProposal) returns (v: Json, intent: Json)
    ensures TellsProposal(v, p, intent)
    ensures ProposalPreimage(p) == "TOTEM_AGENT_POLICY_PROPOSAL_V1" + CanonicalText(v)
  {
    v := Record(PROPOSAL_KEYS, ProposalValues(p));
    intent := Record(INTENT_KEYS, IntentValues(p));
    RecordHasAll(PROPOSAL_KEYS, ProposalValues(p));
    RecordHasAll(INTENT_KEYS, IntentValues(p));
    hide IsAt, CanonicalText;
    assert IsAt(v, PROPOSAL_KEYS[0], ProposalValues(p)[0]) && IsAt(v, PROPOSAL_KEYS[1], ProposalValues(p)[1]) && IsAt(v, PROPOSAL_KEYS[2], ProposalValues(p)[2]);
    assert IsAt(v, PROPOSAL_KEYS[3], ProposalValues(p)[3]) && IsAt(v, PROPOSAL_KEYS[4], ProposalValues(p)[4]) && IsAt(v, PROPOSAL_KEYS[5], ProposalValues(p)[5]);
    assert IsAt(intent, INTENT_KEYS[0], IntentValues(p)[0]) && IsAt(intent, INTENT_KEYS[1], IntentValues(p)[1]) && IsAt(intent, INTENT_KEYS[2], IntentValues(p)[2]);
    assert IsAt(intent, INTENT_KEYS[3], IntentValues(p)[3]) && IsAt(intent, INTENT_KEYS[4], IntentValues(p)[4]);
    assert IsAt(intent, INTENT_KEYS[5], IntentValues(p)[5]) && IsAt(intent, INTENT_KEYS[6], IntentValues(p)[6]);
  }
}
