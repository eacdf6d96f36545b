/**
 * Who shares a quota: within one window the calls of one owner and token draw on one limit, and
 * on no other, whatever agent ids they carry. The owner is the principal, or without one the
 * agent id.
 */
module PolicyKeys {
  import opened Outcomes
  import opened Sums
  import opened CanonicalJson
  import opened DigestPreimages
  import opened FixedWindows
  import opened Policies
  import RateLimit
  import AmountCap

  predicate OwnedBy(p: AgentProposal, owner: string) { p.principal == Some(owner) || (p.principal.None? && p.agentId == owner) }

  predicate OfToken(p: AgentProposal, tok: string) { p.tokenId == Some(tok) || (p.tokenId.None? && tok == "native") }

  predicate Of(p: AgentProposal, owner: string, tok: string) { OwnedBy(p, owner) && OfToken(p, tok) }

  predicate Plainly(owner: string) { '\0' !in owner }

  /** Neither the principal nor the agent id of a reserve call holds the separator. */
  predicate PlainOwners(calls: seq<PolicyCall>) { forall k | 0 <= k < |calls| && calls[k].Reserving? :: PlainProposal(calls[k].p) }

  predicate PlainProposal(p: AgentProposal) { if p.principal.Some? then Plainly(p.principal.value) else Plainly(p.agentId) }

  function OwnerKey(owner: string, tok: string): string { owner + "\0" + tok }

  // ---- Keys ---------------------------------------------------------------

  lemma NoShorter(a: string, x: string, b: string, y: string)
    requires Plainly(b) && a + "\0" + x == b + "\0" + y
    ensures |b| <= |a|
  {
    assert (a + "\0" + x)[|a|] == '\0';
    assert forall k | 0 <= k < |b| :: (b + "\0" + y)[k] == b[k];
  }

  lemma SplitUnique(a: string, x: string, b: string, y: string)
    requires Plainly(a) && Plainly(b) && a + "\0" + x == b + "\0" + y
    ensures a == b && x == y
  {
    NoShorter(a, x, b, y);
    NoShorter(b, y, a, x);
    var s, t := a + "\0" + x, b + "\0" + y;
    assert s[..|a|] == a && t[..|b|] == b;
    assert s[|a| + 1..] == x && t[|b| + 1..] == y;
  }

  lemma OfKey(p: AgentProposal, owner: string, tok: string)
    ensures Of(p, owner, tok) ==> KeyFor(p) == OwnerKey(owner, tok)
    ensures PlainProposal(p) && Plainly(owner) && KeyFor(p) == OwnerKey(owner, tok) ==> Of(p, owner, tok)
  {
    if PlainProposal(p) && Plainly(owner) && KeyFor(p) == OwnerKey(owner, tok) {
      SplitUnique(Coalesce(p.principal, p.agentId), Coalesce(p.tokenId, "native"), owner, tok);
    }
  }

  /** Two proposals share a quota exactly when they have one owner and one token, if no owner holds the separator. */
  lemma SharedExactly(a: AgentProposal, b: AgentProposal)
    requires PlainProposal(a) && PlainProposal(b)
    ensures KeyFor(a) == KeyFor(b) <==> exists owner, tok :: Of(a, owner, tok) && Of(b, owner, tok)
  {
    var owner, tok := Coalesce(a.principal, a.agentId), Coalesce(a.tokenId, "native");
    assert Of(a, owner, tok);
    OfKey(a, owner, tok);
    OfKey(b, owner, tok);
    if o, t :| Of(a, o, t) && Of(b, o, t) {
      OfKey(a, o, t);
      OfKey(b, o, t);
    }
    hide KeyFor;
  }

  /** An owner that holds the separator can share the quota of another owner's token. */
  lemma SeparatorCollides(a: AgentProposal, b: AgentProposal)
    requires a.principal == Some("x") && a.tokenId == Some("y\0z") && b.principal == Some("x\0y") && b.tokenId == Some("z")
    ensures KeyFor(a) == KeyFor(b) && !exists owner, tok :: Of(a, owner, tok) && Of(b, owner, tok)
  {
    assert "x" + "\0" + "y\0z" == "x\0y" + "\0" + "z";
  }

  // ---- Live reservations of a key -----------------------------------------

  /** What an operation counts for at a key while it is reserved or committed. */
  function LiveAt(key: string): Operation -> int {
    (o: Operation) => if o.key == key && !o.status.Released? then o.amount else 0
  }

  ghost function UsedBy(q: Quota, key: string): int { Sum(q.operations, LiveAt(key)) }

  /** The window of the key, if any, began in the interval, and its usage is that of its live reservations. */
  ghost predicate UsageIsLive(q: Quota, key: string, from: int) {
    if key in q.buckets then q.buckets[key].windowStart >= from && q.buckets[key].committed + HeldTotal(q.buckets[key]) == UsedBy(q, key)
    else UsedBy(q, key) == 0
  }

  /** What is held was not held or committed before. */
  predicate Anew(q: Quota, op: QuotaOp) { op.TryHold? && op.held && op.id in q.operations ==> q.operations[op.id].status.Released? }

  predicate ReadWithin(op: QuotaOp, key: string, from: int, width: int) { op.TryHold? && op.key == key ==> from <= op.now < from + width }

  lemma RolledOthers(q: Quota, other: string, now: int, key: string, width: int)
    requires Fits(q) && other != key
    ensures UsedBy(Rollover(q, other, now, width), key) == UsedBy(q, key)
    ensures key in q.buckets <==> key in Rollover(q, other, now, width).buckets
    ensures key in q.buckets ==> Rollover(q, other, now, width).buckets[key] == q.buckets[key]
    ensures forall id | id in q.operations && q.operations[id].key == key :: Rollover(q, other, now, width).operations[id] == q.operations[id]
    ensures Rollover(q, other, now, width).operations.Keys == q.operations.Keys
    ensures forall id | id in q.operations :: Rollover(q, other, now, width).operations[id].key == q.operations[id].key
  {
    var r := Rollover(q, other, now, width);
    forall id | id in q.operations ensures LiveAt(key)(r.operations[id]) == LiveAt(key)(q.operations[id]) {
      assert HoldFits(q, other, id);
    }
    SumSame(r.operations, q.operations, LiveAt(key));
    forall id | id in q.operations && q.operations[id].key == key ensures r.operations[id] == q.operations[id] { assert HoldFits(q, other, id); }
  }

  lemma HoldUses(q: Quota, at: string, now: int, id: string, digest: string, amount: nat, key: string)
    requires id in q.operations ==> q.operations[id].status.Released?
    ensures UsedBy(Hold(q, at, now, id, digest, amount), key) == UsedBy(q, key) + if at == key then amount else 0
  {
    var o := Operation(at, amount, digest, Reserved);
    if id in q.operations { SumReplace(q.operations, LiveAt(key), id, o); } else { SumInsert(q.operations, LiveAt(key), id, o); }
  }

  lemma StatusUses(q: Quota, id: string, status: OperationState, key: string)
    requires id in q.operations
    ensures UsedBy(SetStatus(q, id, status), key) == UsedBy(q, key) - LiveAt(key)(q.operations[id]) + LiveAt(key)(q.operations[id].(status := status))
  {
    SumReplace(q.operations, LiveAt(key), id, q.operations[id].(status := status));
  }

  lemma HoldLive(q: Quota, op: QuotaOp, key: string, from: int, width: int)
    requires op.TryHold? && Fits(q) && UsageIsLive(q, key, from) && ReadWithin(op, key, from, width) && width >= 1
    requires Anew(q, op)
    ensures UsageIsLive(QuotaStep(q, op, width), key, from)
  {
    hide Fits, HeldTotal, UsedBy;
    if op.key != key {
      RolledOthers(q, op.key, op.now, key, width);
    }
    var r := Rollover(q, op.key, op.now, width);
    if op.held {
      HoldUses(r, op.key, op.now, op.id, op.digest, op.amount, key);
      if op.key == key { HeldAnew(q, key, op.id, op.now, op.amount); }
    }
  }

  lemma HeldAnew(q: Quota, key: string, id: string, now: int, amount: nat)
    requires Fits(q) && (id in q.operations ==> q.operations[id].status.Released?)
    ensures var b := if key in q.buckets then q.buckets[key] else Bucket(now, 0, map[]);
            HeldTotal(b.(held := b.held[id := amount])) == (if key in q.buckets then HeldTotal(b) else 0) + amount
  {
    NotHeld(q, id);
    assert !HeldIn(q, key, id);
    EmptyHeld(Bucket(now, 0, map[]));
    HeldAfterAdd(if key in q.buckets then q.buckets[key] else Bucket(now, 0, map[]), id, amount);
    hide Fits, HeldTotal;
  }

  lemma CloseLive(q: Quota, id: string, key: string, from: int)
    requires Fits(q) && UsageIsLive(q, key, from)
    ensures UsageIsLive(Commit(q, id), key, from) && UsageIsLive(Release(q, id), key, from)
  {
    if IsReserved(q, id) {
      ClosingFindsHold(q, id);
      var at, amount := q.operations[id].key, q.operations[id].amount;
      StatusUses(TakeOut(q, at, id, amount), id, Committed, key);
      StatusUses(TakeOut(q, at, id, 0), id, Released, key);
      HeldAfterRemove(q.buckets[at], id, q.buckets[at].committed + amount);
      HeldAfterRemove(q.buckets[at], id, q.buckets[at].committed);
      hide Fits, HeldTotal, Commit, Release;
    }
  }

  /** Within one window every step keeps usage and live reservations equal. */
  lemma StepLive(q: Quota, op: QuotaOp, key: string, from: int, width: int)
    requires Fits(q) && UsageIsLive(q, key, from) && ReadWithin(op, key, from, width) && width >= 1 && Anew(q, op)
    ensures UsageIsLive(QuotaStep(q, op, width), key, from)
  {
    hide Fits, UsageIsLive;
    match op
    case Idle =>
    case TryHold(_, _, _, _, _, _) => HoldLive(q, op, key, from, width);
    case DoCommit(id) => CloseLive(q, id, key, from);
    case DoRelease(id) => CloseLive(q, id, key, from);
  }

  // ---- The account of an owner and token ----------------------------------

  /** A reservation that was answered as new and is not released. */
  datatype Standing = Standing(amount: nat, committed: bool)

  type Account = map<string, Standing>

  function Amounts(): Standing -> int { (s: Standing) => s.amount }

  ghost function Total(account: Account): int { Sum(account, Amounts()) }

  const NEWLY := PolicyResult(Approved, Some(New))

  /** The account after a call that was answered so, for an amount: no windows, no keys, no agent ids. */
  function Booked(account: Account, call: PolicyCall, answer: PolicyResult, amount: nat, owner: string, tok: string): Account {
    match call
    case Reserving(p, _) => if answer == NEWLY && Of(p, owner, tok) then account[p.id := Standing(amount, false)] else account
    case Committing(id) => if id in account then account[id := Standing(account[id].amount, true)] else account
    case Releasing(id) => if id in account && !account[id].committed then account - {id} else account
  }

  /** Every standing reservation is a live operation at the key. */
  predicate Backed(q: Quota, account: Account, key: string) {
    forall id | id in account :: BackedBy(q, account[id], id, key)
  }

  predicate BackedBy(q: Quota, s: Standing, id: string, key: string) {
    && id in q.operations && q.operations[id].key == key && q.operations[id].amount == s.amount
    && q.operations[id].status == if s.committed then Committed else Reserved
  }

  /** And every live operation at the key is a standing reservation. */
  predicate Complete(q: Quota, account: Account, key: string) {
    forall id | id in q.operations && q.operations[id].key == key && !q.operations[id].status.Released? :: id in account
  }

  lemma TotalWithin(q: Quota, account: Account, key: string)
    requires Backed(q, account, key)
    ensures Total(account) <= UsedBy(q, key)
    ensures Complete(q, account, key) ==> Total(account) == UsedBy(q, key)
  {
    var live := map id | id in q.operations && id in account :: q.operations[id];
    forall id | id in account ensures id in live && LiveAt(key)(live[id]) == Amounts()(account[id]) { assert BackedBy(q, account[id], id, key); }
    SumMatch(account, Amounts(), live, LiveAt(key));
    SumSubset(live, q.operations, LiveAt(key));
    if Complete(q, account, key) { SumMatch(account, Amounts(), q.operations, LiveAt(key)); }
  }

  /** The quota step of a call keeps the account backed, and complete when no other owner shares the key. */
  predicate Follows(op: QuotaOp, call: PolicyCall, answer: PolicyResult, amount: nat) {
    match call
    case Reserving(p, now) =>
      && (answer == NEWLY <==> op.TryHold? && op.held) && (op.Idle? || op.TryHold?)
      && (op.TryHold? ==> op.key == KeyFor(p) && op.id == p.id && op.now == now && op.amount == amount)
    case Committing(id) => op == DoCommit(id)
    case Releasing(id) => op == DoRelease(id)
  }

  lemma ReserveBacked(q: Quota, account: Account, op: QuotaOp, key: string, from: int, width: int)
    requires Fits(q) && UsageIsLive(q, key, from) && op.TryHold? && ReadWithin(op, key, from, width) && Anew(q, op) && Backed(q, account, key)
    ensures Backed(QuotaStep(q, op, width), if op.held && op.key == key then account[op.id := Standing(op.amount, false)] else account, key)
    ensures Complete(q, account, key) ==>
              Complete(QuotaStep(q, op, width), if op.held && op.key == key then account[op.id := Standing(op.amount, false)] else account, key)
  {
    hide HeldTotal, UsedBy;
    var r := Rollover(q, op.key, op.now, width);
    if op.key == key { assert r == q; } else { RolledOthers(q, op.key, op.now, key, width); }
    hide Fits, UsageIsLive, Rollover;
    forall id | id in account ensures BackedBy(r, account[id], id, key) && (op.held ==> id != op.id) { assert BackedBy(q, account[id], id, key); }
    assert Complete(q, account, key) ==> Complete(r, account, key);
    var r', account' := QuotaStep(q, op, width), if op.held && op.key == key then account[op.id := Standing(op.amount, false)] else account;
    forall id | id in account' ensures BackedBy(r', account'[id], id, key) { assert id in account ==> BackedBy(r, account[id], id, key); }
  }

  lemma CloseBacked(q: Quota, account: Account, id: string, key: string)
    requires Fits(q) && Backed(q, account, key)
    ensures Backed(Commit(q, id), if id in account then account[id := Standing(account[id].amount, true)] else account, key)
    ensures Backed(Release(q, id), if id in account && !account[id].committed then account - {id} else account, key)
    ensures Complete(q, account, key) ==>
              && Complete(Commit(q, id), if id in account then account[id := Standing(account[id].amount, true)] else account, key)
              && Complete(Release(q, id), if id in account && !account[id].committed then account - {id} else account, key)
  {
    if IsReserved(q, id) { ClosingFindsHold(q, id); }
    hide Fits, Commit, Release, HeldIn;
    assert Release(q, id).operations == (if IsReserved(q, id) then q.operations[id := q.operations[id].(status := Released)] else q.operations)
      by { ClosedOperations(q, id); }
    assert Commit(q, id).operations == (if IsReserved(q, id) then q.operations[id := q.operations[id].(status := Committed)] else q.operations)
      by { ClosedOperations(q, id); }
    forall i | i in account ensures BackedBy(q, account[i], i, key) {}
  }

  lemma ClosedOperations(q: Quota, id: string)
    requires IsReserved(q, id) ==> HeldIn(q, q.operations[id].key, id)
    ensures Release(q, id).operations == if IsReserved(q, id) then q.operations[id := q.operations[id].(status := Released)] else q.operations
    ensures Commit(q, id).operations == if IsReserved(q, id) then q.operations[id := q.operations[id].(status := Committed)] else q.operations
  {}

  lemma BookedBacked(q: Quota, account: Account, call: PolicyCall, op: QuotaOp, answer: PolicyResult, amount: nat,
                     owner: string, tok: string, from: int, width: int)
    requires Fits(q) && UsageIsLive(q, OwnerKey(owner, tok), from) && Backed(q, account, OwnerKey(owner, tok))
    requires Follows(op, call, answer, amount) && Anew(q, op) && ReadWithin(op, OwnerKey(owner, tok), from, width)
    ensures Backed(QuotaStep(q, op, width), Booked(account, call, answer, amount, owner, tok), OwnerKey(owner, tok))
    ensures Plainly(owner) && (call.Reserving? ==> PlainProposal(call.p)) && Complete(q, account, OwnerKey(owner, tok)) ==>
              Complete(QuotaStep(q, op, width), Booked(account, call, answer, amount, owner, tok), OwnerKey(owner, tok))
  {
    var key := OwnerKey(owner, tok);
    hide Fits, UsageIsLive, Commit, Release, Hold, Rollover, KeyFor, BackedBy;
    match call
    case Reserving(p, now) =>
      OfKey(p, owner, tok);
      hide Of, OwnerKey, PlainProposal, Plainly;
      if op.TryHold? {
        ReserveBacked(q, account, op, key, from, width);
        hide Complete, ReadWithin;
        if op.held && op.key == key {
          NotBooked(q, account, op, key);
          var longer := account[op.id := Standing(op.amount, false)];
          assert forall id | id in account :: id in longer && longer[id] == account[id];
        }
      }
    case Committing(id) => CloseBacked(q, account, id, key);
    case Releasing(id) => CloseBacked(q, account, id, key);
  }

  lemma NotBooked(q: Quota, account: Account, op: QuotaOp, key: string)
    requires op.TryHold? && op.held && Anew(q, op) && Backed(q, account, key)
    ensures op.id !in account
  {
    assert op.id in account ==> BackedBy(q, account[op.id], op.id, key);
  }

  // ---- The rate limit -----------------------------------------------------

  /** The readings of the reserve calls at a key lie in one window length. */
  predicate KeyWithin(calls: seq<PolicyCall>, key: string, from: int, width: int) {
    forall k | 0 <= k < |calls| && calls[k].Reserving? && KeyFor(calls[k].p) == key :: from <= calls[k].now < from + width
  }

  predicate AllWithin(calls: seq<PolicyCall>, from: int, width: int) {
    forall k | 0 <= k < |calls| && calls[k].Reserving? :: from <= calls[k].now < from + width
  }

  predicate OwnWithin(calls: seq<PolicyCall>, owner: string, tok: string, from: int, width: int) {
    forall k | 0 <= k < |calls| && calls[k].Reserving? && Of(calls[k].p, owner, tok) :: from <= calls[k].now < from + width
  }

  lemma OwnIsKey(calls: seq<PolicyCall>, owner: string, tok: string, from: int, width: int)
    requires PlainOwners(calls) && Plainly(owner) && OwnWithin(calls, owner, tok, from, width)
    ensures KeyWithin(calls, OwnerKey(owner, tok), from, width)
  {
    hide KeyFor, OwnerKey, Plainly, Of;
    forall k | 0 <= k < |calls| && calls[k].Reserving? && KeyFor(calls[k].p) == OwnerKey(owner, tok) ensures from <= calls[k].now < from + width {
      OfKey(calls[k].p, owner, tok);
    }
  }

  ghost function RateAnswer(q: Quota, max: nat, width: int, call: PolicyCall): PolicyResult {
    if call.Reserving? then RateLimit.RateReserve(q, max, width, call.p, call.now).1 else NEWLY
  }

  /** What stands for an owner and token after the calls of a rate limit. */
  ghost function RateAccount(max: nat, width: int, calls: seq<PolicyCall>, owner: string, tok: string): Account {
    if calls == [] then map[]
    else
      var init, last := calls[..|calls| - 1], calls[|calls| - 1];
      Booked(RateAccount(max, width, init, owner, tok), last, RateAnswer(RateLimit.RateAfter(max, width, init), max, width, last), 1, owner, tok)
  }

  lemma RateFollows(q: Quota, max: nat, width: int, call: PolicyCall)
    ensures var op := RateLimit.RateOp(q, max, width, call);
            Follows(op, call, RateAnswer(q, max, width, call), 1) && Anew(q, op)
  {
    hide KeyFor, Digest, Usage, Hold, Rollover;
  }

  ghost predicate AccountFits(q: Quota, account: Account, calls: seq<PolicyCall>, owner: string, tok: string, from: int) {
    && UsageIsLive(q, OwnerKey(owner, tok), from) && Backed(q, account, OwnerKey(owner, tok))
    && (PlainOwners(calls) && Plainly(owner) ==> Complete(q, account, OwnerKey(owner, tok)))
  }

  lemma EmptyAccountFits(owner: string, tok: string, from: int)
    ensures AccountFits(EMPTY_QUOTA, map[], [], owner, tok, from)
  {
    SumZero<string, Operation>(map[], LiveAt(OwnerKey(owner, tok)));
  }

  lemma NextFits(q: Quota, account: Account, calls: seq<PolicyCall>, op: QuotaOp, answer: PolicyResult, amount: nat,
                 owner: string, tok: string, from: int, width: int)
    requires calls != [] && Fits(q) && AccountFits(q, account, calls[..|calls| - 1], owner, tok, from) && width >= 1
    requires Follows(op, calls[|calls| - 1], answer, amount) && Anew(q, op) && KeyWithin(calls, OwnerKey(owner, tok), from, width)
    ensures AccountFits(QuotaStep(q, op, width), Booked(account, calls[|calls| - 1], answer, amount, owner, tok), calls, owner, tok, from)
  {
    var key, last := OwnerKey(owner, tok), calls[|calls| - 1];
    assert ReadWithin(op, key, from, width);
    assert PlainOwners(calls) ==> PlainOwners(calls[..|calls| - 1]) && (last.Reserving? ==> PlainProposal(last.p));
    hide Fits, UsageIsLive, QuotaStep, Booked, Backed, Complete, OwnerKey, PlainProposal, Plainly, KeyFor, Anew, ReadWithin, Follows;
    StepLive(q, op, key, from, width);
    BookedBacked(q, account, last, op, answer, amount, owner, tok, from, width);
  }

  lemma {:induction false} RateAccountFits(max: nat, width: int, calls: seq<PolicyCall>, owner: string, tok: string, from: int)
    requires width >= 1 && KeyWithin(calls, OwnerKey(owner, tok), from, width)
    ensures Fits(RateLimit.RateAfter(max, width, calls))
    ensures AccountFits(RateLimit.RateAfter(max, width, calls), RateAccount(max, width, calls, owner, tok), calls, owner, tok, from)
  {
    RateLimit.RateAfterFits(max, width, calls);
    if calls == [] {
      EmptyAccountFits(owner, tok, from);
    } else {
      var init, last := calls[..|calls| - 1], calls[|calls| - 1];
      var q := RateLimit.RateAfter(max, width, init);
      RateAccountFits(max, width, init, owner, tok, from);
      RateFollows(q, max, width, last);
      RateLimit.RateOpIsCall(q, max, width, last);
      hide Fits, AccountFits, KeyWithin, Booked, Follows, Anew, QuotaStep, RateLimit.RateOp, RateLimit.RateCall, Admits, RateAnswer, OwnerKey;
      NextFits(q, RateAccount(max, width, init, owner, tok), calls, RateLimit.RateOp(q, max, width, last), RateAnswer(q, max, width, last), 1,
               owner, tok, from, width);
    }
  }

  /**
   * Within one window length at most the maximum stands as newly approved for one owner and
   * token, whatever the agent ids of the proposals.
   */
  lemma RateSharedBound(max: nat, width: int, calls: seq<PolicyCall>, owner: string, tok: string, from: int)
    requires width >= 1 && AllWithin(calls, from, width)
    ensures |RateAccount(max, width, calls, owner, tok)| <= max
  {
    var q, account, key := RateLimit.RateAfter(max, width, calls), RateAccount(max, width, calls, owner, tok), OwnerKey(owner, tok);
    RateAccountFits(max, width, calls, owner, tok, from);
    RateLimit.RateAfterFits(max, width, calls);
    TotalWithin(q, account, key);
    RateWeighsOne(max, width, calls, owner, tok);
    assert BucketWithin(q, key, Some(max));
    hide RateLimit.RateAfter, RateAccount, OwnerKey, Fits, Backed, Complete, HeldTotal, UsedBy, Total;
    CountIsTotal(account);
  }

  lemma {:induction false} RateWeighsOne(max: nat, width: int, calls: seq<PolicyCall>, owner: string, tok: string)
    ensures forall id | id in RateAccount(max, width, calls, owner, tok) :: RateAccount(max, width, calls, owner, tok)[id].amount == 1
  {
    hide RateAnswer, Of;
    if calls != [] { RateWeighsOne(max, width, calls[..|calls| - 1], owner, tok); }
  }

  lemma {:induction false} CountIsTotal(account: Account)
    requires forall id | id in account :: account[id].amount == 1
    ensures Total(account) == |account|
    decreases |account|
  {
    if account == map[] {
      SumZero(account, Amounts());
    } else {
      var id :| id in account;
      SumRemove(account, Amounts(), id);
      CountIsTotal(account - {id});
      assert account.Keys == (account - {id}).Keys + {id};
      assert |account.Keys| == |(account - {id}).Keys| + 1;
    }
  }

  /**
   * Exactly when a new proposal is approved, when the readings of its owner and token so far lie
   * within one window length of now: fewer than the maximum stand. Nothing else that was called
   * counts, no other owner or token and no agent id beside a principal.
   */
  lemma RateSharedExactly(max: nat, width: int, calls: seq<PolicyCall>, owner: string, tok: string, from: int, p: AgentProposal, now: int)
    requires width >= 1 && PlainOwners(calls) && Plainly(owner) && Of(p, owner, tok)
    requires OwnWithin(calls, owner, tok, from, width) && from <= now < from + width
    ensures var q := RateLimit.RateAfter(max, width, calls);
            && (RateLimit.RateEvaluate(q, max, width, p, now).outcome == Approved <==> |RateAccount(max, width, calls, owner, tok)| < max)
            && (p.id !in q.operations ==>
                  (RateLimit.RateReserve(q, max, width, p, now).1 == NEWLY <==> |RateAccount(max, width, calls, owner, tok)| < max))
  {
    var q, account := RateLimit.RateAfter(max, width, calls), RateAccount(max, width, calls, owner, tok);
    OwnIsKey(calls, owner, tok, from, width);
    RateAccountFits(max, width, calls, owner, tok, from);
    RateWeighsOne(max, width, calls, owner, tok);
    UsageIsTotal(q, account, calls, owner, tok, from, p, now, width);
    hide RateLimit.RateAfter, RateAccount, Fits, Usage, Total, KeyFor, Digest, Hold, Rollover, AccountFits, Of, PlainOwners;
    CountIsTotal(account);
  }

  lemma UsageIsTotal(q: Quota, account: Account, calls: seq<PolicyCall>, owner: string, tok: string, from: int, p: AgentProposal, now: int, width: int)
    requires AccountFits(q, account, calls, owner, tok, from) && PlainOwners(calls) && Plainly(owner) && Of(p, owner, tok)
    requires from <= now < from + width
    ensures Usage(q, KeyFor(p), now, width) == Total(account)
  {
    OfKey(p, owner, tok);
    hide KeyFor, OwnerKey, Of, HeldTotal, UsedBy, Total, Backed, Complete, PlainOwners;
    TotalWithin(q, account, OwnerKey(owner, tok));
  }

  // ---- The amount cap -----------------------------------------------------

  ghost function CapAnswer(q: Quota, perTx: Option<nat>, perDay: Option<nat>, call: PolicyCall): PolicyResult {
    if call.Reserving? then AmountCap.CapReserve(q, perTx, perDay, call.p, call.now).1 else NEWLY
  }

  function AmountOf(call: PolicyCall): nat {
    if call.Reserving? && AmountCap.ParseAmount(call.p).Amount? then AmountCap.ParseAmount(call.p).units else 0
  }

  /** What stands for an owner and token after the calls of an amount cap. */
  ghost function CapAccount(perTx: Option<nat>, perDay: Option<nat>, calls: seq<PolicyCall>, owner: string, tok: string): Account {
    if calls == [] then map[]
    else
      var init, last := calls[..|calls| - 1], calls[|calls| - 1];
      Booked(CapAccount(perTx, perDay, init, owner, tok), last, CapAnswer(AmountCap.CapAfter(perTx, perDay, init), perTx, perDay, last),
             AmountOf(last), owner, tok)
  }

  lemma CapFollows(q: Quota, perTx: Option<nat>, perDay: Option<nat>, call: PolicyCall)
    ensures var op := AmountCap.CapOp(q, perTx, perDay, call);
            Follows(op, call, CapAnswer(q, perTx, perDay, call), AmountOf(call)) && Anew(q, op)
  {
    hide KeyFor, Digest, Usage, Hold, Rollover;
  }

  lemma {:induction false} CapAccountFits(perTx: Option<nat>, perDay: Option<nat>, calls: seq<PolicyCall>, owner: string, tok: string, from: int)
    requires KeyWithin(calls, OwnerKey(owner, tok), from, AmountCap.DAY)
    ensures Fits(AmountCap.CapAfter(perTx, perDay, calls))
    ensures AccountFits(AmountCap.CapAfter(perTx, perDay, calls), CapAccount(perTx, perDay, calls, owner, tok), calls, owner, tok, from)
  {
    AmountCap.CapAfterFits(perTx, perDay, calls);
    if calls == [] {
      EmptyAccountFits(owner, tok, from);
    } else {
      var init, last := calls[..|calls| - 1], calls[|calls| - 1];
      var q := AmountCap.CapAfter(perTx, perDay, init);
      CapAccountFits(perTx, perDay, init, owner, tok, from);
      CapFollows(q, perTx, perDay, last);
      AmountCap.CapOpIsCall(q, perTx, perDay, last);
      hide Fits, AccountFits, KeyWithin, Booked, Follows, Anew, QuotaStep, AmountCap.CapOp, AmountCap.CapCall, Admits, CapAnswer, OwnerKey, AmountOf;
      NextFits(q, CapAccount(perTx, perDay, init, owner, tok), calls, AmountCap.CapOp(q, perTx, perDay, last), CapAnswer(q, perTx, perDay, last),
               AmountOf(last), owner, tok, from, AmountCap.DAY);
    }
  }

  /** Within 24 hours at most the daily cap stands as newly approved for one owner and token, whatever the agent ids. */
  lemma CapSharedBound(perTx: Option<nat>, perDay: nat, calls: seq<PolicyCall>, owner: string, tok: string, from: int)
    requires AllWithin(calls, from, 86_400_000)
    ensures Total(CapAccount(perTx, Some(perDay), calls, owner, tok)) <= perDay
  {
    var q, account, key := AmountCap.CapAfter(perTx, Some(perDay), calls), CapAccount(perTx, Some(perDay), calls, owner, tok), OwnerKey(owner, tok);
    CapAccountFits(perTx, Some(perDay), calls, owner, tok, from);
    AmountCap.CapAfterFits(perTx, Some(perDay), calls);
    TotalWithin(q, account, key);
    assert BucketWithin(q, key, Some(perDay));
    hide AmountCap.CapAfter, CapAccount, OwnerKey, Fits, Backed, Complete, HeldTotal, UsedBy, Total;
  }

  /**
   * Exactly when a new amount is approved, when the readings of its owner and token so far lie
   * within 24 hours of now: it is within the cap per transaction, and together with what stands
   * for that owner and token within the daily cap.
   */
  lemma CapSharedExactly(perTx: Option<nat>, perDay: Option<nat>, calls: seq<PolicyCall>, owner: string, tok: string, from: int,
                         p: AgentProposal, now: int, amount: nat)
    requires PlainOwners(calls) && Plainly(owner) && Of(p, owner, tok) && AmountCap.ParseAmount(p) == AmountCap.Amount(amount)
    requires OwnWithin(calls, owner, tok, from, 86_400_000) && from <= now < from + 86_400_000
    ensures var q := AmountCap.CapAfter(perTx, perDay, calls);
            var fits := (perTx.Some? ==> amount <= perTx.value)
                        && (perDay.Some? ==> Total(CapAccount(perTx, perDay, calls, owner, tok)) + amount <= perDay.value);
            && (AmountCap.CapEvaluate(q, perTx, perDay, p, now).outcome == Approved <==> fits)
            && (p.id !in q.operations ==> (AmountCap.CapReserve(q, perTx, perDay, p, now).1 == NEWLY <==> fits))
  {
    var q, account := AmountCap.CapAfter(perTx, perDay, calls), CapAccount(perTx, perDay, calls, owner, tok);
    OwnIsKey(calls, owner, tok, from, AmountCap.DAY);
    CapAccountFits(perTx, perDay, calls, owner, tok, from);
    UsageIsTotal(q, account, calls, owner, tok, from, p, now, AmountCap.DAY);
    RolledUsage(q, KeyFor(p), now, AmountCap.DAY);
    hide AmountCap.CapAfter, CapAccount, Fits, Usage, Total, KeyFor, Digest, Hold, Rollover, AccountFits, Of, PlainOwners, AmountCap.ParseAmount;
  }

  /** Without an amount the amount cap passes a new proposal and holds nothing; an amount that is no digit string is refused. */
  lemma AmountlessPasses(q: Quota, perTx: Option<nat>, perDay: Option<nat>, p: AgentProposal, now: int)
    requires p.id !in q.operations
    requires p.amount.None? || p.amount.value == "" || exists k :: 0 <= k < |p.amount.value| && !('0' <= p.amount.value[k] <= '9')
    ensures var answer := if p.amount.None? then APPROVED else REJECTED;
            AmountCap.CapEvaluate(q, perTx, perDay, p, now) == answer && AmountCap.CapReserve(q, perTx, perDay, p, now) == (q, answer)
  {
    hide KeyFor, Digest, Usage, Rollover;
  }

  // ---- Retries ------------------------------------------------------------

  /** What a retry is told while a reservation of its id stands for its owner and token. */
  function RetryAnswer(s: Standing): PolicyResult { PolicyResult(Approved, Some(if s.committed then AlreadyCommitted else AlreadyReserved)) }

  /**
   * A retry under the id of a standing reservation changes nothing: it is told the state when it
   * is the same proposal as first reserved, and is rejected when it differs in any policy-relevant field.
   */
  lemma RetriedExactly(q: Quota, s: Standing, first: AgentProposal, retry: AgentProposal, owner: string, tok: string,
                       max: nat, width: int, perTx: Option<nat>, perDay: Option<nat>, now: int)
    requires first.id == retry.id && BackedBy(q, s, retry.id, OwnerKey(owner, tok)) && q.operations[retry.id].digest == Digest(first)
    requires Of(retry, owner, tok)
    requires Encodable(first.metadata) && Encodable(Num(first.confidence)) && Encodable(retry.metadata) && Encodable(Num(retry.confidence))
    ensures var answer := if SameProposal(first, retry) then RetryAnswer(s) else REJECTED;
            && RateLimit.RateReserve(q, max, width, retry, now) == (q, answer)
            && AmountCap.CapReserve(q, perTx, perDay, retry, now) == (q, answer)
  {
    OfKey(retry, owner, tok);
    ProposalPreimageBinds(first, retry);
    hide SameProposal, ProposalPreimage, KeyFor, OwnerKey, Of, Usage, Rollover, Hold, Encodable;
  }

  // ---- Others -------------------------------------------------------------

  /** Two quotas look the same to a proposal: its bucket, and the binding of its id as far as it matters. */
  predicate Alike(q: Quota, r: Quota, p: AgentProposal) {
    && Lookup(q.buckets, KeyFor(p)) == Lookup(r.buckets, KeyFor(p)) && (p.id in q.operations <==> p.id in r.operations)
    && (p.id in q.operations ==>
          && q.operations[p.id].key == r.operations[p.id].key
          && (q.operations[p.id].key == KeyFor(p) ==> q.operations[p.id] == r.operations[p.id]))
  }

  lemma AlikeRate(q: Quota, r: Quota, max: nat, width: int, p: AgentProposal, now: int)
    requires Alike(q, r, p)
    ensures RateLimit.RateEvaluate(q, max, width, p, now) == RateLimit.RateEvaluate(r, max, width, p, now)
    ensures RateLimit.RateReserve(q, max, width, p, now).1 == RateLimit.RateReserve(r, max, width, p, now).1
  {
    assert Usage(q, KeyFor(p), now, width) == Usage(r, KeyFor(p), now, width);
    assert Replay(q, p) == Replay(r, p);
    hide KeyFor, Digest, Usage, Replay, Hold, Rollover;
  }

  lemma AlikeCap(q: Quota, r: Quota, perTx: Option<nat>, perDay: Option<nat>, p: AgentProposal, now: int)
    requires Alike(q, r, p)
    ensures AmountCap.CapEvaluate(q, perTx, perDay, p, now) == AmountCap.CapEvaluate(r, perTx, perDay, p, now)
    ensures AmountCap.CapReserve(q, perTx, perDay, p, now).1 == AmountCap.CapReserve(r, perTx, perDay, p, now).1
  {
    assert Usage(q, KeyFor(p), now, AmountCap.DAY) == Usage(r, KeyFor(p), now, AmountCap.DAY);
    assert Replay(q, p) == Replay(r, p);
    RolledUsage(q, KeyFor(p), now, AmountCap.DAY);
    RolledUsage(r, KeyFor(p), now, AmountCap.DAY);
    hide KeyFor, Digest, Usage, Replay, Hold, Rollover, AmountCap.ParseAmount;
  }

  lemma StepAlike(q: Quota, op: QuotaOp, width: int, b: AgentProposal)
    requires Fits(q) && (op.Idle? || (op.TryHold? && op.key != KeyFor(b) && op.id != b.id))
    ensures Alike(q, QuotaStep(q, op, width), b)
  {
    if op.TryHold? { RolledOthers(q, op.key, op.now, KeyFor(b), width); }
    hide KeyFor, Rollover, Fits, HeldTotal, UsedBy;
  }

  lemma ReserveAlike(q: Quota, max: nat, width: int, a: AgentProposal, b: AgentProposal, now: int)
    requires Fits(q) && a.id != b.id && KeyFor(a) != KeyFor(b)
    ensures Alike(q, RateLimit.RateReserve(q, max, width, a, now).0, b)
  {
    RateLimit.RateOpIsCall(q, max, width, Reserving(a, now));
    StepAlike(q, RateLimit.RateOp(q, max, width, Reserving(a, now)), width, b);
    hide KeyFor, Digest, Fits, Usage, Replay, QuotaStep, Alike, RateLimit.RateReserve;
  }

  lemma CapReserveAlike(q: Quota, perTx: Option<nat>, perDay: Option<nat>, a: AgentProposal, b: AgentProposal, now: int)
    requires Fits(q) && a.id != b.id && KeyFor(a) != KeyFor(b)
    ensures Alike(q, AmountCap.CapReserve(q, perTx, perDay, a, now).0, b)
  {
    AmountCap.CapOpIsCall(q, perTx, perDay, Reserving(a, now));
    StepAlike(q, AmountCap.CapOp(q, perTx, perDay, Reserving(a, now)), AmountCap.DAY, b);
    hide KeyFor, Digest, Fits, Usage, Replay, QuotaStep, Alike, AmountCap.CapReserve, AmountCap.ParseAmount, Rollover;
  }

  predicate Strangers(a: AgentProposal, b: AgentProposal) {
    a.id != b.id && PlainProposal(a) && PlainProposal(b)
    && (Coalesce(a.principal, a.agentId) != Coalesce(b.principal, b.agentId) || Coalesce(a.tokenId, "native") != Coalesce(b.tokenId, "native"))
  }

  lemma StrangersDoNotShare(a: AgentProposal, b: AgentProposal)
    requires Strangers(a, b)
    ensures KeyFor(a) != KeyFor(b)
  {
    SharedExactly(a, b);
    hide KeyFor;
  }

  /** A reservation under a rate limit leaves the verdicts on proposals of another owner or token as they were. */
  lemma StrangersRate(q: Quota, max: nat, width: int, a: AgentProposal, b: AgentProposal, now: int, later: int)
    requires Fits(q) && Strangers(a, b)
    ensures var r := RateLimit.RateReserve(q, max, width, a, now).0;
            && RateLimit.RateEvaluate(r, max, width, b, later) == RateLimit.RateEvaluate(q, max, width, b, later)
            && RateLimit.RateReserve(r, max, width, b, later).1 == RateLimit.RateReserve(q, max, width, b, later).1
  {
    StrangersDoNotShare(a, b);
    hide KeyFor, Digest, Rollover, Fits, Alike, Usage, Replay, RateLimit.RateReserve, RateLimit.RateEvaluate, AmountCap.CapReserve, AmountCap.CapEvaluate, PlainProposal;
    ReserveAlike(q, max, width, a, b, now);
    AlikeRate(q, RateLimit.RateReserve(q, max, width, a, now).0, max, width, b, later);
  }

  /** And so does a reservation under an amount cap. */
  lemma StrangersCap(q: Quota, perTx: Option<nat>, perDay: Option<nat>, a: AgentProposal, b: AgentProposal, now: int, later: int)
    requires Fits(q) && Strangers(a, b)
    ensures var r := AmountCap.CapReserve(q, perTx, perDay, a, now).0;
            && AmountCap.CapEvaluate(r, perTx, perDay, b, later) == AmountCap.CapEvaluate(q, perTx, perDay, b, later)
            && AmountCap.CapReserve(r, perTx, perDay, b, later).1 == AmountCap.CapReserve(q, perTx, perDay, b, later).1
  {
    StrangersDoNotShare(a, b);
    hide KeyFor, Digest, Rollover, Fits, Alike, Usage, Replay, RateLimit.RateReserve, RateLimit.RateEvaluate, AmountCap.CapReserve, AmountCap.CapEvaluate, PlainProposal;
    CapReserveAlike(q, perTx, perDay, a, b, now);
    AlikeCap(q, AmountCap.CapReserve(q, perTx, perDay, a, now).0, perTx, perDay, b, later);
  }
}
