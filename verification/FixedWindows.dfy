/**
 * The fixed-window quota behind the rate limit and the amount cap: per key a window with a
 * committed total and held reservations, and per operation id its binding and status. For
 * the rate limit, a held set is the map that gives every id the weight 1.
 */
module FixedWindows {
  import opened Outcomes
  import opened Sums

  datatype OperationState = Reserved | Committed | Released

  datatype Operation = Operation(key: string, amount: nat, digest: string, status: OperationState)

  datatype Bucket = Bucket(windowStart: int, committed: nat, held: map<string, nat>)

  datatype Quota = Quota(buckets: map<string, Bucket>, operations: map<string, Operation>)

  const EMPTY_QUOTA := Quota(map[], map[])

  // ---- The steps both policies are made of --------------------------------

  function Plain(): nat -> int { (n: nat) => n }

  ghost function HeldTotal(b: Bucket): int { Sum(b.held, Plain()) }

  predicate Elapsed(b: Bucket, now: int, width: int) { now - b.windowStart >= width }

  /** Committed plus reserved usage, as the window would stand after a pending rollover. */
  ghost function Usage(q: Quota, key: string, now: int, width: int): int {
    if key !in q.buckets || Elapsed(q.buckets[key], now, width) then 0
    else q.buckets[key].committed + HeldTotal(q.buckets[key])
  }

  function ReleaseAll(operations: map<string, Operation>, ids: set<string>): map<string, Operation> {
    map id | id in operations :: if id in ids then operations[id].(status := Released) else operations[id]
  }

  function Rollover(q: Quota, key: string, now: int, width: int): Quota {
    if key !in q.buckets || !Elapsed(q.buckets[key], now, width) then q
    else Quota(q.buckets[key := Bucket(now, 0, map[])], ReleaseAll(q.operations, q.buckets[key].held.Keys))
  }

  function Hold(q: Quota, key: string, now: int, id: string, digest: string, amount: nat): Quota {
    var b := if key in q.buckets then q.buckets[key] else Bucket(now, 0, map[]);
    Quota(q.buckets[key := b.(held := b.held[id := amount])], q.operations[id := Operation(key, amount, digest, Reserved)])
  }

  predicate HeldIn(q: Quota, key: string, id: string) { key in q.buckets && id in q.buckets[key].held }

  predicate IsReserved(q: Quota, id: string) { id in q.operations && q.operations[id].status.Reserved? }

  function SetStatus(q: Quota, id: string, status: OperationState): Quota
    requires id in q.operations
  {
    q.(operations := q.operations[id := q.operations[id].(status := status)])
  }

  function TakeOut(q: Quota, key: string, id: string, charge: nat): Quota
    requires key in q.buckets
  {
    var b := q.buckets[key];
    q.(buckets := q.buckets[key := Bucket(b.windowStart, b.committed + charge, b.held - {id})])
  }

  function Commit(q: Quota, id: string): Quota {
    if !IsReserved(q, id) then q
    else
      var op := q.operations[id];
      if !HeldIn(q, op.key, id) then SetStatus(q, id, Released)
      else SetStatus(TakeOut(q, op.key, id, op.amount), id, Committed)
  }

  function Release(q: Quota, id: string): Quota {
    if !IsReserved(q, id) then q
    else
      var op := q.operations[id];
      SetStatus(if op.key in q.buckets then TakeOut(q, op.key, id, 0) else q, id, Released)
  }

  // ---- Runs, with a log of what was committed -----------------------------

  /** One committed operation: when it was reserved, and the window it was charged to. */
  datatype Entry = Entry(key: string, amount: nat, reservedAt: int, window: int)

  /** A quota with its history: the reservation times, and the committed entries in order. */
  datatype History = History(quota: Quota, times: map<string, int>, log: seq<Entry>)

  const START := History(EMPTY_QUOTA, map[], [])

  datatype QuotaOp =
    | Idle
    | TryHold(key: string, id: string, digest: string, amount: nat, now: int, held: bool)
    | DoCommit(id: string)
    | DoRelease(id: string)

  predicate Charges(q: Quota, id: string) { IsReserved(q, id) && HeldIn(q, q.operations[id].key, id) }

  /** What an operation does to the quota. */
  function QuotaStep(q: Quota, op: QuotaOp, width: int): Quota {
    match op
    case Idle => q
    case TryHold(key, id, digest, amount, now, held) =>
      var rolled := Rollover(q, key, now, width);
      if held then Hold(rolled, key, now, id, digest, amount) else rolled
    case DoCommit(id) => Commit(q, id)
    case DoRelease(id) => Release(q, id)
  }

  function Advance(h: History, op: QuotaOp, width: int): History {
    var q := QuotaStep(h.quota, op, width);
    match op
    case Idle => h
    case TryHold(_, id, _, _, now, held) => History(q, if held then h.times[id := now] else h.times, h.log)
    case DoCommit(id) =>
      if Charges(h.quota, id) && id in h.times then
        var o := h.quota.operations[id];
        h.(quota := q, log := h.log + [Entry(o.key, o.amount, h.times[id], h.quota.buckets[o.key].windowStart)])
      else h.(quota := q)
    case DoRelease(id) => h.(quota := q)
  }

  /** The history moves by the same step. */
  lemma AdvanceQuota(h: History, op: QuotaOp, width: int)
    ensures Advance(h, op, width).quota == QuotaStep(h.quota, op, width)
  {
    hide Rollover, Hold, Commit, Release;
  }

  /** What is held is not held already and fits under the cap. The clock may read anything. */
  ghost predicate Admits(q: Quota, op: QuotaOp, cap: Option<nat>, width: int) {
    op.TryHold? && op.held ==>
      && !IsReserved(Rollover(q, op.key, op.now, width), op.id)
      && (cap.Some? ==> Usage(q, op.key, op.now, width) + op.amount <= cap.value)
  }

  /** What is held is not read before its key's current window began: a caller can see this in the bucket. */
  predicate InTime(q: Quota, op: QuotaOp) {
    op.TryHold? && op.held && op.key in q.buckets ==> op.now >= q.buckets[op.key].windowStart
  }

  /** The history after the operations. */
  function RanFrom(h: History, ops: seq<QuotaOp>, width: int): History {
    if ops == [] then h else Advance(RanFrom(h, ops[..|ops| - 1], width), ops[|ops| - 1], width)
  }

  function Ran(ops: seq<QuotaOp>, width: int): History { RanFrom(START, ops, width) }

  /** Every operation is admitted where it comes. */
  ghost predicate AdmittedFrom(h: History, ops: seq<QuotaOp>, cap: Option<nat>, width: int) {
    ops == [] ||
    (&& AdmittedFrom(h, ops[..|ops| - 1], cap, width)
     && Admits(RanFrom(h, ops[..|ops| - 1], width).quota, ops[|ops| - 1], cap, width))
  }

  ghost predicate AllAdmitted(ops: seq<QuotaOp>, cap: Option<nat>, width: int) { AdmittedFrom(START, ops, cap, width) }

  /** Every operation is in time where it comes. */
  predicate AllInTime(ops: seq<QuotaOp>, width: int) {
    ops == [] || (AllInTime(ops[..|ops| - 1], width) && InTime(Ran(ops[..|ops| - 1], width).quota, ops[|ops| - 1]))
  }

  // ---- Marks and holds ----------------------------------------------------

  /** An operation is marked reserved exactly when the bucket of its key holds it, at its own amount. */
  predicate MarkFits(q: Quota, id: string) {
    id in q.operations ==> (IsReserved(q, id) <==> HeldIn(q, q.operations[id].key, id))
  }

  predicate HoldFits(q: Quota, key: string, id: string) {
    HeldIn(q, key, id) ==> IsReserved(q, id) && q.operations[id].key == key && q.operations[id].amount == q.buckets[key].held[id]
  }

  ghost predicate Fits(q: Quota) { (forall id :: MarkFits(q, id)) && forall key, id :: HoldFits(q, key, id) }

  lemma RolloverFits(q: Quota, key: string, now: int, width: int)
    requires Fits(q)
    ensures Fits(Rollover(q, key, now, width))
  {
    var r := Rollover(q, key, now, width);
    forall id ensures MarkFits(r, id) { assert MarkFits(q, id) && HoldFits(q, key, id); }
    forall k, id ensures HoldFits(r, k, id) { assert HoldFits(q, k, id) && HoldFits(q, key, id); }
  }

  lemma HoldKeepsFit(q: Quota, key: string, now: int, id: string, digest: string, amount: nat)
    requires Fits(q) && !IsReserved(q, id)
    ensures Fits(Hold(q, key, now, id, digest, amount))
  {
    var r := Hold(q, key, now, id, digest, amount);
    forall i ensures MarkFits(r, i) { assert MarkFits(q, i); }
    forall k, i ensures HoldFits(r, k, i) { assert HoldFits(q, k, i); }
  }

  lemma TakeOutFits(q: Quota, id: string, charge: nat, status: OperationState)
    requires Fits(q) && IsReserved(q, id) && !status.Reserved?
    ensures q.operations[id].key in q.buckets
    ensures Fits(SetStatus(TakeOut(q, q.operations[id].key, id, charge), id, status))
  {
    assert MarkFits(q, id);
    var r := SetStatus(TakeOut(q, q.operations[id].key, id, charge), id, status);
    forall i ensures MarkFits(r, i) { assert MarkFits(q, i); }
    forall k, i ensures HoldFits(r, k, i) { assert HoldFits(q, k, i); }
  }

  /** In a fitting quota a commit always finds its reservation, and a release does too. */
  lemma ClosingFindsHold(q: Quota, id: string)
    requires Fits(q) && IsReserved(q, id)
    ensures var key := q.operations[id].key;
            && HeldIn(q, key, id) && q.buckets[key].held[id] == q.operations[id].amount
            && Commit(q, id) == SetStatus(TakeOut(q, key, id, q.operations[id].amount), id, Committed)
            && Release(q, id) == SetStatus(TakeOut(q, key, id, 0), id, Released)
  {
    assert MarkFits(q, id) && HoldFits(q, q.operations[id].key, id);
  }

  // ---- The cap, whatever the clock reads ----------------------------------

  ghost predicate BucketWithin(q: Quota, key: string, cap: Option<nat>) {
    key in q.buckets && cap.Some? ==> q.buckets[key].committed + HeldTotal(q.buckets[key]) <= cap.value
  }

  /** Marks and buckets agree, and every bucket is within the cap. */
  ghost predicate CapFits(q: Quota, cap: Option<nat>) { Fits(q) && forall key :: BucketWithin(q, key, cap) }

  lemma HeldNonNegative(b: Bucket)
    ensures HeldTotal(b) >= 0
  {
    SumNonNegative(b.held, Plain());
  }

  lemma EmptyHeld(b: Bucket)
    requires b.held == map[]
    ensures HeldTotal(b) == 0
  {
    SumZero(b.held, Plain());
  }

  lemma HeldAfterAdd(b: Bucket, id: string, amount: nat)
    requires id !in b.held
    ensures HeldTotal(b.(held := b.held[id := amount])) == HeldTotal(b) + amount
  {
    SumInsert(b.held, Plain(), id, amount);
  }

  lemma HeldAfterRemove(b: Bucket, id: string, committed: nat)
    requires id in b.held
    ensures HeldTotal(Bucket(b.windowStart, committed, b.held - {id})) == HeldTotal(b) - b.held[id]
  {
    SumRemove(b.held, Plain(), id);
  }

  lemma NotHeld(q: Quota, id: string)
    requires Fits(q) && !IsReserved(q, id)
    ensures forall k :: !HeldIn(q, k, id)
  {
    forall k ensures !HeldIn(q, k, id) { assert HoldFits(q, k, id); }
  }

  lemma RolloverCap(q: Quota, key: string, now: int, width: int, cap: Option<nat>)
    requires CapFits(q, cap)
    ensures CapFits(Rollover(q, key, now, width), cap)
  {
    RolloverFits(q, key, now, width);
    EmptyHeld(Bucket(now, 0, map[]));
    hide Fits, HeldTotal, ReleaseAll;
    forall k ensures BucketWithin(Rollover(q, key, now, width), k, cap) { assert BucketWithin(q, k, cap); }
  }

  lemma HoldCap(q: Quota, key: string, now: int, id: string, digest: string, amount: nat, cap: Option<nat>, width: int)
    requires CapFits(q, cap) && !IsReserved(q, id) && (key in q.buckets ==> !Elapsed(q.buckets[key], now, width))
    requires cap.Some? ==> Usage(q, key, now, width) + amount <= cap.value
    ensures CapFits(Hold(q, key, now, id, digest, amount), cap)
  {
    HoldKeepsFit(q, key, now, id, digest, amount);
    NotHeld(q, id);
    assert !HeldIn(q, key, id);
    var b := if key in q.buckets then q.buckets[key] else Bucket(now, 0, map[]);
    EmptyHeld(Bucket(now, 0, map[]));
    HeldAfterAdd(b, id, amount);
    hide Fits, HeldTotal;
    forall k ensures BucketWithin(Hold(q, key, now, id, digest, amount), k, cap) { assert BucketWithin(q, k, cap); }
  }

  /** Closing moves a held amount to the committed total, or drops it. */
  lemma TakeOutCap(q: Quota, id: string, charge: nat, status: OperationState, cap: Option<nat>)
    requires CapFits(q, cap) && IsReserved(q, id) && !status.Reserved? && charge <= q.operations[id].amount
    ensures q.operations[id].key in q.buckets
    ensures CapFits(SetStatus(TakeOut(q, q.operations[id].key, id, charge), id, status), cap)
  {
    var key := q.operations[id].key;
    ClosingFindsHold(q, id);
    TakeOutFits(q, id, charge, status);
    HeldAfterRemove(q.buckets[key], id, q.buckets[key].committed + charge);
    hide Fits, HeldTotal;
    forall k ensures BucketWithin(SetStatus(TakeOut(q, key, id, charge), id, status), k, cap) { assert BucketWithin(q, k, cap); }
  }

  /** Every step keeps the marks and the cap, with any clock readings. */
  lemma StepKeepsCap(q: Quota, op: QuotaOp, cap: Option<nat>, width: int)
    requires CapFits(q, cap) && Admits(q, op, cap, width) && width >= 1
    ensures CapFits(QuotaStep(q, op, width), cap)
  {
    hide CapFits, Hold, Rollover, Usage;
    match op
    case Idle =>
    case TryHold(key, id, digest, amount, now, held) =>
      RolloverCap(q, key, now, width, cap);
      RolledUsage(q, key, now, width);
      if held { HoldCap(Rollover(q, key, now, width), key, now, id, digest, amount, cap, width); }
    case DoCommit(id) => CloseCap(q, id, cap);
    case DoRelease(id) => CloseCap(q, id, cap);
  }

  lemma CloseCap(q: Quota, id: string, cap: Option<nat>)
    requires CapFits(q, cap)
    ensures CapFits(Commit(q, id), cap) && CapFits(Release(q, id), cap)
  {
    if IsReserved(q, id) {
      ClosingFindsHold(q, id);
      TakeOutCap(q, id, q.operations[id].amount, Committed, cap);
      TakeOutCap(q, id, 0, Released, cap);
      hide Fits, Commit, Release, TakeOut, SetStatus, BucketWithin;
    } else {
      hide CapFits;
    }
  }

  /** Rolling over first does not change the usage that is read, and leaves a current window. */
  lemma RolledUsage(q: Quota, key: string, now: int, width: int)
    requires width >= 1
    ensures var r := Rollover(q, key, now, width);
            Usage(r, key, now, width) == Usage(q, key, now, width) && (key in r.buckets ==> !Elapsed(r.buckets[key], now, width))
  {
    EmptyHeld(Bucket(now, 0, map[]));
    hide HeldTotal, ReleaseAll;
  }

  // ---- Windows and the log ------------------------------------------------

  /** The amounts committed in one window of a key. */
  function WindowSum(log: seq<Entry>, key: string, window: int): nat {
    if log == [] then 0
    else
      var e := log[|log| - 1];
      WindowSum(log[..|log| - 1], key, window) + if e.key == key && e.window == window then e.amount else 0
  }

  lemma {:induction false} NoEntriesNoSum(log: seq<Entry>, key: string, window: int)
    requires forall i | 0 <= i < |log| :: log[i].key == key ==> log[i].window != window
    ensures WindowSum(log, key, window) == 0
  {
    if log != [] { NoEntriesNoSum(log[..|log| - 1], key, window); }
  }

  lemma WindowSumSnoc(log: seq<Entry>, e: Entry, key: string, window: int)
    ensures WindowSum(log + [e], key, window) == WindowSum(log, key, window) + if e.key == key && e.window == window then e.amount else 0
  {
    assert (log + [e])[..|log|] == log;
  }

  /** An entry was reserved before the end of its window, which is the key's current one or ended before it. */
  predicate EntryFits(h: History, e: Entry, width: int) {
    && e.reservedAt < e.window + width && e.key in h.quota.buckets
    && (e.window == h.quota.buckets[e.key].windowStart || e.window + width <= h.quota.buckets[e.key].windowStart)
  }

  /** Windows of a key do not overlap, and the log goes through them in order. */
  predicate Ordered(log: seq<Entry>, width: int) {
    forall i, j | 0 <= i < j < |log| && log[i].key == log[j].key :: log[i].window == log[j].window || log[i].window + width <= log[j].window
  }

  predicate BucketFits(h: History, key: string, width: int) {
    key in h.quota.buckets ==>
      var b := h.quota.buckets[key];
      && (forall id | id in b.held :: id in h.times && h.times[id] < b.windowStart + width)
      && WindowSum(h.log, key, b.windowStart) == b.committed
  }

  predicate WindowFits(h: History, cap: Option<nat>, key: string, window: int) {
    cap.Some? ==> WindowSum(h.log, key, window) <= cap.value
  }

  /** The log tells what was committed, window by window. */
  ghost predicate LogFits(h: History, width: int) {
    && Ordered(h.log, width) && (forall key :: BucketFits(h, key, width))
    && forall i | 0 <= i < |h.log| :: EntryFits(h, h.log[i], width)
  }

  ghost predicate Kept(h: History, cap: Option<nat>, width: int) {
    CapFits(h.quota, cap) && LogFits(h, width) && forall key, window :: WindowFits(h, cap, key, window)
  }

  lemma RolloverKeeps(h: History, key: string, now: int, width: int)
    requires LogFits(h, width) && width >= 1
    ensures LogFits(h.(quota := Rollover(h.quota, key, now, width)), width)
  {
    var h' := h.(quota := Rollover(h.quota, key, now, width));
    hide ReleaseAll, WindowSum, Ordered;
    assert BucketFits(h, key, width);
    forall i | 0 <= i < |h'.log| ensures EntryFits(h', h'.log[i], width) { assert EntryFits(h, h.log[i], width); }
    forall k ensures BucketFits(h', k, width) {
      assert BucketFits(h, k, width);
      if k == key && h'.quota != h.quota {
        assert forall i | 0 <= i < |h.log| && h.log[i].key == key :: EntryFits(h, h.log[i], width) && h.log[i].window != now;
        NoEntriesNoSum(h.log, key, now);
      }
    }
  }

  lemma HoldKeeps(h: History, key: string, now: int, id: string, digest: string, amount: nat, width: int)
    requires Fits(h.quota) && LogFits(h, width) && width >= 1 && !IsReserved(h.quota, id)
    requires key in h.quota.buckets ==> !Elapsed(h.quota.buckets[key], now, width)
    ensures LogFits(History(Hold(h.quota, key, now, id, digest, amount), h.times[id := now], h.log), width)
  {
    var h' := History(Hold(h.quota, key, now, id, digest, amount), h.times[id := now], h.log);
    NotHeld(h.quota, id);
    assert BucketFits(h, key, width);
    if key !in h.quota.buckets {
      assert forall i | 0 <= i < |h.log| :: EntryFits(h, h.log[i], width) && h.log[i].key != key;
      NoEntriesNoSum(h.log, key, now);
    }
    hide Fits, WindowSum, Ordered;
    forall i | 0 <= i < |h'.log| ensures EntryFits(h', h'.log[i], width) { assert EntryFits(h, h.log[i], width); }
    forall k ensures BucketFits(h', k, width) {
      assert BucketFits(h, k, width);
      assert !HeldIn(h.quota, k, id);
    }
  }

  lemma ReleaseKeeps(h: History, id: string, width: int)
    requires Fits(h.quota) && LogFits(h, width)
    ensures LogFits(h.(quota := Release(h.quota, id)), width)
  {
    if IsReserved(h.quota, id) {
      ClosingFindsHold(h.quota, id);
      var h' := h.(quota := Release(h.quota, id));
      hide Fits, WindowSum, Ordered, Release;
      forall i | 0 <= i < |h'.log| ensures EntryFits(h', h'.log[i], width) { assert EntryFits(h, h.log[i], width); }
      forall k ensures BucketFits(h', k, width) { assert BucketFits(h, k, width); }
    } else {
      hide LogFits;
    }
  }

  /** The entry a commit appends to the log. */
  function EntryOf(h: History, id: string): Entry
    requires Charges(h.quota, id) && id in h.times
  {
    var o := h.quota.operations[id];
    Entry(o.key, o.amount, h.times[id], h.quota.buckets[o.key].windowStart)
  }

  lemma CommitAppends(h: History, id: string, width: int)
    requires Fits(h.quota) && LogFits(h, width) && IsReserved(h.quota, id)
    ensures Charges(h.quota, id) && id in h.times
    ensures Advance(h, DoCommit(id), width) == h.(quota := Commit(h.quota, id), log := h.log + [EntryOf(h, id)])
  {
    ClosingFindsHold(h.quota, id);
    assert BucketFits(h, h.quota.operations[id].key, width);
    hide Fits, WindowSum, Commit;
  }

  lemma CommitKeeps(h: History, id: string, width: int)
    requires Fits(h.quota) && LogFits(h, width) && IsReserved(h.quota, id)
    ensures LogFits(Advance(h, DoCommit(id), width), width)
  {
    CommitAppends(h, id, width);
    ClosingFindsHold(h.quota, id);
    var h', e := Advance(h, DoCommit(id), width), EntryOf(h, id);
    assert BucketFits(h, e.key, width);
    hide Fits, WindowSum, Commit, Advance;
    assert EntryFits(h', e, width);
    forall i | 0 <= i < |h'.log| ensures EntryFits(h', h'.log[i], width) {
      if i < |h.log| { assert h'.log[i] == h.log[i] && EntryFits(h, h.log[i], width); } else { assert h'.log[i] == e; }
    }
    forall k ensures BucketFits(h', k, width) {
      assert BucketFits(h, k, width);
      if k in h.quota.buckets { WindowSumSnoc(h.log, e, k, h.quota.buckets[k].windowStart); }
    }
  }

  /** After a commit too, no window has more committed than the cap. */
  lemma CommitWindows(h: History, id: string, cap: Option<nat>, width: int)
    requires Kept(h, cap, width) && IsReserved(h.quota, id)
    ensures forall key, window :: WindowFits(Advance(h, DoCommit(id), width), cap, key, window)
  {
    CommitAppends(h, id, width);
    CloseCap(h.quota, id, cap);
    CommitKeeps(h, id, width);
    var h', e := Advance(h, DoCommit(id), width), EntryOf(h, id);
    assert BucketFits(h', e.key, width) && BucketWithin(h'.quota, e.key, cap);
    ClosingFindsHold(h.quota, id);
    HeldNonNegative(h'.quota.buckets[e.key]);
    hide Fits, WindowSum, Commit, Advance, HeldTotal;
    forall k, w ensures WindowFits(h', cap, k, w) {
      assert WindowFits(h, cap, k, w);
      WindowSumSnoc(h.log, e, k, w);
    }
  }

  lemma AdvanceLog(h: History, op: QuotaOp, cap: Option<nat>, width: int)
    requires Kept(h, cap, width) && Admits(h.quota, op, cap, width) && width >= 1
    ensures LogFits(Advance(h, op, width), width)
  {
    assert Fits(h.quota) && LogFits(h, width);
    hide Kept, LogFits, Fits, Hold, Release, Commit;
    match op
    case Idle =>
    case TryHold(key, id, digest, amount, now, held) =>
      RolloverKeeps(h, key, now, width);
      RolloverFits(h.quota, key, now, width);
      RolledUsage(h.quota, key, now, width);
      if held { HoldKeeps(h.(quota := Rollover(h.quota, key, now, width)), key, now, id, digest, amount, width); }
    case DoRelease(id) => ReleaseKeeps(h, id, width);
    case DoCommit(id) =>
      if IsReserved(h.quota, id) { CommitKeeps(h, id, width); }
  }

  /** Every admitted step keeps the caps, the marks, the log and the window sums, at any clock readings. */
  lemma AdvanceKeeps(h: History, op: QuotaOp, cap: Option<nat>, width: int)
    requires Kept(h, cap, width) && Admits(h.quota, op, cap, width) && width >= 1
    ensures Kept(Advance(h, op, width), cap, width)
  {
    StepKeepsCap(h.quota, op, cap, width);
    AdvanceLog(h, op, cap, width);
    if op.DoCommit? && IsReserved(h.quota, op.id) { CommitWindows(h, op.id, cap, width); }
    hide CapFits, LogFits, QuotaStep, Admits, WindowSum;
    if !(op.DoCommit? && IsReserved(h.quota, op.id)) {
      assert Advance(h, op, width).log == h.log;
      forall k, w ensures WindowFits(Advance(h, op, width), cap, k, w) { assert WindowFits(h, cap, k, w); }
    }
  }

  lemma StartFits(cap: Option<nat>)
    ensures CapFits(EMPTY_QUOTA, cap)
  {}

  lemma StartKept(cap: Option<nat>, width: int)
    ensures Kept(START, cap, width)
  {}

  lemma {:induction false} RanKept(ops: seq<QuotaOp>, cap: Option<nat>, width: int)
    requires AllAdmitted(ops, cap, width) && width >= 1
    ensures Kept(Ran(ops, width), cap, width)
  {
    if ops == [] {
      StartKept(cap, width);
    } else {
      var init, last := ops[..|ops| - 1], ops[|ops| - 1];
      RanKept(init, cap, width);
      hide Kept, Admits, Advance;
      AdvanceKeeps(Ran(init, width), last, cap, width);
    }
  }

  // ---- Readings that are in time ------------------------------------------

  predicate HoldInTime(h: History, key: string, id: string) {
    HeldIn(h.quota, key, id) ==> id in h.times && h.quota.buckets[key].windowStart <= h.times[id]
  }

  /** Nothing was reserved at a reading before its window. */
  ghost predicate Timely(h: History) {
    (forall i | 0 <= i < |h.log| :: h.log[i].window <= h.log[i].reservedAt) && forall key, id :: HoldInTime(h, key, id)
  }

  lemma HoldTimely(h: History, op: QuotaOp, width: int)
    requires op.TryHold? && op.held && width >= 1
    requires Fits(h.quota) && Timely(h) && InTime(h.quota, op) && !IsReserved(Rollover(h.quota, op.key, op.now, width), op.id)
    ensures Timely(Advance(h, op, width))
  {
    var rolled, h' := Rollover(h.quota, op.key, op.now, width), Advance(h, op, width);
    RolloverFits(h.quota, op.key, op.now, width);
    NotHeld(rolled, op.id);
    hide Fits, ReleaseAll;
    forall k, i ensures HoldInTime(h', k, i) {
      assert HoldInTime(h, k, i) && !HeldIn(rolled, k, op.id);
    }
  }

  lemma AdvanceTimely(h: History, op: QuotaOp, cap: Option<nat>, width: int)
    requires Fits(h.quota) && Timely(h) && InTime(h.quota, op) && Admits(h.quota, op, cap, width) && width >= 1
    ensures Timely(Advance(h, op, width))
  {
    if op.TryHold? && op.held {
      HoldTimely(h, op, width);
    } else {
      var h' := Advance(h, op, width);
      hide Fits, ReleaseAll;
      forall k, i ensures HoldInTime(h', k, i) { assert HoldInTime(h, k, i); }
      if op.DoCommit? && Charges(h.quota, op.id) { assert HoldInTime(h, h.quota.operations[op.id].key, op.id); }
    }
  }

  lemma {:induction false} RanTimely(ops: seq<QuotaOp>, cap: Option<nat>, width: int)
    requires AllAdmitted(ops, cap, width) && AllInTime(ops, width) && width >= 1
    ensures Timely(Ran(ops, width))
  {
    if ops != [] {
      var init, last := ops[..|ops| - 1], ops[|ops| - 1];
      RanTimely(init, cap, width);
      RanKept(init, cap, width);
      assert Fits(Ran(init, width).quota);
      hide Kept, Timely, Fits, Admits, InTime, Advance;
      AdvanceTimely(Ran(init, width), last, cap, width);
    }
  }

  // ---- Twice the cap ------------------------------------------------------

  predicate InInterval(e: Entry, key: string, from: int, width: int) { e.key == key && from <= e.reservedAt < from + width }

  /** The amounts committed for a key whose reservation falls in [from, from + width). */
  function IntervalSum(log: seq<Entry>, key: string, from: int, width: int): nat {
    if log == [] then 0
    else
      var e := log[|log| - 1];
      IntervalSum(log[..|log| - 1], key, from, width) + if InInterval(e, key, from, width) then e.amount else 0
  }

  lemma {:induction false} TwoWindows(log: seq<Entry>, key: string, from: int, width: int, a: int, b: int)
    requires forall i | 0 <= i < |log| && InInterval(log[i], key, from, width) :: log[i].window == a || log[i].window == b
    ensures IntervalSum(log, key, from, width) <= WindowSum(log, key, a) + WindowSum(log, key, b)
  {
    if log != [] { TwoWindows(log[..|log| - 1], key, from, width, a, b); }
  }

  /** The first and the last entry of an interval, or bounds that meet when there is none. */
  lemma {:induction false} Ends(log: seq<Entry>, key: string, from: int, width: int) returns (i: nat, j: nat)
    ensures forall k | 0 <= k < |log| && InInterval(log[k], key, from, width) :: i <= k <= j < |log|
    ensures (exists k :: 0 <= k < |log| && InInterval(log[k], key, from, width)) ==>
      i <= j < |log| && InInterval(log[i], key, from, width) && InInterval(log[j], key, from, width)
  {
    i, j := 0, 0;
    if log != [] {
      var n := |log| - 1;
      i, j := Ends(log[..n], key, from, width);
      if InInterval(log[n], key, from, width) {
        if !(exists k :: 0 <= k < n && InInterval(log[..n][k], key, from, width)) {
          assert forall k | 0 <= k < n :: !InInterval(log[..n][k], key, from, width);
          i := n;
        }
        j := n;
      }
    }
  }

  /** Entries reserved in time and within one window length of each other come from at most two windows. */
  lemma AtMostTwoWindows(h: History, width: int, key: string, from: int) returns (a: int, b: int)
    requires LogFits(h, width) && Timely(h) && width >= 1
    ensures forall k | 0 <= k < |h.log| && InInterval(h.log[k], key, from, width) :: h.log[k].window == a || h.log[k].window == b
  {
    hide WindowSum;
    var i, j := Ends(h.log, key, from, width);
    if i < |h.log| && j < |h.log| { a, b := h.log[i].window, h.log[j].window; } else { a, b := 0, 0; }
    forall k | 0 <= k < |h.log| && InInterval(h.log[k], key, from, width) ensures h.log[k].window == a || h.log[k].window == b {
      assert EntryFits(h, h.log[i], width) && EntryFits(h, h.log[j], width) && EntryFits(h, h.log[k], width);
    }
  }

  /**
   * When no held reservation is read before its key's current window began, what is committed
   * out of the reservations of any interval of one window length is at most twice the cap.
   */
  lemma TwiceTheCap(ops: seq<QuotaOp>, cap: nat, width: int, key: string, from: int)
    requires AllAdmitted(ops, Some(cap), width) && AllInTime(ops, width) && width >= 1
    ensures IntervalSum(Ran(ops, width).log, key, from, width) <= 2 * cap
  {
    RanKept(ops, Some(cap), width);
    RanTimely(ops, Some(cap), width);
    var h := Ran(ops, width);
    assert LogFits(h, width);
    hide Ran, LogFits, Timely, WindowSum, CapFits, AllAdmitted, AllInTime;
    var a, b := AtMostTwoWindows(h, width, key, from);
    assert WindowFits(h, Some(cap), key, a) && WindowFits(h, Some(cap), key, b);
    TwoWindows(h.log, key, from, width, a, b);
  }

  // ---- Releasing undoes holding -------------------------------------------

  /** Releasing what was just held leaves the windows as they were, but for an empty new one. */
  lemma ReleaseUndoesHold(q: Quota, key: string, now: int, id: string, digest: string, amount: nat)
    requires Fits(q) && !IsReserved(q, id)
    ensures Release(Hold(q, key, now, id, digest, amount), id)
         == Quota(if key in q.buckets then q.buckets else q.buckets[key := Bucket(now, 0, map[])],
                  q.operations[id := Operation(key, amount, digest, Released)])
  {
    NotHeld(q, id);
    assert !HeldIn(q, key, id);
    var b := if key in q.buckets then q.buckets[key] else Bucket(now, 0, map[]);
    assert b.held[id := amount] - {id} == b.held;
    hide Fits;
  }

  /** So no usage and no other reservation changes. */
  lemma ReleaseLeavesNoTrace(q: Quota, key: string, now: int, id: string, digest: string, amount: nat, width: int)
    requires Fits(q) && !IsReserved(q, id)
    ensures var r := Release(Hold(q, key, now, id, digest, amount), id);
            && !IsReserved(r, id)
            && (forall k :: Usage(r, k, now, width) == Usage(q, k, now, width))
            && (forall i | i != id :: IsReserved(r, i) <==> IsReserved(q, i))
  {
    ReleaseUndoesHold(q, key, now, id, digest, amount);
    EmptyHeld(Bucket(now, 0, map[]));
    hide Release, Hold, HeldTotal, Fits;
  }
}
