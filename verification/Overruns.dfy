/**
 * Exactly which clock readings let a fixed-window quota commit more than twice its cap out of
 * the reservations of one interval of a window's length.
 */
module Overruns {
  import opened Outcomes
  import opened Sums
  import opened FixedWindows

  // ---- Where windows and reservations come from ---------------------------

  /** The operation at i reads the clock for the key, at time t. */
  predicate ReadsAt(ops: seq<QuotaOp>, i: nat, key: string, t: int) {
    i < |ops| && ops[i].TryHold? && ops[i].key == key && ops[i].now == t
  }

  /** The operations that opened the window of a log entry and reserved it. */
  datatype Mark = Mark(began: nat, reserved: nat)

  /** Which operation opened each key's current window and made each reservation, with the marks of the log. */
  datatype Trace = Trace(began: map<string, nat>, held: map<string, nat>, marks: seq<Mark>)

  function At(m: map<string, nat>, k: string): nat { if k in m then m[k] else 0 }

  function NextTrace(t: Trace, h: History, op: QuotaOp, n: nat, width: int): Trace {
    match op
    case TryHold(key, id, _, _, now, held) =>
      Trace(if key in h.quota.buckets && !Elapsed(h.quota.buckets[key], now, width) then t.began else t.began[key := n],
            if held then t.held[id := n] else t.held, t.marks)
    case DoCommit(id) =>
      if Charges(h.quota, id) && id in h.times
      then t.(marks := t.marks + [Mark(At(t.began, h.quota.operations[id].key), At(t.held, id))]) else t
    case _ => t
  }

  function Traced(ops: seq<QuotaOp>, width: int): Trace {
    if ops == [] then Trace(map[], map[], [])
    else NextTrace(Traced(ops[..|ops| - 1], width), Ran(ops[..|ops| - 1], width), ops[|ops| - 1], |ops| - 1, width)
  }

  predicate OpenedFits(ops: seq<QuotaOp>, t: Trace, h: History, key: string) {
    key in h.quota.buckets ==> key in t.began && ReadsAt(ops, t.began[key], key, h.quota.buckets[key].windowStart)
  }

  predicate HeldFits(ops: seq<QuotaOp>, t: Trace, h: History, key: string, id: string) {
    HeldIn(h.quota, key, id) ==>
      && key in t.began && id in t.held && id in h.times
      && t.began[key] <= t.held[id] && ReadsAt(ops, t.held[id], key, h.times[id])
  }

  /** A window opened before what is reserved in it; if it is over, the next one opened after that. */
  predicate EntryTraced(ops: seq<QuotaOp>, t: Trace, h: History, m: Mark, e: Entry) {
    && m.began <= m.reserved && ReadsAt(ops, m.began, e.key, e.window) && ReadsAt(ops, m.reserved, e.key, e.reservedAt)
    && e.key in h.quota.buckets && e.key in t.began
    && (e.window != h.quota.buckets[e.key].windowStart ==> m.reserved < t.began[e.key])
  }

  predicate MarksOrdered(t: Trace, log: seq<Entry>)
    requires |t.marks| == |log|
  {
    forall p, q | 0 <= p < q < |log| && log[p].key == log[q].key && log[p].window != log[q].window ::
      t.marks[p].reserved < t.marks[q].began
  }

  ghost predicate TraceFits(ops: seq<QuotaOp>, t: Trace, h: History) {
    && HoldsTraced(ops, t, h)
    && |t.marks| == |h.log| && (forall i | 0 <= i < |h.log| :: EntryTraced(ops, t, h, t.marks[i], h.log[i]))
    && MarksOrdered(t, h.log)
  }

  lemma {:induction false} TraceIsOfTheRun(ops: seq<QuotaOp>, cap: Option<nat>, width: int)
    requires AllAdmitted(ops, cap, width) && width >= 1
    ensures TraceFits(ops, Traced(ops, width), Ran(ops, width))
  {
    if ops != [] {
      var init, op := ops[..|ops| - 1], ops[|ops| - 1];
      TraceIsOfTheRun(init, cap, width);
      RanKept(init, cap, width);
      var t, h := Traced(init, width), Ran(init, width);
      assert ops == init + [op] && Fits(h.quota) && LogFits(h, width);
      hide Traced, Ran, Kept, TraceFits, Fits, LogFits, NextTrace, Advance;
      match op
      case Idle => SameTrace(init, op, t, h, width);
      case DoRelease(_) => SameTrace(init, op, t, h, width);
      case DoCommit(_) => CommitTrace(init, op, t, h, width);
      case TryHold(_, _, _, _, _, _) => HoldTrace(init, op, t, h, cap, width);
    }
  }

  lemma ReadsLater(ops: seq<QuotaOp>, op: QuotaOp)
    ensures forall i: nat, key, t :: ReadsAt(ops, i, key, t) ==> ReadsAt(ops + [op], i, key, t)
  {}

  lemma SameTrace(ops: seq<QuotaOp>, op: QuotaOp, t: Trace, h: History, width: int)
    requires TraceFits(ops, t, h) && (op.Idle? || op.DoRelease?)
    ensures TraceFits(ops + [op], NextTrace(t, h, op, |ops|, width), Advance(h, op, width))
  {
    var h', ops' := Advance(h, op, width), ops + [op];
    ReadsLater(ops, op);
    hide ReadsAt;
    forall key ensures OpenedFits(ops', t, h', key) { assert OpenedFits(ops, t, h, key); }
    forall key, id ensures HeldFits(ops', t, h', key, id) { assert HeldFits(ops, t, h, key, id); }
    forall i | 0 <= i < |h.log| ensures EntryTraced(ops', t, h', t.marks[i], h'.log[i]) { assert EntryTraced(ops, t, h, t.marks[i], h.log[i]); }
  }

  /** The parts of the trace about what is held now. */
  ghost predicate HoldsTraced(ops: seq<QuotaOp>, t: Trace, h: History) {
    (forall key :: OpenedFits(ops, t, h, key)) && forall key, id :: HeldFits(ops, t, h, key, id)
  }

  lemma CommitHolds(ops: seq<QuotaOp>, op: QuotaOp, t: Trace, h: History, width: int)
    requires HoldsTraced(ops, t, h) && op.DoCommit?
    ensures HoldsTraced(ops + [op], NextTrace(t, h, op, |ops|, width), Advance(h, op, width))
  {
    var h', ops', t' := Advance(h, op, width), ops + [op], NextTrace(t, h, op, |ops|, width);
    ReadsLater(ops, op);
    assert t'.began == t.began && t'.held == t.held && h'.times == h.times;
    hide ReadsAt, NextTrace;
    forall key ensures OpenedFits(ops', t', h', key) { assert OpenedFits(ops, t, h, key); }
    forall key, id ensures HeldFits(ops', t', h', key, id) { assert HeldFits(ops, t, h, key, id); }
  }

  /** A commit that charges puts the mark of its reservation beside its entry. */
  lemma CommitMarks(ops: seq<QuotaOp>, op: QuotaOp, t: Trace, h: History, width: int)
    requires TraceFits(ops, t, h) && op.DoCommit? && Charges(h.quota, op.id)
    ensures var key := h.quota.operations[op.id].key;
            && key in t.began && op.id in t.held && op.id in h.times
            && NextTrace(t, h, op, |ops|, width).marks == t.marks + [Mark(t.began[key], t.held[op.id])]
            && Advance(h, op, width).log == h.log + [EntryOf(h, op.id)]
            && EntryTraced(ops, t, h, Mark(t.began[key], t.held[op.id]), EntryOf(h, op.id))
  {
    var key := h.quota.operations[op.id].key;
    assert OpenedFits(ops, t, h, key) && HeldFits(ops, t, h, key, op.id);
    hide TraceFits, Commit;
  }

  lemma MarkSurvives(ops: seq<QuotaOp>, op: QuotaOp, t: Trace, h: History, width: int, m: Mark, e: Entry)
    requires EntryTraced(ops, t, h, m, e) && op.DoCommit?
    ensures EntryTraced(ops + [op], NextTrace(t, h, op, |ops|, width), Advance(h, op, width), m, e)
  {}

  lemma CommitTrace(ops: seq<QuotaOp>, op: QuotaOp, t: Trace, h: History, width: int)
    requires TraceFits(ops, t, h) && op.DoCommit?
    ensures TraceFits(ops + [op], NextTrace(t, h, op, |ops|, width), Advance(h, op, width))
  {
    var h', ops', t' := Advance(h, op, width), ops + [op], NextTrace(t, h, op, |ops|, width);
    CommitHolds(ops, op, t, h, width);
    if Charges(h.quota, op.id) { CommitMarks(ops, op, t, h, width); } else { assert h'.log == h.log && t'.marks == t.marks; }
    forall i | 0 <= i < |h.log| ensures EntryTraced(ops, t, h, t.marks[i], h.log[i]) {}
    hide NextTrace, Advance, EntryOf, OpenedFits, HeldFits;
    forall i | 0 <= i < |h'.log| ensures EntryTraced(ops', t', h', t'.marks[i], h'.log[i]) {
      assert EntryTraced(ops, t, h, t'.marks[i], h'.log[i]);
      MarkSurvives(ops, op, t, h, width, t'.marks[i], h'.log[i]);
    }
    NextOrdered(ops, t, h, t'.marks, h'.log);
  }

  /** The marks stay in order: the next one is in the current window of its key. */
  lemma NextOrdered(ops: seq<QuotaOp>, t: Trace, h: History, marks: seq<Mark>, log: seq<Entry>)
    requires TraceFits(ops, t, h) && |marks| == |log| && |h.log| <= |log| <= |h.log| + 1
    requires t.marks == marks[..|h.log|] && h.log == log[..|h.log|]
    requires |log| > |h.log| ==>
      var e := log[|h.log|];
      e.key in h.quota.buckets && e.key in t.began && e.window == h.quota.buckets[e.key].windowStart && marks[|h.log|].began == t.began[e.key]
    ensures MarksOrdered(t.(marks := marks), log)
  {
    hide OpenedFits, HeldFits, ReadsAt;
    forall p, q | 0 <= p < q < |log| && log[p].key == log[q].key && log[p].window != log[q].window
      ensures marks[p].reserved < marks[q].began
    {
      assert marks[p] == t.marks[p] && log[p] == h.log[p] && EntryTraced(ops, t, h, t.marks[p], h.log[p]);
      assert q < |h.log| ==> marks[q] == t.marks[q] && log[q] == h.log[q];
    }
  }

  lemma HoldHolds(ops: seq<QuotaOp>, op: QuotaOp, t: Trace, h: History, cap: Option<nat>, width: int)
    requires HoldsTraced(ops, t, h) && op.TryHold? && Fits(h.quota) && Admits(h.quota, op, cap, width) && width >= 1
    ensures HoldsTraced(ops + [op], NextTrace(t, h, op, |ops|, width), Advance(h, op, width))
  {
    var h', ops', t' := Advance(h, op, width), ops + [op], NextTrace(t, h, op, |ops|, width);
    var rolled := Rollover(h.quota, op.key, op.now, width);
    RolloverFits(h.quota, op.key, op.now, width);
    if op.held { NotHeld(rolled, op.id); }
    ReadsLater(ops, op);
    assert ReadsAt(ops', |ops|, op.key, op.now);
    hide Fits, ReleaseAll, Usage;
    forall key ensures OpenedFits(ops', t', h', key) { assert OpenedFits(ops, t, h, key); }
    forall key, id ensures HeldFits(ops', t', h', key, id) {
      assert HeldFits(ops, t, h, key, id) && OpenedFits(ops, t, h, key);
      assert op.held ==> !HeldIn(rolled, key, op.id);
    }
  }

  lemma HoldTrace(ops: seq<QuotaOp>, op: QuotaOp, t: Trace, h: History, cap: Option<nat>, width: int)
    requires TraceFits(ops, t, h) && op.TryHold? && Fits(h.quota) && LogFits(h, width) && Admits(h.quota, op, cap, width) && width >= 1
    ensures TraceFits(ops + [op], NextTrace(t, h, op, |ops|, width), Advance(h, op, width))
  {
    var h', ops', t' := Advance(h, op, width), ops + [op], NextTrace(t, h, op, |ops|, width);
    HoldHolds(ops, op, t, h, cap, width);
    ReadsLater(ops, op);
    hide Fits, WindowSum, ReleaseAll, Admits, OpenedFits, HeldFits, Ordered, BucketFits;
    forall i | 0 <= i < |h.log| ensures EntryTraced(ops', t', h', t'.marks[i], h'.log[i]) {
      assert EntryTraced(ops, t, h, t.marks[i], h.log[i]) && EntryFits(h, h.log[i], width);
    }
  }

  // ---- Three windows in one interval --------------------------------------

  predicate Near(a: int, b: int, width: int) { a - b < width && b - a < width }

  /**
   * The readings at i, k and m start three windows at least a width apart, those at j, l and n
   * come in them and before their ends, and these three lie in one interval of that width.
   */
  predicate Spread(times: seq<int>, width: int, i: nat, j: nat, k: nat, l: nat, m: nat, n: nat) {
    && i <= j < k <= l < m <= n < |times|
    && times[j] < times[i] + width <= times[k] && times[l] < times[k] + width <= times[m] && times[n] < times[m] + width
    && Near(times[j], times[l], width) && Near(times[l], times[n], width) && Near(times[j], times[n], width)
  }

  ghost predicate ThreeWindows(times: seq<int>, width: int) {
    exists i: nat, j: nat, k: nat, l: nat, m: nat, n: nat :: Spread(times, width, i, j, k, l, m, n)
  }

  /** The operations on the key read the clock at the times, in their order, each time at most once. */
  predicate Reading(ops: seq<QuotaOp>, at: seq<nat>, times: seq<int>, key: string) {
    && |at| == |ops|
    && (forall p | 0 <= p < |ops| && ops[p].TryHold? && ops[p].key == key :: at[p] < |times| && ops[p].now == times[at[p]])
    && forall p, q | 0 <= p < q < |ops| && ops[p].TryHold? && ops[p].key == key && ops[q].TryHold? && ops[q].key == key :: at[p] < at[q]
  }

  ghost predicate OverrunsBy(ops: seq<QuotaOp>, at: seq<nat>, times: seq<int>, key: string, cap: nat, width: int, from: int) {
    Reading(ops, at, times, key) && AllAdmitted(ops, Some(cap), width) && IntervalSum(Ran(ops, width).log, key, from, width) > 2 * cap
  }

  /** Some admitted run over the readings commits more than twice the cap out of an interval. */
  ghost predicate CanOverrun(times: seq<int>, key: string, cap: nat, width: int) {
    exists ops, at, from :: OverrunsBy(ops, at, times, key, cap, width, from)
  }

  /** Entries of three different windows, in log order, when more than twice the cap is committed. */
  lemma ThreeEntries(log: seq<Entry>, key: string, cap: nat, width: int, from: int) returns (p: nat, q: nat, r: nat)
    requires forall w :: WindowSum(log, key, w) <= cap
    requires Ordered(log, width) && width >= 1 && IntervalSum(log, key, from, width) > 2 * cap
    ensures p < q < r < |log| && InInterval(log[p], key, from, width) && InInterval(log[q], key, from, width) && InInterval(log[r], key, from, width)
    ensures log[p].window + width <= log[q].window && log[q].window + width <= log[r].window
  {
    p, r := Ends(log, key, from, width);
    var a, b := if p < |log| then log[p].window else 0, if r < |log| then log[r].window else 0;
    assert WindowSum(log, key, a) + WindowSum(log, key, b) <= 2 * cap;
    if forall i | 0 <= i < |log| && InInterval(log[i], key, from, width) :: log[i].window == a || log[i].window == b {
      TwoWindows(log, key, from, width, a, b);
    }
    q :| 0 <= q < |log| && InInterval(log[q], key, from, width) && log[q].window != a && log[q].window != b;
    hide WindowSum, IntervalSum;
    assert p <= q <= r;
  }

  lemma SpreadOverReadings(ops: seq<QuotaOp>, at: seq<nat>, times: seq<int>, key: string, width: int,
                           p: Mark, q: Mark, r: Mark, d: Entry, e: Entry, f: Entry)
    requires Reading(ops, at, times, key) && d.key == e.key == f.key == key
    requires p.began <= p.reserved < q.began <= q.reserved < r.began <= r.reserved
    requires ReadsAt(ops, p.began, key, d.window) && ReadsAt(ops, p.reserved, key, d.reservedAt)
    requires ReadsAt(ops, q.began, key, e.window) && ReadsAt(ops, q.reserved, key, e.reservedAt)
    requires ReadsAt(ops, r.began, key, f.window) && ReadsAt(ops, r.reserved, key, f.reservedAt)
    requires d.reservedAt < d.window + width <= e.window && e.reservedAt < e.window + width <= f.window && f.reservedAt < f.window + width
    requires Near(d.reservedAt, e.reservedAt, width) && Near(e.reservedAt, f.reservedAt, width) && Near(d.reservedAt, f.reservedAt, width)
    ensures ThreeWindows(times, width)
  {
    assert Spread(times, width, at[p.began], at[p.reserved], at[q.began], at[q.reserved], at[r.began], at[r.reserved]);
  }

  lemma OverrunNeedsThree(ops: seq<QuotaOp>, at: seq<nat>, times: seq<int>, key: string, cap: nat, width: int, from: int)
    requires OverrunsBy(ops, at, times, key, cap, width, from) && width >= 1
    ensures ThreeWindows(times, width)
  {
    RanKept(ops, Some(cap), width);
    TraceIsOfTheRun(ops, Some(cap), width);
    var h, t := Ran(ops, width), Traced(ops, width);
    hide Ran, Traced, Reading, CapFits, WindowSum, IntervalSum, ReadsAt, ThreeWindows, AllAdmitted;
    forall w ensures WindowSum(h.log, key, w) <= cap { assert WindowFits(h, Some(cap), key, w); }
    var p, q, r := ThreeEntries(h.log, key, cap, width, from);
    assert EntryTraced(ops, t, h, t.marks[p], h.log[p]) && EntryFits(h, h.log[p], width);
    assert EntryTraced(ops, t, h, t.marks[q], h.log[q]) && EntryFits(h, h.log[q], width);
    assert EntryTraced(ops, t, h, t.marks[r], h.log[r]) && EntryFits(h, h.log[r], width);
    SpreadOverReadings(ops, at, times, key, width, t.marks[p], t.marks[q], t.marks[r], h.log[p], h.log[q], h.log[r]);
  }

  // ---- A run that overruns ------------------------------------------------

  lemma {:induction false} RanConcat(h: History, a: seq<QuotaOp>, b: seq<QuotaOp>, cap: Option<nat>, width: int)
    ensures RanFrom(h, a + b, width) == RanFrom(RanFrom(h, a, width), b, width)
    ensures AdmittedFrom(h, a + b, cap, width) <==> AdmittedFrom(h, a, cap, width) && AdmittedFrom(RanFrom(h, a, width), b, cap, width)
    decreases |b|
  {
    hide Advance, Admits;
    if b == [] {
      assert a + b == a;
    } else {
      assert (a + b)[..|a + b| - 1] == a + b[..|b| - 1];
      RanConcat(h, a, b[..|b| - 1], cap, width);
    }
  }

  /** The window a spend at now is charged to, and what is committed in it before. */
  function ChargedTo(q: Quota, key: string, now: int, width: int): Bucket {
    if key !in q.buckets || Elapsed(q.buckets[key], now, width) then Bucket(now, 0, map[]) else q.buckets[key]
  }

  /** Hold an amount under a new id and commit it. */
  function Spend(key: string, id: string, digest: string, amount: nat, now: int): seq<QuotaOp> {
    [TryHold(key, id, digest, amount, now, true), DoCommit(id)]
  }

  lemma HoldNow(q: Quota, key: string, id: string, digest: string, amount: nat, now: int, cap: nat, width: int)
    requires id !in q.operations && width >= 1 && (key in q.buckets ==> q.buckets[key].held == map[])
    requires ChargedTo(q, key, now, width).committed + amount <= cap
    ensures Admits(q, TryHold(key, id, digest, amount, now, true), Some(cap), width)
    ensures Hold(Rollover(q, key, now, width), key, now, id, digest, amount)
         == Quota(q.buckets[key := ChargedTo(q, key, now, width).(held := map[id := amount])],
                  q.operations[id := Operation(key, amount, digest, Reserved)])
  {
    EmptyHeld(ChargedTo(q, key, now, width));
    assert ReleaseAll(q.operations, {}) == q.operations;
    hide HeldTotal, ReleaseAll;
  }

  lemma SpendNow(h: History, key: string, id: string, digest: string, amount: nat, now: int, width: int)
    requires id !in h.quota.operations && width >= 1 && (key in h.quota.buckets ==> h.quota.buckets[key].held == map[])
    requires Hold(Rollover(h.quota, key, now, width), key, now, id, digest, amount)
         == Quota(h.quota.buckets[key := ChargedTo(h.quota, key, now, width).(held := map[id := amount])],
                  h.quota.operations[id := Operation(key, amount, digest, Reserved)])
    ensures var b := ChargedTo(h.quota, key, now, width);
            var h' := Advance(Advance(h, TryHold(key, id, digest, amount, now, true), width), DoCommit(id), width);
            && h'.log == h.log + [Entry(key, amount, now, b.windowStart)]
            && h'.quota.operations.Keys == h.quota.operations.Keys + {id}
            && h'.quota.buckets == h.quota.buckets[key := Bucket(b.windowStart, b.committed + amount, map[])]
  {
    hide Hold, Rollover, ChargedTo;
    assert map[id := amount] - {id} == map[];
  }

  lemma TwoSteps(h: History, a: QuotaOp, b: QuotaOp, cap: Option<nat>, width: int)
    ensures RanFrom(h, [a, b], width) == Advance(Advance(h, a, width), b, width)
    ensures AdmittedFrom(h, [a, b], cap, width) <==> Admits(h.quota, a, cap, width) && Admits(Advance(h, a, width).quota, b, cap, width)
  {
    hide Advance, Admits;
    var one, two := [a], [a, b];
    assert one[..|one| - 1] == [] && two[..|two| - 1] == one;
    assert RanFrom(h, [], width) == h;
    assert RanFrom(h, one, width) == Advance(h, a, width);
    assert AdmittedFrom(h, one, cap, width) <==> Admits(h.quota, a, cap, width);
  }

  lemma SpendAdds(h: History, key: string, id: string, digest: string, amount: nat, now: int, cap: nat, width: int)
    requires id !in h.quota.operations && width >= 1 && (key in h.quota.buckets ==> h.quota.buckets[key].held == map[])
    requires ChargedTo(h.quota, key, now, width).committed + amount <= cap
    ensures AdmittedFrom(h, Spend(key, id, digest, amount, now), Some(cap), width)
    ensures var b, h' := ChargedTo(h.quota, key, now, width), RanFrom(h, Spend(key, id, digest, amount, now), width);
            && h'.log == h.log + [Entry(key, amount, now, b.windowStart)]
            && h'.quota.operations.Keys == h.quota.operations.Keys + {id}
            && h'.quota.buckets == h.quota.buckets[key := Bucket(b.windowStart, b.committed + amount, map[])]
  {
    HoldNow(h.quota, key, id, digest, amount, now, cap, width);
    SpendNow(h, key, id, digest, amount, now, width);
    TwoSteps(h, TryHold(key, id, digest, amount, now, true), DoCommit(id), Some(cap), width);
    hide Hold, Rollover, ChargedTo, Advance, RanFrom, AdmittedFrom;
  }

  lemma IntervalSnoc(log: seq<Entry>, e: Entry, key: string, from: int, width: int)
    ensures IntervalSum(log + [e], key, from, width) == IntervalSum(log, key, from, width) + if InInterval(e, key, from, width) then e.amount else 0
  {
    assert (log + [e])[..|log|] == log;
  }

  /** Open a window at `start`, if that is not the reading it is spent at. */
  function Opening(key: string, id: string, start: int, apart: bool): seq<QuotaOp> {
    if apart then Spend(key, id, "", 0, start) else [Idle, Idle]
  }

  /** Spend the cap at `now` in a window opened at `start`. */
  function Visit(key: string, first: string, second: string, start: int, now: int, apart: bool, cap: nat): seq<QuotaOp> {
    Opening(key, first, start, apart) + Spend(key, second, "", cap, now)
  }

  /** The key's window before `start` is over, and nothing is held in it. */
  predicate Free(h: History, key: string, start: int, width: int) {
    key in h.quota.buckets ==> h.quota.buckets[key].held == map[] && Elapsed(h.quota.buckets[key], start, width)
  }

  predicate Spent(h: History, key: string, start: int, cap: nat) {
    key in h.quota.buckets && h.quota.buckets[key] == Bucket(start, cap, map[])
  }

  lemma SpentIsFree(h: History, key: string, start: int, cap: nat, next: int, width: int)
    requires Spent(h, key, start, cap) && start + width <= next
    ensures Free(h, key, next, width)
  {}

  /** After the opening, what comes before the end of the window is charged to it. */
  lemma OpeningOpens(h: History, key: string, id: string, start: int, now: int, apart: bool, cap: nat, from: int, width: int)
    requires Free(h, key, start, width) && width >= 1 && now < start + width && (!apart ==> now == start) && id !in h.quota.operations
    ensures AdmittedFrom(h, Opening(key, id, start, apart), Some(cap), width)
    ensures var h' := RanFrom(h, Opening(key, id, start, apart), width);
            && ChargedTo(h'.quota, key, now, width) == Bucket(start, 0, map[])
            && (key in h'.quota.buckets ==> h'.quota.buckets[key].held == map[])
            && h'.quota.operations.Keys <= h.quota.operations.Keys + {id}
            && IntervalSum(h'.log, key, from, width) == IntervalSum(h.log, key, from, width)
  {
    assert ChargedTo(h.quota, key, start, width) == Bucket(start, 0, map[]);
    if apart {
      SpendAdds(h, key, id, "", 0, start, cap, width);
      IntervalSnoc(h.log, Entry(key, 0, start, start), key, from, width);
    } else {
      TwoSteps(h, Idle, Idle, Some(cap), width);
    }
    hide RanFrom, AdmittedFrom, Spend, IntervalSum, SetStatus, TakeOut;
  }

  lemma SpendInOpen(h: History, key: string, id: string, start: int, now: int, cap: nat, from: int, width: int)
    requires ChargedTo(h.quota, key, now, width) == Bucket(start, 0, map[]) && width >= 1 && id !in h.quota.operations
    requires key in h.quota.buckets ==> h.quota.buckets[key].held == map[]
    ensures AdmittedFrom(h, Spend(key, id, "", cap, now), Some(cap), width)
    ensures var h' := RanFrom(h, Spend(key, id, "", cap, now), width);
            && Spent(h', key, start, cap) && h'.quota.operations.Keys <= h.quota.operations.Keys + {id}
            && (from <= now < from + width ==> IntervalSum(h'.log, key, from, width) == IntervalSum(h.log, key, from, width) + cap)
  {
    SpendAdds(h, key, id, "", cap, now, cap, width);
    IntervalSnoc(h.log, Entry(key, cap, now, start), key, from, width);
    hide RanFrom, AdmittedFrom, Spend, ChargedTo, IntervalSum;
  }

  lemma VisitSpends(h: History, key: string, first: string, second: string, start: int, now: int, apart: bool, cap: nat, from: int, width: int)
    requires Free(h, key, start, width) && width >= 1 && now < start + width && (!apart ==> now == start)
    requires first != second && first !in h.quota.operations && second !in h.quota.operations
    ensures AdmittedFrom(h, Visit(key, first, second, start, now, apart, cap), Some(cap), width)
    ensures var h' := RanFrom(h, Visit(key, first, second, start, now, apart, cap), width);
            && Spent(h', key, start, cap) && h'.quota.operations.Keys <= h.quota.operations.Keys + {first, second}
            && (from <= now < from + width ==> IntervalSum(h'.log, key, from, width) == IntervalSum(h.log, key, from, width) + cap)
  {
    hide RanFrom, AdmittedFrom, Opening, Spend, ChargedTo, IntervalSum, Free, Spent;
    var opening, spend := Opening(key, first, start, apart), Spend(key, second, "", cap, now);
    var h1 := RanFrom(h, opening, width);
    OpeningOpens(h, key, first, start, now, apart, cap, from, width);
    SpendInOpen(h1, key, second, start, now, cap, from, width);
    RanConcat(h, opening, spend, Some(cap), width);
  }

  predicate Distinct(ids: seq<string>) { forall p, q | 0 <= p < q < |ids| :: ids[p] != ids[q] }

  /** Three visits, to the windows that start at i, k and m. */
  function Visits(times: seq<int>, key: string, ids: seq<string>, cap: nat, i: nat, j: nat, k: nat, l: nat, m: nat, n: nat): seq<QuotaOp>
    requires i <= j < k <= l < m <= n < |times| && |ids| == 6
  {
    Visit(key, ids[0], ids[1], times[i], times[j], i < j, cap) + Visit(key, ids[2], ids[3], times[k], times[l], k < l, cap)
      + Visit(key, ids[4], ids[5], times[m], times[n], m < n, cap)
  }

  /** A run so far: admitted, ready for a window from `next` on, and what it committed out of the interval. */
  ghost predicate Progress(ops: seq<QuotaOp>, key: string, next: int, ids: set<string>, sum: nat, cap: nat, from: int, width: int) {
    var h := RanFrom(START, ops, width);
    && AdmittedFrom(START, ops, Some(cap), width) && Free(h, key, next, width) && h.quota.operations.Keys <= ids
    && IntervalSum(h.log, key, from, width) == sum
  }

  lemma VisitMore(ops: seq<QuotaOp>, key: string, start: int, now: int, next: int, apart: bool, first: string, second: string,
                  ids: set<string>, sum: nat, cap: nat, from: int, width: int)
    requires Progress(ops, key, start, ids, sum, cap, from, width) && width >= 1
    requires now < start + width <= next && (!apart ==> now == start) && from <= now < from + width
    requires first != second && first !in ids && second !in ids
    ensures Progress(ops + Visit(key, first, second, start, now, apart, cap), key, next, ids + {first, second}, sum + cap, cap, from, width)
  {
    var h, visit := RanFrom(START, ops, width), Visit(key, first, second, start, now, apart, cap);
    hide RanFrom, AdmittedFrom, Visit, IntervalSum, Free, Spent;
    VisitSpends(h, key, first, second, start, now, apart, cap, from, width);
    SpentIsFree(RanFrom(h, visit, width), key, start, cap, next, width);
    RanConcat(START, ops, visit, Some(cap), width);
  }

  lemma NoProgress(key: string, next: int, cap: nat, from: int, width: int)
    ensures Progress([], key, next, {}, 0, cap, from, width)
  {
    assert RanFrom(START, [], width) == START;
  }

  lemma VisitsSpend(times: seq<int>, key: string, ids: seq<string>, cap: nat, width: int,
                    i: nat, j: nat, k: nat, l: nat, m: nat, n: nat, from: int)
    requires Spread(times, width, i, j, k, l, m, n) && width >= 1 && |ids| == 6 && Distinct(ids)
    requires from <= times[j] < from + width && from <= times[l] < from + width && from <= times[n] < from + width
    ensures AllAdmitted(Visits(times, key, ids, cap, i, j, k, l, m, n), Some(cap), width)
    ensures IntervalSum(Ran(Visits(times, key, ids, cap, i, j, k, l, m, n), width).log, key, from, width) == 3 * cap
  {
    hide Visit, Near, IntervalSum, RanFrom, AdmittedFrom, Free;
    var a := Visit(key, ids[0], ids[1], times[i], times[j], i < j, cap);
    var b := Visit(key, ids[2], ids[3], times[k], times[l], k < l, cap);
    var c := Visit(key, ids[4], ids[5], times[m], times[n], m < n, cap);
    var used1, used2 := {} + {ids[0], ids[1]}, {} + {ids[0], ids[1]} + {ids[2], ids[3]};
    assert [] + a == a;
    assert Progress(a + b + c, key, times[m] + width, used2 + {ids[4], ids[5]}, 0 + cap + cap + cap, cap, from, width) by {
      hide Progress;
      NoProgress(key, times[i], cap, from, width);
      VisitMore([], key, times[i], times[j], times[k], i < j, ids[0], ids[1], {}, 0, cap, from, width);
      VisitMore(a, key, times[k], times[l], times[m], k < l, ids[2], ids[3], used1, 0 + cap, cap, from, width);
      VisitMore(a + b, key, times[m], times[n], times[m] + width, m < n, ids[4], ids[5], used2, 0 + cap + cap, cap, from, width);
    }
  }

  lemma VisitReads(times: seq<int>, key: string, first: string, second: string, cap: nat, i: nat, j: nat)
    requires i <= j < |times|
    ensures Reading(Visit(key, first, second, times[i], times[j], i < j, cap), [i, i, j, j], times, key)
    ensures |Visit(key, first, second, times[i], times[j], i < j, cap)| == 4
  {
    var ops := Visit(key, first, second, times[i], times[j], i < j, cap);
    assert ops[2] == TryHold(key, second, "", cap, times[j], true) && !ops[1].TryHold? && !ops[3].TryHold?;
    assert ops[0].TryHold? ==> i < j && ops[0].now == times[i];
    hide Visit;
  }

  lemma ReadingConcat(a: seq<QuotaOp>, at: seq<nat>, b: seq<QuotaOp>, bt: seq<nat>, times: seq<int>, key: string, limit: nat)
    requires Reading(a, at, times, key) && Reading(b, bt, times, key)
    requires (forall p | 0 <= p < |at| :: at[p] < limit) && forall p | 0 <= p < |bt| :: limit <= bt[p]
    ensures Reading(a + b, at + bt, times, key)
  {}

  lemma VisitsRead(times: seq<int>, key: string, ids: seq<string>, cap: nat, i: nat, j: nat, k: nat, l: nat, m: nat, n: nat)
    requires i <= j < k <= l < m <= n < |times| && |ids| == 6
    ensures Reading(Visits(times, key, ids, cap, i, j, k, l, m, n), [i, i, j, j] + [k, k, l, l] + [m, m, n, n], times, key)
  {
    hide Visit, Reading;
    var a := Visit(key, ids[0], ids[1], times[i], times[j], i < j, cap);
    var b := Visit(key, ids[2], ids[3], times[k], times[l], k < l, cap);
    var c := Visit(key, ids[4], ids[5], times[m], times[n], m < n, cap);
    VisitReads(times, key, ids[0], ids[1], cap, i, j);
    VisitReads(times, key, ids[2], ids[3], cap, k, l);
    VisitReads(times, key, ids[4], ids[5], cap, m, n);
    ReadingConcat(a, [i, i, j, j], b, [k, k, l, l], times, key, k);
    ReadingConcat(a + b, [i, i, j, j] + [k, k, l, l], c, [m, m, n, n], times, key, m);
  }

  lemma IntervalOf(a: int, b: int, c: int, width: int) returns (from: int)
    requires Near(a, b, width) && Near(b, c, width) && Near(a, c, width) && width >= 1
    ensures from <= a < from + width && from <= b < from + width && from <= c < from + width
  {
    from := if a <= b && a <= c then a else if b <= c then b else c;
  }

  lemma SixIds() returns (ids: seq<string>)
    ensures |ids| == 6 && Distinct(ids)
  {
    ids := ["i", "j", "k", "l", "m", "n"];
  }

  lemma SpreadCanOverrun(times: seq<int>, key: string, cap: nat, width: int, i: nat, j: nat, k: nat, l: nat, m: nat, n: nat)
    requires Spread(times, width, i, j, k, l, m, n) && width >= 1 && cap >= 1
    ensures CanOverrun(times, key, cap, width)
  {
    hide Visits, Reading, AllAdmitted, IntervalSum, Ran, Distinct, Near;
    var ids := SixIds();
    var from := IntervalOf(times[j], times[l], times[n], width);
    VisitsSpend(times, key, ids, cap, width, i, j, k, l, m, n, from);
    VisitsRead(times, key, ids, cap, i, j, k, l, m, n);
    var ops, at := Visits(times, key, ids, cap, i, j, k, l, m, n), [i, i, j, j] + [k, k, l, l] + [m, m, n, n];
    assert OverrunsBy(ops, at, times, key, cap, width, from);
  }

  lemma ThreeCanOverrun(times: seq<int>, key: string, cap: nat, width: int)
    requires ThreeWindows(times, width) && width >= 1 && cap >= 1
    ensures CanOverrun(times, key, cap, width)
  {
    hide Spread, CanOverrun;
    var i: nat, j: nat, k: nat, l: nat, m: nat, n: nat :| Spread(times, width, i, j, k, l, m, n);
    SpreadCanOverrun(times, key, cap, width, i, j, k, l, m, n);
  }

  // ---- The exact law ------------------------------------------------------

  lemma {:induction false} NothingCommitted(log: seq<Entry>, key: string, from: int, width: int)
    requires forall w :: WindowSum(log, key, w) <= 0
    ensures IntervalSum(log, key, from, width) == 0
  {
    if log != [] {
      var init, e := log[..|log| - 1], log[|log| - 1];
      assert WindowSum(log, key, e.window) <= 0;
      forall w ensures WindowSum(init, key, w) <= 0 { assert WindowSum(log, key, w) <= 0; }
      NothingCommitted(init, key, from, width);
    }
  }

  lemma NoCapNoOverrun(ops: seq<QuotaOp>, at: seq<nat>, times: seq<int>, key: string, width: int, from: int)
    requires width >= 1
    ensures !OverrunsBy(ops, at, times, key, 0, width, from)
  {
    if AllAdmitted(ops, Some(0), width) {
      RanKept(ops, Some(0), width);
      var h := Ran(ops, width);
      hide Ran, WindowSum, IntervalSum, Reading, AllAdmitted;
      forall w ensures WindowSum(h.log, key, w) <= 0 { assert WindowFits(h, Some(0), key, w); }
      NothingCommitted(h.log, key, from, width);
    }
  }

  /**
   * For every list of readings of a key and every cap but zero: some admitted run over them
   * commits more than twice the cap out of an interval of one window length if and only if
   * three windows can be opened at the readings with a reservation of each in one interval.
   */
  lemma OverrunsExactly(times: seq<int>, key: string, cap: nat, width: int)
    requires width >= 1
    ensures CanOverrun(times, key, cap, width) <==> cap >= 1 && ThreeWindows(times, width)
  {
    hide OverrunsBy, ThreeWindows;
    if ops, at, from :| OverrunsBy(ops, at, times, key, cap, width, from) {
      if cap == 0 { NoCapNoOverrun(ops, at, times, key, width, from); }
      OverrunNeedsThree(ops, at, times, key, cap, width, from);
    }
    if cap >= 1 && ThreeWindows(times, width) { ThreeCanOverrun(times, key, cap, width); }
  }

  lemma NotSpread(times: seq<int>, width: int, i: nat, j: nat, k: nat, l: nat, m: nat, n: nat)
    requires width >= 1 && forall p, q | 0 <= p < q < |times| :: times[p] <= times[q]
    ensures !Spread(times, width, i, j, k, l, m, n)
  {
    assert i <= j < k <= l < m <= n < |times| ==> times[j] <= times[k] <= times[l] && times[m] <= times[n];
  }

  /** Readings that do not go back open no three such windows. */
  lemma ForwardHasNoThree(times: seq<int>, width: int)
    requires width >= 1 && forall p, q | 0 <= p < q < |times| :: times[p] <= times[q]
    ensures !ThreeWindows(times, width)
  {
    hide Spread;
    forall i: nat, j: nat, k: nat, l: nat, m: nat, n: nat ensures !Spread(times, width, i, j, k, l, m, n) {
      NotSpread(times, width, i, j, k, l, m, n);
    }
  }

  /** A clock that steps back twice: every cap is overrun, in three windows. */
  lemma SteppingBackOverruns(key: string, cap: nat, width: int)
    requires width >= 1 && cap >= 1
    ensures CanOverrun([0, width, 0, 2 * width, 0], key, cap, width)
  {
    assert Spread([0, width, 0, 2 * width, 0], width, 0, 0, 1, 2, 3, 4);
    ThreeCanOverrun([0, width, 0, 2 * width, 0], key, cap, width);
  }

  // ---- A clock that does not run backwards --------------------------------

  /** The readings for each key do not decrease. */
  predicate Forward(ops: seq<QuotaOp>) {
    forall p, q | 0 <= p < q < |ops| && ops[p].TryHold? && ops[q].TryHold? && ops[p].key == ops[q].key :: ops[p].now <= ops[q].now
  }

  /** Such a run is in time, so at most twice the cap is committed out of any interval. */
  lemma {:induction false} ForwardIsInTime(ops: seq<QuotaOp>, cap: Option<nat>, width: int)
    requires AllAdmitted(ops, cap, width) && width >= 1 && Forward(ops)
    ensures AllInTime(ops, width)
  {
    if ops != [] {
      var init, op := ops[..|ops| - 1], ops[|ops| - 1];
      ForwardIsInTime(init, cap, width);
      TraceIsOfTheRun(init, cap, width);
      if op.TryHold? { assert OpenedFits(init, Traced(init, width), Ran(init, width), op.key); }
      hide Ran, Traced, Admits;
    }
  }
}
