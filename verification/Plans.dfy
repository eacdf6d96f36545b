/**
 * Exactly which clock readings let a fixed-window quota whose reservations are of limited
 * amounts commit more than twice its cap out of the reservations of one interval.
 */
module Plans {
  import opened Outcomes
  import opened Digits
  import opened Sums
  import opened FixedWindows
  import opened Overruns

  // ---- What the trace of a run keeps apart --------------------------------

  ghost predicate HoldApart(ops: seq<QuotaOp>, t: Trace, h: History, key: string, id: string) {
    HeldIn(h.quota, key, id) ==>
      && id in t.held && t.held[id] < |ops| && ops[t.held[id]].TryHold? && ops[t.held[id]].amount == h.quota.buckets[key].held[id]
      && (forall other | HeldIn(h.quota, key, other) && other != id :: other in t.held && t.held[other] != t.held[id])
      && forall i | 0 <= i < |h.log| && i < |t.marks| && h.log[i].key == key :: t.marks[i].reserved != t.held[id]
  }

  /** An entry is of the amount that was reserved, and one of the current window began with it. */
  predicate EntryApart(ops: seq<QuotaOp>, t: Trace, h: History, m: Mark, e: Entry) {
    && m.reserved < |ops| && ops[m.reserved].TryHold? && ops[m.reserved].amount == e.amount
    && (e.key in h.quota.buckets && e.window == h.quota.buckets[e.key].windowStart ==> e.key in t.began && m.began == t.began[e.key])
  }

  /** Entries of a key were reserved by different operations, and those of one window have one opening. */
  predicate PairApart(m: Mark, e: Entry, n: Mark, f: Entry) {
    e.key == f.key ==> m.reserved != n.reserved && (e.window == f.window ==> m.began == n.began)
  }

  ghost predicate Apart(ops: seq<QuotaOp>, t: Trace, h: History) {
    && |t.marks| == |h.log|
    && (forall key, id :: HoldApart(ops, t, h, key, id))
    && (forall i | 0 <= i < |h.log| :: EntryApart(ops, t, h, t.marks[i], h.log[i]))
    && forall i, j | 0 <= i < j < |h.log| :: PairApart(t.marks[i], h.log[i], t.marks[j], h.log[j])
  }

  lemma ReleaseApart(ops: seq<QuotaOp>, op: QuotaOp, t: Trace, h: History, width: int)
    requires Apart(ops, t, h) && (op.Idle? || op.DoRelease?)
    ensures Apart(ops + [op], NextTrace(t, h, op, |ops|, width), Advance(h, op, width))
  {
    var h', ops' := Advance(h, op, width), ops + [op];
    forall key, id ensures HoldApart(ops', t, h', key, id) {
      assert HoldApart(ops, t, h, key, id);
    }
    forall i | 0 <= i < |h.log| ensures EntryApart(ops', t, h', t.marks[i], h'.log[i]) {
      assert EntryApart(ops, t, h, t.marks[i], h.log[i]);
    }
  }

  lemma CommitApart(ops: seq<QuotaOp>, op: QuotaOp, t: Trace, h: History, width: int)
    requires Apart(ops, t, h) && TraceFits(ops, t, h) && Fits(h.quota) && op.DoCommit?
    ensures Apart(ops + [op], NextTrace(t, h, op, |ops|, width), Advance(h, op, width))
  {
    var h', ops', t' := Advance(h, op, width), ops + [op], NextTrace(t, h, op, |ops|, width);
    if Charges(h.quota, op.id) {
      CommitMarks(ops, op, t, h, width);
      ClosingFindsHold(h.quota, op.id);
      var key := h.quota.operations[op.id].key;
      assert HoldApart(ops, t, h, key, op.id);
    }
    hide Fits, TraceFits, Commit;
    forall i | 0 <= i < |h.log| ensures EntryApart(ops, t, h, t.marks[i], h.log[i]) {}
    CommitHoldsApart(ops, op, t, h, width);
    forall i | 0 <= i < |h'.log| ensures EntryApart(ops', t', h', t'.marks[i], h'.log[i]) {
      CommitStarts(h, op, width, h'.log[i].key);
      if i < |h.log| { assert EntryApart(ops, t, h, t.marks[i], h.log[i]); }
    }
    forall i, j | 0 <= i < j < |h'.log| ensures PairApart(t'.marks[i], h'.log[i], t'.marks[j], h'.log[j]) {
      assert EntryApart(ops, t, h, t.marks[i], h.log[i]);
      if j < |h.log| { assert PairApart(t.marks[i], h.log[i], t.marks[j], h.log[j]); }
    }
  }

  lemma CommitStarts(h: History, op: QuotaOp, width: int, key: string)
    requires op.DoCommit?
    ensures key in Advance(h, op, width).quota.buckets <==> key in h.quota.buckets
    ensures key in h.quota.buckets ==> Advance(h, op, width).quota.buckets[key].windowStart == h.quota.buckets[key].windowStart
  {}

  lemma CommitHoldsApart(ops: seq<QuotaOp>, op: QuotaOp, t: Trace, h: History, width: int)
    requires Apart(ops, t, h) && TraceFits(ops, t, h) && Fits(h.quota) && op.DoCommit?
    ensures var h', t' := Advance(h, op, width), NextTrace(t, h, op, |ops|, width);
            forall key, id :: HoldApart(ops + [op], t', h', key, id)
  {
    var h', ops', t' := Advance(h, op, width), ops + [op], NextTrace(t, h, op, |ops|, width);
    if Charges(h.quota, op.id) {
      CommitMarks(ops, op, t, h, width);
      ClosingFindsHold(h.quota, op.id);
    }
    hide Fits, TraceFits;
    forall key, id ensures HoldApart(ops', t', h', key, id) {
      assert HoldApart(ops, t, h, key, id);
      assert HoldApart(ops, t, h, key, op.id);
    }
  }

  lemma HoldKeepsApart(ops: seq<QuotaOp>, op: QuotaOp, t: Trace, h: History, cap: Option<nat>, width: int)
    requires Apart(ops, t, h) && TraceFits(ops, t, h) && op.TryHold?
    requires Fits(h.quota) && LogFits(h, width) && Admits(h.quota, op, cap, width) && width >= 1
    ensures Apart(ops + [op], NextTrace(t, h, op, |ops|, width), Advance(h, op, width))
  {
    var h', ops', t' := Advance(h, op, width), ops + [op], NextTrace(t, h, op, |ops|, width);
    HoldsHoldApart(ops, op, t, h, cap, width);
    hide Fits, WindowSum, ReleaseAll, Admits, OpenedFits, HeldFits, Ordered, BucketFits, HoldApart;
    forall i | 0 <= i < |h.log| ensures EntryApart(ops', t', h', t'.marks[i], h'.log[i]) {
      assert EntryApart(ops, t, h, t.marks[i], h.log[i]) && EntryFits(h, h.log[i], width) && EntryTraced(ops, t, h, t.marks[i], h.log[i]);
    }
  }

  lemma HoldsHoldApart(ops: seq<QuotaOp>, op: QuotaOp, t: Trace, h: History, cap: Option<nat>, width: int)
    requires Apart(ops, t, h) && TraceFits(ops, t, h) && op.TryHold? && Fits(h.quota) && Admits(h.quota, op, cap, width) && width >= 1
    ensures var h', t' := Advance(h, op, width), NextTrace(t, h, op, |ops|, width);
            forall key, id :: HoldApart(ops + [op], t', h', key, id)
  {
    var h', ops', t' := Advance(h, op, width), ops + [op], NextTrace(t, h, op, |ops|, width);
    var rolled := Rollover(h.quota, op.key, op.now, width);
    RolloverFits(h.quota, op.key, op.now, width);
    if op.held { NotHeld(rolled, op.id); }
    forall i | 0 <= i < |h.log| ensures t.marks[i].reserved < |ops| { assert EntryApart(ops, t, h, t.marks[i], h.log[i]); }
    hide Fits, ReleaseAll, Usage, TraceFits;
    forall key, id ensures HoldApart(ops', t', h', key, id) {
      assert HoldApart(ops, t, h, key, id);
      assert op.held ==> !HeldIn(rolled, key, op.id);
      forall other | HeldIn(h.quota, key, other) ensures other in t.held && t.held[other] < |ops| { assert HoldApart(ops, t, h, key, other); }
    }
  }

  lemma {:induction false} TraceIsApart(ops: seq<QuotaOp>, cap: Option<nat>, width: int)
    requires AllAdmitted(ops, cap, width) && width >= 1
    ensures Apart(ops, Traced(ops, width), Ran(ops, width))
  {
    if ops != [] {
      var init, op := ops[..|ops| - 1], ops[|ops| - 1];
      TraceIsApart(init, cap, width);
      TraceIsOfTheRun(init, cap, width);
      RanKept(init, cap, width);
      var t, h := Traced(init, width), Ran(init, width);
      assert ops == init + [op] && Fits(h.quota) && LogFits(h, width);
      hide Traced, Ran, Kept, TraceFits, Fits, LogFits, NextTrace, Advance, Apart;
      match op
      case Idle => ReleaseApart(init, op, t, h, width);
      case DoRelease(_) => ReleaseApart(init, op, t, h, width);
      case DoCommit(_) => CommitApart(init, op, t, h, width);
      case TryHold(_, _, _, _, _, _) => HoldKeepsApart(init, op, t, h, cap, width);
    }
  }

  // ---- Plans over readings ------------------------------------------------

  /** A reading at which an amount is reserved, with the reading that opened its window. */
  datatype Pick = Pick(opener: nat, amount: nat)

  type Picks = map<nat, Pick>

  function Amounts(): Pick -> int { (p: Pick) => p.amount }

  function AmountsIn(opener: nat): Pick -> int { (p: Pick) => if p.opener == opener then p.amount else 0 }

  predicate PickFits(times: seq<int>, width: int, from: int, most: nat, p: nat, pick: Pick) {
    && p < |times| && pick.opener <= p && times[p] < times[pick.opener] + width
    && from <= times[p] < from + width && 1 <= pick.amount <= most
  }

  /** A later pick is of the same window, or of one that opened after the earlier pick and a width later. */
  predicate InTurn(times: seq<int>, width: int, p: nat, pick: Pick, q: nat, later: Pick) {
    p < q && q < |times| && pick.opener < |times| && later.opener < |times| && pick.opener != later.opener ==>
      p < later.opener && times[pick.opener] + width <= times[later.opener]
  }

  /**
   * Picks in one interval, window after window, with no more than the cap in a window and more
   * than twice the cap together.
   */
  ghost predicate Plan(times: seq<int>, width: int, cap: nat, most: nat, from: int, picks: Picks) {
    && (forall p | p in picks :: PickFits(times, width, from, most, p, picks[p]))
    && (forall p, q | p in picks && q in picks :: InTurn(times, width, p, picks[p], q, picks[q]))
    && (forall o: nat :: Sum(picks, AmountsIn(o)) <= cap)
    && Sum(picks, Amounts()) > 2 * cap
  }

  ghost predicate HasPlan(times: seq<int>, width: int, cap: nat, most: nat) {
    exists from, picks :: Plan(times, width, cap, most, from, picks)
  }

  // ---- From a run to a plan -----------------------------------------------

  predicate Counts(e: Entry, key: string, from: int, width: int) { InInterval(e, key, from, width) && e.amount > 0 }

  /** The picks of the entries in the interval. */
  function Gather(log: seq<Entry>, marks: seq<Mark>, at: seq<nat>, key: string, from: int, width: int): Picks
    requires |marks| == |log| && forall m | m in marks :: m.began < |at| && m.reserved < |at|
  {
    if log == [] then map[]
    else
      var n := |log| - 1;
      var before := Gather(log[..n], marks[..n], at, key, from, width);
      if Counts(log[n], key, from, width) then before[at[marks[n].reserved] := Pick(at[marks[n].began], log[n].amount)] else before
  }

  predicate Gathered(log: seq<Entry>, marks: seq<Mark>, at: seq<nat>, key: string, from: int, width: int, i: nat, p: nat, pick: Pick) {
    && i < |log| && i < |marks| && marks[i].began < |at| && marks[i].reserved < |at| && Counts(log[i], key, from, width)
    && p == at[marks[i].reserved] && pick == Pick(at[marks[i].began], log[i].amount)
  }

  /** Every pick comes from an entry. */
  lemma {:induction false} GatheredFrom(log: seq<Entry>, marks: seq<Mark>, at: seq<nat>, key: string, from: int, width: int, p: nat) returns (i: nat)
    requires |marks| == |log| && forall m | m in marks :: m.began < |at| && m.reserved < |at|
    requires p in Gather(log, marks, at, key, from, width)
    ensures Gathered(log, marks, at, key, from, width, i, p, Gather(log, marks, at, key, from, width)[p])
  {
    var n := |log| - 1;
    if Counts(log[n], key, from, width) && p == at[marks[n].reserved] {
      i := n;
    } else {
      i := GatheredFrom(log[..n], marks[..n], at, key, from, width, p);
    }
  }

  /** The entries of the key were reserved at different readings. */
  predicate ReadApart(log: seq<Entry>, marks: seq<Mark>, at: seq<nat>, key: string)
    requires |marks| == |log| && forall m | m in marks :: m.began < |at| && m.reserved < |at|
  {
    forall i, j | 0 <= i < j < |log| && log[i].key == key && log[j].key == key :: at[marks[i].reserved] != at[marks[j].reserved]
  }

  lemma NextIsNew(log: seq<Entry>, marks: seq<Mark>, at: seq<nat>, key: string, from: int, width: int)
    requires log != [] && |marks| == |log| && (forall m | m in marks :: m.began < |at| && m.reserved < |at|)
    requires ReadApart(log, marks, at, key) && Counts(log[|log| - 1], key, from, width)
    ensures at[marks[|log| - 1].reserved] !in Gather(log[..|log| - 1], marks[..|log| - 1], at, key, from, width)
  {
    var n := |log| - 1;
    var p := at[marks[n].reserved];
    assert forall i | 0 <= i < n :: log[i] == log[..n][i] && marks[i] == marks[..n][i];
    if p in Gather(log[..n], marks[..n], at, key, from, width) {
      var i := GatheredFrom(log[..n], marks[..n], at, key, from, width, p);
    }
  }

  lemma {:induction false} GatherSum(log: seq<Entry>, marks: seq<Mark>, at: seq<nat>, key: string, from: int, width: int)
    requires |marks| == |log| && (forall m | m in marks :: m.began < |at| && m.reserved < |at|) && ReadApart(log, marks, at, key)
    ensures Sum(Gather(log, marks, at, key, from, width), Amounts()) == IntervalSum(log, key, from, width)
  {
    if log == [] {
      SumZero<nat, Pick>(map[], Amounts());
    } else {
      var n := |log| - 1;
      GatherSum(log[..n], marks[..n], at, key, from, width);
      if Counts(log[n], key, from, width) {
        NextIsNew(log, marks, at, key, from, width);
        SumInsert(Gather(log[..n], marks[..n], at, key, from, width), Amounts(), at[marks[n].reserved], Pick(at[marks[n].began], log[n].amount));
      }
    }
  }

  /** The openings were read at the starts of the windows. */
  predicate OpeningsRead(log: seq<Entry>, marks: seq<Mark>, at: seq<nat>, times: seq<int>, key: string)
    requires |marks| == |log| && forall m | m in marks :: m.began < |at| && m.reserved < |at|
  {
    forall i | 0 <= i < |log| && log[i].key == key :: at[marks[i].began] < |times| && times[at[marks[i].began]] == log[i].window
  }

  /** What is picked in a window was committed in it. */
  lemma {:induction false} GatherWindow(log: seq<Entry>, marks: seq<Mark>, at: seq<nat>, times: seq<int>, key: string, from: int, width: int, o: nat)
    requires |marks| == |log| && (forall m | m in marks :: m.began < |at| && m.reserved < |at|)
    requires ReadApart(log, marks, at, key) && OpeningsRead(log, marks, at, times, key)
    ensures Sum(Gather(log, marks, at, key, from, width), AmountsIn(o)) <= if o < |times| then WindowSum(log, key, times[o]) else 0
  {
    if log == [] {
      SumZero<nat, Pick>(map[], AmountsIn(o));
    } else {
      var n := |log| - 1;
      assert OpeningsRead(log[..n], marks[..n], at, times, key);
      GatherWindow(log[..n], marks[..n], at, times, key, from, width, o);
      if Counts(log[n], key, from, width) {
        NextIsNew(log, marks, at, key, from, width);
        SumInsert(Gather(log[..n], marks[..n], at, key, from, width), AmountsIn(o), at[marks[n].reserved], Pick(at[marks[n].began], log[n].amount));
      }
    }
  }

  /** A run whose entries of the key are of limited amounts. */
  predicate EntriesWithin(log: seq<Entry>, key: string, most: nat) {
    forall i | 0 <= i < |log| && log[i].key == key :: log[i].amount <= most
  }

  lemma MarksInRange(ops: seq<QuotaOp>, t: Trace, h: History)
    requires TraceFits(ops, t, h)
    ensures forall m | m in t.marks :: m.began < |ops| && m.reserved < |ops|
  {
    forall i | 0 <= i < |t.marks| ensures t.marks[i].began < |ops| && t.marks[i].reserved < |ops| {
      assert EntryTraced(ops, t, h, t.marks[i], h.log[i]);
    }
  }

  lemma MarksReadApart(ops: seq<QuotaOp>, at: seq<nat>, times: seq<int>, key: string, t: Trace, h: History)
    requires TraceFits(ops, t, h) && Apart(ops, t, h) && Reading(ops, at, times, key)
    ensures forall m | m in t.marks :: m.began < |at| && m.reserved < |at|
    ensures ReadApart(h.log, t.marks, at, key) && OpeningsRead(h.log, t.marks, at, times, key)
  {
    MarksInRange(ops, t, h);
    forall i | 0 <= i < |h.log| ensures EntryTraced(ops, t, h, t.marks[i], h.log[i]) {}
    forall i, j | 0 <= i < j < |h.log| && h.log[i].key == key && h.log[j].key == key
      ensures at[t.marks[i].reserved] != at[t.marks[j].reserved]
    {
      assert EntryTraced(ops, t, h, t.marks[i], h.log[i]) && EntryTraced(ops, t, h, t.marks[j], h.log[j]);
      assert PairApart(t.marks[i], h.log[i], t.marks[j], h.log[j]);
    }
    hide TraceFits, Apart;
    forall i | 0 <= i < |h.log| && h.log[i].key == key
      ensures at[t.marks[i].began] < |times| && times[at[t.marks[i].began]] == h.log[i].window
    {
      assert EntryTraced(ops, t, h, t.marks[i], h.log[i]);
    }
  }

  lemma GatheredFits(ops: seq<QuotaOp>, at: seq<nat>, times: seq<int>, key: string, t: Trace, h: History, most: nat, from: int, width: int,
                     i: nat, p: nat, pick: Pick)
    requires TraceFits(ops, t, h) && LogFits(h, width) && Reading(ops, at, times, key) && EntriesWithin(h.log, key, most)
    requires Gathered(h.log, t.marks, at, key, from, width, i, p, pick)
    ensures PickFits(times, width, from, most, p, pick)
  {
    assert EntryTraced(ops, t, h, t.marks[i], h.log[i]) && EntryFits(h, h.log[i], width);
    hide TraceFits, LogFits;
  }

  lemma GatheredInTurn(ops: seq<QuotaOp>, at: seq<nat>, times: seq<int>, key: string, t: Trace, h: History, from: int, width: int,
                       i: nat, p: nat, pick: Pick, j: nat, q: nat, later: Pick)
    requires TraceFits(ops, t, h) && Apart(ops, t, h) && LogFits(h, width) && Reading(ops, at, times, key) && width >= 1
    requires Gathered(h.log, t.marks, at, key, from, width, i, p, pick) && Gathered(h.log, t.marks, at, key, from, width, j, q, later)
    ensures InTurn(times, width, p, pick, q, later)
  {
    assert EntryTraced(ops, t, h, t.marks[i], h.log[i]) && EntryTraced(ops, t, h, t.marks[j], h.log[j]);
    assert i < j ==> PairApart(t.marks[i], h.log[i], t.marks[j], h.log[j]);
    assert j < i ==> PairApart(t.marks[j], h.log[j], t.marks[i], h.log[i]);
    assert MarksOrdered(t, h.log) && Ordered(h.log, width);
    hide TraceFits, Apart, LogFits;
  }

  /** A run that overruns by limited amounts has a plan among its readings. */
  lemma OverrunHasPlan(ops: seq<QuotaOp>, at: seq<nat>, times: seq<int>, key: string, cap: nat, most: nat, width: int, from: int)
    requires OverrunsBy(ops, at, times, key, cap, width, from) && EntriesWithin(Ran(ops, width).log, key, most) && width >= 1
    ensures HasPlan(times, width, cap, most)
  {
    RanKept(ops, Some(cap), width);
    TraceIsOfTheRun(ops, Some(cap), width);
    TraceIsApart(ops, Some(cap), width);
    var h, t := Ran(ops, width), Traced(ops, width);
    assert LogFits(h, width) && Reading(ops, at, times, key);
    MarksReadApart(ops, at, times, key, t, h);
    var picks := Gather(h.log, t.marks, at, key, from, width);
    GatherSum(h.log, t.marks, at, key, from, width);
    hide Ran, Traced, TraceFits, Apart, LogFits, Reading, CapFits, WindowSum, IntervalSum, AllAdmitted, ReadApart, OpeningsRead, Gather;
    hide PickFits, InTurn, EntriesWithin;
    forall p | p in picks ensures PickFits(times, width, from, most, p, picks[p]) {
      var i := GatheredFrom(h.log, t.marks, at, key, from, width, p);
      GatheredFits(ops, at, times, key, t, h, most, from, width, i, p, picks[p]);
    }
    forall p, q | p in picks && q in picks ensures InTurn(times, width, p, picks[p], q, picks[q]) {
      var i := GatheredFrom(h.log, t.marks, at, key, from, width, p);
      var j := GatheredFrom(h.log, t.marks, at, key, from, width, q);
      GatheredInTurn(ops, at, times, key, t, h, from, width, i, p, picks[p], j, q, picks[q]);
    }
    forall o: nat ensures Sum(picks, AmountsIn(o)) <= cap {
      GatherWindow(h.log, t.marks, at, times, key, from, width, o);
      if o < |times| { assert WindowFits(h, Some(cap), key, times[o]); }
    }
    assert Plan(times, width, cap, most, from, picks);
  }

  // ---- From a plan to a run -----------------------------------------------

  predicate IsOpener(picks: Picks, p: nat) { exists q :: q in picks && picks[q].opener == p }

  function Below(picks: Picks, n: nat): Picks { map p | p in picks && p < n :: picks[p] }

  /** The last opener before n. */
  function Current(picks: Picks, n: nat): Option<nat> {
    if n == 0 then None else if IsOpener(picks, n - 1) then Some(n - 1) else Current(picks, n - 1)
  }

  lemma {:induction false} CurrentIsLast(picks: Picks, n: nat)
    ensures var c := Current(picks, n);
            && (c.Some? ==> c.value < n && IsOpener(picks, c.value))
            && forall o: nat | o < n && IsOpener(picks, o) :: c.Some? && o <= c.value
  {
    hide IsOpener;
    if n > 0 { CurrentIsLast(picks, n - 1); }
  }

  /** Hold an amount and give it back at once. */
  function Probe(key: string, id: string, digest: string, amount: nat, now: int): seq<QuotaOp> {
    [TryHold(key, id, digest, amount, now, true), DoRelease(id)]
  }

  /** What a run does at reading p: spend a pick, or only open a window for later ones. */
  function Turn(picks: Picks, times: seq<int>, key: string, digest: (nat, nat) -> string, p: nat): seq<QuotaOp>
    requires p < |times|
  {
    if p in picks then Spend(key, Show(p), digest(p, picks[p].amount), picks[p].amount, times[p])
    else if IsOpener(picks, p) then Probe(key, Show(p), digest(p, 1), 1, times[p])
    else []
  }

  function Turns(picks: Picks, times: seq<int>, key: string, digest: (nat, nat) -> string, n: nat): seq<QuotaOp>
    requires n <= |times|
  {
    if n == 0 then [] else Turns(picks, times, key, digest, n - 1) + Turn(picks, times, key, digest, n - 1)
  }

  /** The readings the operations are at. */
  function TurnsAt(picks: Picks, n: nat): seq<nat> {
    if n == 0 then [] else TurnsAt(picks, n - 1) + TurnAt(picks, n - 1)
  }

  /** Every reservation is under an id not seen before. */
  predicate FreshFrom(h: History, ops: seq<QuotaOp>, width: int) {
    ops == [] ||
    (&& FreshFrom(h, ops[..|ops| - 1], width)
     && (ops[|ops| - 1].TryHold? ==> ops[|ops| - 1].id !in RanFrom(h, ops[..|ops| - 1], width).quota.operations))
  }

  lemma {:induction false} FreshConcat(h: History, a: seq<QuotaOp>, b: seq<QuotaOp>, width: int)
    ensures FreshFrom(h, a + b, width) <==> FreshFrom(h, a, width) && FreshFrom(RanFrom(h, a, width), b, width)
    decreases |b|
  {
    hide Advance;
    if b == [] {
      assert a + b == a;
    } else {
      assert (a + b)[..|a + b| - 1] == a + b[..|b| - 1];
      FreshConcat(h, a, b[..|b| - 1], width);
      RanConcat(h, a, b[..|b| - 1], None, width);
    }
  }

  lemma FreshPair(h: History, a: QuotaOp, b: QuotaOp, width: int)
    requires !b.TryHold? && (a.TryHold? ==> a.id !in h.quota.operations)
    ensures FreshFrom(h, [a, b], width)
  {
    hide Advance;
    var one, two := [a], [a, b];
    assert one[..|one| - 1] == [] && two[..|two| - 1] == one;
    assert RanFrom(h, [], width) == h && FreshFrom(h, [], width);
    assert FreshFrom(h, one, width);
  }

  lemma ProbeOpens(h: History, key: string, id: string, digest: string, amount: nat, now: int, cap: nat, width: int)
    requires id !in h.quota.operations && width >= 1 && (key in h.quota.buckets ==> h.quota.buckets[key].held == map[])
    requires ChargedTo(h.quota, key, now, width).committed + amount <= cap
    ensures AdmittedFrom(h, Probe(key, id, digest, amount, now), Some(cap), width)
    ensures var b, h' := ChargedTo(h.quota, key, now, width), RanFrom(h, Probe(key, id, digest, amount, now), width);
            && h'.log == h.log && h'.quota.operations.Keys == h.quota.operations.Keys + {id}
            && h'.quota.buckets == h.quota.buckets[key := b]
  {
    HoldNow(h.quota, key, id, digest, amount, now, cap, width);
    TwoSteps(h, TryHold(key, id, digest, amount, now, true), DoRelease(id), Some(cap), width);
    hide Hold, Rollover, ChargedTo, RanFrom, AdmittedFrom;
    assert map[id := amount] - {id} == map[];
  }

  // ---- The run of a plan --------------------------------------------------

  predicate BucketStands(h: History, times: seq<int>, key: string, current: Option<nat>, committed: int) {
    match current
    case None => key !in h.quota.buckets
    case Some(o) => o < |times| && key in h.quota.buckets && h.quota.buckets[key].windowStart == times[o]
                    && h.quota.buckets[key].committed == committed && h.quota.buckets[key].held == map[]
  }

  ghost function CurrentSum(picks: Picks, n: nat): int {
    match Current(picks, n)
    case None => 0
    case Some(o) => Sum(Below(picks, n), AmountsIn(o))
  }

  /** After the turns before n: the bucket of the last opener, the interval sum, and no later id. */
  ghost predicate RunStands(h: History, picks: Picks, times: seq<int>, key: string, from: int, width: int, n: nat) {
    && BucketStands(h, times, key, Current(picks, n), CurrentSum(picks, n))
    && IntervalSum(h.log, key, from, width) == Sum(Below(picks, n), Amounts())
    && forall p: nat | p >= n :: Show(p) !in h.quota.operations
  }

  lemma BelowNext(picks: Picks, n: nat)
    ensures n !in Below(picks, n)
    ensures Below(picks, n + 1) == if n in picks then Below(picks, n)[n := picks[n]] else Below(picks, n)
  {}

  lemma SumsNext(picks: Picks, n: nat, f: Pick -> int)
    ensures Sum(Below(picks, n + 1), f) == Sum(Below(picks, n), f) + if n in picks then f(picks[n]) else 0
  {
    BelowNext(picks, n);
    if n in picks { SumInsert(Below(picks, n), f, n, picks[n]); }
    hide Below;
  }

  lemma BelowAll(picks: Picks, n: nat)
    requires forall p | p in picks :: p < n
    ensures Below(picks, n) == picks
  {}

  /** Before its opener nothing is picked in a window. */
  lemma NothingBefore(times: seq<int>, width: int, cap: nat, most: nat, from: int, picks: Picks, n: nat)
    requires Plan(times, width, cap, most, from, picks)
    ensures Sum(Below(picks, n), AmountsIn(n)) == 0
  {
    forall p | p in Below(picks, n) ensures AmountsIn(n)(Below(picks, n)[p]) == 0 { assert PickFits(times, width, from, most, p, picks[p]); }
    hide Plan;
    SumZero(Below(picks, n), AmountsIn(n));
  }

  lemma WithinWindow(times: seq<int>, width: int, cap: nat, most: nat, from: int, picks: Picks, n: nat, o: nat)
    requires Plan(times, width, cap, most, from, picks)
    ensures Sum(Below(picks, n), AmountsIn(o)) <= cap
  {
    assert Sum(picks, AmountsIn(o)) <= cap;
    hide Plan;
    SumSubset(Below(picks, n), picks, AmountsIn(o));
  }

  /** Two picks: their openers are in the order of the windows. */
  lemma TwoPicks(times: seq<int>, width: int, cap: nat, most: nat, from: int, picks: Picks, p: nat, q: nat)
    requires Plan(times, width, cap, most, from, picks) && p in picks && q in picks && picks[p].opener < picks[q].opener
    ensures picks[p].opener <= p < picks[q].opener <= q < |times|
    ensures times[picks[p].opener] + width <= times[picks[q].opener]
  {
    assert PickFits(times, width, from, most, p, picks[p]) && PickFits(times, width, from, most, q, picks[q]);
    assert InTurn(times, width, p, picks[p], q, picks[q]) && InTurn(times, width, q, picks[q], p, picks[p]);
    hide Plan;
  }

  /** A new opener comes a width after the last one. */
  lemma OpenerElapsed(times: seq<int>, width: int, cap: nat, most: nat, from: int, picks: Picks, n: nat)
    requires Plan(times, width, cap, most, from, picks) && IsOpener(picks, n)
    ensures n < |times|
    ensures Current(picks, n).Some? ==> Current(picks, n).value < n && times[Current(picks, n).value] + width <= times[n]
  {
    CurrentIsLast(picks, n);
    var q :| q in picks && picks[q].opener == n;
    assert PickFits(times, width, from, most, q, picks[q]);
    hide Plan, Current, PickFits;
    if Current(picks, n).Some? {
      var p :| p in picks && picks[p].opener == Current(picks, n).value;
      TwoPicks(times, width, cap, most, from, picks, p, q);
    }
  }

  /** A pick is in the window of the last opener, unless it opens its own. */
  lemma PickIsCurrent(times: seq<int>, width: int, cap: nat, most: nat, from: int, picks: Picks, n: nat)
    requires Plan(times, width, cap, most, from, picks) && n in picks
    ensures picks[n].opener <= n && (picks[n].opener == n <==> IsOpener(picks, n))
    ensures picks[n].opener != n ==> Current(picks, n) == Some(picks[n].opener)
  {
    var o := picks[n].opener;
    assert PickFits(times, width, from, most, n, picks[n]);
    CurrentIsLast(picks, n);
    assert IsOpener(picks, o);
    hide Plan, Current, PickFits;
    if o != n && IsOpener(picks, n) {
      var q :| q in picks && picks[q].opener == n;
      TwoPicks(times, width, cap, most, from, picks, n, q);
    }
    if o != n && Current(picks, n) != Some(o) {
      var p :| p in picks && picks[p].opener == Current(picks, n).value;
      TwoPicks(times, width, cap, most, from, picks, n, p);
    }
  }

  lemma CapIsPositive(times: seq<int>, width: int, cap: nat, most: nat, from: int, picks: Picks)
    requires Plan(times, width, cap, most, from, picks)
    ensures cap >= 1 && most >= 1
  {
    if picks == map[] {
      SumZero(picks, Amounts());
    } else {
      var p :| p in picks;
      assert PickFits(times, width, from, most, p, picks[p]);
      var o := picks[p].opener;
      assert Sum(picks, AmountsIn(o)) <= cap;
      SumAtLeast(picks, AmountsIn(o), p);
    }
    hide Plan;
  }

  lemma OpensNew(h: History, picks: Picks, times: seq<int>, key: string, width: int, cap: nat, most: nat, from: int, n: nat)
    requires Plan(times, width, cap, most, from, picks) && IsOpener(picks, n) && RunStands(h, picks, times, key, from, width, n)
    ensures n < |times| && ChargedTo(h.quota, key, times[n], width) == Bucket(times[n], 0, map[])
    ensures key in h.quota.buckets ==> h.quota.buckets[key].held == map[]
  {
    OpenerElapsed(times, width, cap, most, from, picks, n);
    hide Plan, IsOpener, Current, IntervalSum, Below, CurrentSum;
  }

  lemma ChargesCurrent(h: History, picks: Picks, times: seq<int>, key: string, width: int, cap: nat, most: nat, from: int, n: nat)
    requires Plan(times, width, cap, most, from, picks) && n in picks && !IsOpener(picks, n) && RunStands(h, picks, times, key, from, width, n)
    ensures n < |times| && picks[n].opener < n
    ensures Sum(Below(picks, n), AmountsIn(picks[n].opener)) >= 0
    ensures key in h.quota.buckets && h.quota.buckets[key].held == map[]
    ensures ChargedTo(h.quota, key, times[n], width) == h.quota.buckets[key]
    ensures h.quota.buckets[key].windowStart == times[picks[n].opener]
    ensures h.quota.buckets[key].committed == Sum(Below(picks, n), AmountsIn(picks[n].opener))
  {
    PickIsCurrent(times, width, cap, most, from, picks, n);
    assert PickFits(times, width, from, most, n, picks[n]);
    hide Plan, IsOpener, Current, IntervalSum, Below;
  }

  lemma ShownApart(p: nat, n: nat)
    ensures Show(p) == Show(n) <==> p == n
  {
    NatOfShow(p);
    NatOfShow(n);
    hide Show, NatOf;
  }

  /** The parts of RunStands after the turn at n. */
  lemma NextStands(h: History, h': History, picks: Picks, times: seq<int>, key: string, from: int, width: int, n: nat, b: Bucket)
    requires RunStands(h, picks, times, key, from, width, n) && n < |times|
    requires h'.quota.buckets == h.quota.buckets[key := b] && h'.quota.operations.Keys == h.quota.operations.Keys + {Show(n)}
    requires b.held == map[] && Current(picks, n + 1).Some? && Current(picks, n + 1).value < |times|
    requires b.windowStart == times[Current(picks, n + 1).value] && b.committed == CurrentSum(picks, n + 1)
    requires IntervalSum(h'.log, key, from, width) == IntervalSum(h.log, key, from, width) + if n in picks then picks[n].amount else 0
    ensures RunStands(h', picks, times, key, from, width, n + 1)
  {
    SumsNext(picks, n, Amounts());
    hide Current, CurrentSum, IntervalSum, Below, Show;
    forall p: nat | p >= n + 1 ensures Show(p) !in h'.quota.operations { ShownApart(p, n); }
  }

  /** What a pick is charged to: the window of its opener, with what is picked there so far. */
  ghost predicate ChargesPick(h: History, picks: Picks, times: seq<int>, key: string, width: int, cap: nat, n: nat, b: Bucket)
    requires n in picks && n < |times|
  {
    var o := picks[n].opener;
    && o < |times| && Current(picks, n + 1) == Some(o) && b == Bucket(times[o], b.committed, map[])
    && b.committed + picks[n].amount == CurrentSum(picks, n + 1) <= cap
  }

  lemma OpeningPick(h: History, picks: Picks, times: seq<int>, key: string, width: int, cap: nat, most: nat, from: int, n: nat)
    requires Plan(times, width, cap, most, from, picks) && RunStands(h, picks, times, key, from, width, n)
    requires n in picks && n < |times| && IsOpener(picks, n)
    ensures ChargesPick(h, picks, times, key, width, cap, n, ChargedTo(h.quota, key, times[n], width))
  {
    hide Plan, IsOpener, Below, ChargedTo, RunStands, Current, CurrentSum;
    PickIsCurrent(times, width, cap, most, from, picks, n);
    OpensNew(h, picks, times, key, width, cap, most, from, n);
    NothingBefore(times, width, cap, most, from, picks, n);
    NextCurrent(picks, n, n);
    SumsNext(picks, n, AmountsIn(n));
    WithinWindow(times, width, cap, most, from, picks, n + 1, n);
  }

  lemma JoiningPick(h: History, picks: Picks, times: seq<int>, key: string, width: int, cap: nat, most: nat, from: int, n: nat)
    requires Plan(times, width, cap, most, from, picks) && RunStands(h, picks, times, key, from, width, n)
    requires n in picks && n < |times| && !IsOpener(picks, n)
    ensures ChargesPick(h, picks, times, key, width, cap, n, ChargedTo(h.quota, key, times[n], width))
  {
    hide Plan, IsOpener, Below, ChargedTo, RunStands, Current, CurrentSum;
    var o := picks[n].opener;
    PickIsCurrent(times, width, cap, most, from, picks, n);
    ChargesCurrent(h, picks, times, key, width, cap, most, from, n);
    NextCurrent(picks, n, o);
    SumsNext(picks, n, AmountsIn(o));
    WithinWindow(times, width, cap, most, from, picks, n + 1, o);
  }

  /** The opener of a turn is the last one after it. */
  lemma NextCurrent(picks: Picks, n: nat, o: nat)
    requires if IsOpener(picks, n) then o == n else Current(picks, n) == Some(o)
    ensures Current(picks, n + 1) == Some(o) && CurrentSum(picks, n + 1) == Sum(Below(picks, n + 1), AmountsIn(o))
  {
    hide IsOpener, Below;
  }

  /** What spending does, with the interval sum. */
  lemma SpendCounts(h: History, key: string, id: string, digest: string, amount: nat, now: int, cap: nat, from: int, width: int)
    requires id !in h.quota.operations && width >= 1 && (key in h.quota.buckets ==> h.quota.buckets[key].held == map[])
    requires ChargedTo(h.quota, key, now, width).committed + amount <= cap && from <= now < from + width
    ensures AdmittedFrom(h, Spend(key, id, digest, amount, now), Some(cap), width) && FreshFrom(h, Spend(key, id, digest, amount, now), width)
    ensures var b, h' := ChargedTo(h.quota, key, now, width), RanFrom(h, Spend(key, id, digest, amount, now), width);
            && h'.quota.buckets == h.quota.buckets[key := Bucket(b.windowStart, b.committed + amount, map[])]
            && h'.quota.operations.Keys == h.quota.operations.Keys + {id}
            && IntervalSum(h'.log, key, from, width) == IntervalSum(h.log, key, from, width) + amount
  {
    hide ChargedTo, RanFrom, AdmittedFrom, FreshFrom, IntervalSum;
    SpendAdds(h, key, id, digest, amount, now, cap, width);
    FreshPair(h, TryHold(key, id, digest, amount, now, true), DoCommit(id), width);
    IntervalSnoc(h.log, Entry(key, amount, now, ChargedTo(h.quota, key, now, width).windowStart), key, from, width);
  }

  lemma SpendStands(h: History, picks: Picks, times: seq<int>, key: string, digest: (nat, nat) -> string, width: int, cap: nat, most: nat,
                    from: int, n: nat)
    requires Plan(times, width, cap, most, from, picks) && RunStands(h, picks, times, key, from, width, n) && width >= 1
    requires n in picks && n < |times|
    ensures AdmittedFrom(h, Turn(picks, times, key, digest, n), Some(cap), width) && FreshFrom(h, Turn(picks, times, key, digest, n), width)
    ensures RunStands(RanFrom(h, Turn(picks, times, key, digest, n), width), picks, times, key, from, width, n + 1)
  {
    hide Plan, IsOpener, Current, CurrentSum, IntervalSum, Below, ChargedTo, RanFrom, AdmittedFrom, FreshFrom, Show, RunStands, Turn, Spend;
    PickTime(times, width, cap, most, from, picks, n);
    if IsOpener(picks, n) {
      OpeningPick(h, picks, times, key, width, cap, most, from, n);
    } else {
      JoiningPick(h, picks, times, key, width, cap, most, from, n);
    }
    StandsEmpty(h, picks, times, key, from, width, n);
    StandsFresh(h, picks, times, key, from, width, n);
    SpendTurn(picks, times, key, digest, n);
    var amount, b := picks[n].amount, ChargedTo(h.quota, key, times[n], width);
    SpendCounts(h, key, Show(n), digest(n, amount), amount, times[n], cap, from, width);
    var h' := RanFrom(h, Turn(picks, times, key, digest, n), width);
    NextStands(h, h', picks, times, key, from, width, n, Bucket(b.windowStart, b.committed + amount, map[]));
  }

  lemma PickTime(times: seq<int>, width: int, cap: nat, most: nat, from: int, picks: Picks, n: nat)
    requires Plan(times, width, cap, most, from, picks) && n in picks
    ensures n < |times| && from <= times[n] < from + width
  {
    assert PickFits(times, width, from, most, n, picks[n]);
    hide Plan;
  }

  lemma SpendTurn(picks: Picks, times: seq<int>, key: string, digest: (nat, nat) -> string, n: nat)
    requires n in picks && n < |times|
    ensures Turn(picks, times, key, digest, n) == Spend(key, Show(n), digest(n, picks[n].amount), picks[n].amount, times[n])
  {}

  lemma StandsFresh(h: History, picks: Picks, times: seq<int>, key: string, from: int, width: int, n: nat)
    requires RunStands(h, picks, times, key, from, width, n)
    ensures Show(n) !in h.quota.operations
  {
    hide Current, CurrentSum, IntervalSum, Below, Show;
  }

  lemma StandsEmpty(h: History, picks: Picks, times: seq<int>, key: string, from: int, width: int, n: nat)
    requires RunStands(h, picks, times, key, from, width, n)
    ensures key in h.quota.buckets ==> h.quota.buckets[key].held == map[]
  {
    hide Current, CurrentSum, IntervalSum, Below, Show;
  }

  lemma ProbeStands(h: History, picks: Picks, times: seq<int>, key: string, digest: (nat, nat) -> string, width: int, cap: nat, most: nat,
                    from: int, n: nat)
    requires Plan(times, width, cap, most, from, picks) && RunStands(h, picks, times, key, from, width, n) && width >= 1
    requires n !in picks && IsOpener(picks, n) && n < |times|
    ensures AdmittedFrom(h, Turn(picks, times, key, digest, n), Some(cap), width) && FreshFrom(h, Turn(picks, times, key, digest, n), width)
    ensures RunStands(RanFrom(h, Turn(picks, times, key, digest, n), width), picks, times, key, from, width, n + 1)
  {
    var id, d := Show(n), digest(n, 1);
    CapIsPositive(times, width, cap, most, from, picks);
    OpensNew(h, picks, times, key, width, cap, most, from, n);
    NothingBefore(times, width, cap, most, from, picks, n);
    SumsNext(picks, n, AmountsIn(n));
    assert Current(picks, n + 1) == Some(n) && CurrentSum(picks, n + 1) == 0;
    assert id !in h.quota.operations;
    hide Plan, Current, CurrentSum, IntervalSum, Below, ChargedTo, RanFrom, AdmittedFrom, FreshFrom, Show, RunStands;
    ProbeOpens(h, key, id, d, 1, times[n], cap, width);
    FreshPair(h, TryHold(key, id, d, 1, times[n], true), DoRelease(id), width);
    NextStands(h, RanFrom(h, Turn(picks, times, key, digest, n), width), picks, times, key, from, width, n, Bucket(times[n], 0, map[]));
  }

  lemma IdleStands(h: History, picks: Picks, times: seq<int>, key: string, digest: (nat, nat) -> string, width: int, from: int, n: nat)
    requires RunStands(h, picks, times, key, from, width, n) && n !in picks && !IsOpener(picks, n) && n < |times|
    ensures RunStands(RanFrom(h, Turn(picks, times, key, digest, n), width), picks, times, key, from, width, n + 1)
  {
    SumsNext(picks, n, Amounts());
    assert Current(picks, n + 1) == Current(picks, n);
    if Current(picks, n).Some? { SumsNext(picks, n, AmountsIn(Current(picks, n).value)); }
    hide Current, IsOpener, IntervalSum, Below, Show;
    assert RanFrom(h, [], width) == h;
  }

  lemma {:induction false} TurnsRun(picks: Picks, times: seq<int>, key: string, digest: (nat, nat) -> string, width: int, cap: nat, most: nat,
                                    from: int, n: nat)
    requires Plan(times, width, cap, most, from, picks) && width >= 1 && n <= |times|
    ensures AllAdmitted(Turns(picks, times, key, digest, n), Some(cap), width) && FreshFrom(START, Turns(picks, times, key, digest, n), width)
    ensures RunStands(Ran(Turns(picks, times, key, digest, n), width), picks, times, key, from, width, n)
  {
    hide Plan, Turn, RunStands, IsOpener;
    if n == 0 {
      NothingStands(picks, times, key, from, width);
    } else {
      TurnsRun(picks, times, key, digest, width, cap, most, from, n - 1);
      var before, turn := Turns(picks, times, key, digest, n - 1), Turn(picks, times, key, digest, n - 1);
      var h := Ran(before, width);
      if n - 1 in picks {
        SpendStands(h, picks, times, key, digest, width, cap, most, from, n - 1);
      } else if IsOpener(picks, n - 1) {
        ProbeStands(h, picks, times, key, digest, width, cap, most, from, n - 1);
      } else {
        IdleStands(h, picks, times, key, digest, width, from, n - 1);
        NoTurn(picks, times, key, digest, n - 1);
      }
      hide RanFrom;
      RanConcat(START, before, turn, Some(cap), width);
      FreshConcat(START, before, turn, width);
    }
  }

  lemma NoTurn(picks: Picks, times: seq<int>, key: string, digest: (nat, nat) -> string, n: nat)
    requires n < |times| && n !in picks && !IsOpener(picks, n)
    ensures Turn(picks, times, key, digest, n) == []
  {}

  lemma NothingStands(picks: Picks, times: seq<int>, key: string, from: int, width: int)
    ensures RunStands(START, picks, times, key, from, width, 0)
  {
    SumZero(Below(picks, 0), Amounts());
    hide Show;
  }

  predicate AllBelow(at: seq<nat>, n: nat) { forall k | 0 <= k < |at| :: at[k] < n }

  /** The readings of one turn. */
  function TurnAt(picks: Picks, n: nat): seq<nat> { if n in picks || IsOpener(picks, n) then [n, n] else [] }

  lemma TurnReads(picks: Picks, times: seq<int>, key: string, digest: (nat, nat) -> string, n: nat)
    requires n < |times|
    ensures Reading(Turn(picks, times, key, digest, n), TurnAt(picks, n), times, key)
    ensures forall k | 0 <= k < |TurnAt(picks, n)| :: TurnAt(picks, n)[k] == n
  {
    hide IsOpener, Show;
  }

  lemma {:induction false} TurnsRead(picks: Picks, times: seq<int>, key: string, digest: (nat, nat) -> string, n: nat)
    requires n <= |times|
    ensures Reading(Turns(picks, times, key, digest, n), TurnsAt(picks, n), times, key) && AllBelow(TurnsAt(picks, n), n)
  {
    hide Turn, TurnAt, Reading;
    if n == 0 {
      NothingRead(times, key);
    } else {
      TurnsRead(picks, times, key, digest, n - 1);
      TurnReads(picks, times, key, digest, n - 1);
      ReadingConcat(Turns(picks, times, key, digest, n - 1), TurnsAt(picks, n - 1), Turn(picks, times, key, digest, n - 1), TurnAt(picks, n - 1),
                    times, key, n - 1);
    }
  }

  lemma NothingRead(times: seq<int>, key: string)
    ensures Reading([], [], times, key)
  {}

  /** A plan is carried out by an admitted run over the readings, under fresh ids. */
  lemma PlanRuns(picks: Picks, times: seq<int>, key: string, digest: (nat, nat) -> string, width: int, cap: nat, most: nat, from: int)
    requires Plan(times, width, cap, most, from, picks) && width >= 1
    ensures var ops := Turns(picks, times, key, digest, |times|);
            && OverrunsBy(ops, TurnsAt(picks, |times|), times, key, cap, width, from) && FreshFrom(START, ops, width)
  {
    TurnsRun(picks, times, key, digest, width, cap, most, from, |times|);
    TurnsRead(picks, times, key, digest, |times|);
    forall p | p in picks ensures p < |times| { assert PickFits(times, width, from, most, p, picks[p]); }
    BelowAll(picks, |times|);
    hide Turns, TurnsAt, Reading, AllAdmitted, FreshFrom, BucketStands, Current, CurrentSum;
  }

  // ---- The exact law ------------------------------------------------------

  predicate OpWithin(op: QuotaOp, key: string, most: nat) { op.TryHold? && op.key == key ==> op.amount <= most }

  predicate OpsWithin(ops: seq<QuotaOp>, key: string, most: nat) { forall k | 0 <= k < |ops| :: OpWithin(ops[k], key, most) }

  /** Entries are of the amounts that were reserved. */
  lemma OpsBoundEntries(ops: seq<QuotaOp>, key: string, cap: Option<nat>, most: nat, width: int)
    requires AllAdmitted(ops, cap, width) && OpsWithin(ops, key, most) && width >= 1
    ensures EntriesWithin(Ran(ops, width).log, key, most)
  {
    TraceIsApart(ops, cap, width);
    TraceIsOfTheRun(ops, cap, width);
    var h, t := Ran(ops, width), Traced(ops, width);
    hide Ran, Traced, TraceFits, AllAdmitted;
    assert TraceFits(ops, t, h);
    forall i | 0 <= i < |h.log| && h.log[i].key == key ensures h.log[i].amount <= most {
      assert EntryApart(ops, t, h, t.marks[i], h.log[i]);
      EntryIsTraced(ops, t, h, i);
      assert OpWithin(ops[t.marks[i].reserved], key, most);
    }
  }

  lemma EntryIsTraced(ops: seq<QuotaOp>, t: Trace, h: History, i: nat)
    requires TraceFits(ops, t, h) && i < |h.log|
    ensures i < |t.marks| && EntryTraced(ops, t, h, t.marks[i], h.log[i])
  {}

  lemma TurnWithin(picks: Picks, times: seq<int>, key: string, digest: (nat, nat) -> string, most: nat, n: nat)
    requires n < |times| && (n in picks ==> picks[n].amount <= most) && most >= 1
    ensures OpsWithin(Turn(picks, times, key, digest, n), key, most)
  {
    hide IsOpener, Show;
  }

  lemma {:induction false} TurnsWithin(picks: Picks, times: seq<int>, key: string, digest: (nat, nat) -> string, most: nat, n: nat)
    requires n <= |times| && (forall p | p in picks :: picks[p].amount <= most) && most >= 1
    ensures OpsWithin(Turns(picks, times, key, digest, n), key, most)
  {
    hide Turn, OpWithin;
    if n > 0 {
      TurnsWithin(picks, times, key, digest, most, n - 1);
      TurnWithin(picks, times, key, digest, most, n - 1);
    }
  }

  lemma PlanAmounts(times: seq<int>, width: int, cap: nat, most: nat, from: int, picks: Picks)
    requires Plan(times, width, cap, most, from, picks)
    ensures forall p | p in picks :: picks[p].amount <= most
  {
    forall p | p in picks ensures picks[p].amount <= most { assert PickFits(times, width, from, most, p, picks[p]); }
    hide Plan;
  }

  /** Some admitted run over the readings, committing amounts of at most `most`, overruns. */
  ghost predicate CanOverrunWithin(times: seq<int>, key: string, cap: nat, width: int, most: nat) {
    exists ops, at, from :: OverrunsWithin(ops, at, times, key, cap, width, most, from)
  }

  ghost predicate OverrunsWithin(ops: seq<QuotaOp>, at: seq<nat>, times: seq<int>, key: string, cap: nat, width: int, most: nat, from: int) {
    OverrunsBy(ops, at, times, key, cap, width, from) && EntriesWithin(Ran(ops, width).log, key, most)
  }

  lemma PlanOverruns(times: seq<int>, key: string, cap: nat, width: int, most: nat, from: int, picks: Picks)
    requires Plan(times, width, cap, most, from, picks) && width >= 1
    ensures CanOverrunWithin(times, key, cap, width, most)
  {
    var digest: (nat, nat) -> string := (p, a) => "";
    var ops, at := Turns(picks, times, key, digest, |times|), TurnsAt(picks, |times|);
    PlanRuns(picks, times, key, digest, width, cap, most, from);
    CapIsPositive(times, width, cap, most, from, picks);
    PlanAmounts(times, width, cap, most, from, picks);
    TurnsWithin(picks, times, key, digest, most, |times|);
    hide Plan, Turns, TurnsAt, OpsWithin, EntriesWithin, Reading, AllAdmitted, Ran, FreshFrom;
    OpsBoundEntries(ops, key, Some(cap), most, width);
    assert OverrunsWithin(ops, at, times, key, cap, width, most, from);
  }

  /**
   * For every list of readings: some run over them whose reservations are of at most `most`
   * commits more than twice the cap out of one interval if and only if the readings have a plan.
   */
  lemma PlansExactly(times: seq<int>, key: string, cap: nat, width: int, most: nat)
    requires width >= 1
    ensures CanOverrunWithin(times, key, cap, width, most) <==> HasPlan(times, width, cap, most)
  {
    hide OverrunsBy, EntriesWithin, Plan;
    if ops, at, from :| OverrunsWithin(ops, at, times, key, cap, width, most, from) {
      OverrunHasPlan(ops, at, times, key, cap, most, width, from);
    }
    if from, picks :| Plan(times, width, cap, most, from, picks) { PlanOverruns(times, key, cap, width, most, from, picks); }
  }

  lemma {:induction false} EntryInWindow(log: seq<Entry>, key: string, i: nat)
    requires i < |log| && log[i].key == key
    ensures log[i].amount <= WindowSum(log, key, log[i].window)
  {
    if i < |log| - 1 { EntryInWindow(log[..|log| - 1], key, i); }
  }

  /** No entry is larger than the cap. */
  lemma CapBoundsEntries(ops: seq<QuotaOp>, key: string, cap: nat, width: int)
    requires AllAdmitted(ops, Some(cap), width) && width >= 1
    ensures EntriesWithin(Ran(ops, width).log, key, cap)
  {
    RanKept(ops, Some(cap), width);
    var h := Ran(ops, width);
    hide Ran, WindowSum, CapFits, LogFits, AllAdmitted;
    forall i | 0 <= i < |h.log| && h.log[i].key == key ensures h.log[i].amount <= cap {
      EntryInWindow(h.log, key, i);
      assert WindowFits(h, Some(cap), key, h.log[i].window);
    }
  }

  /** When amounts are limited by the cap alone, a plan is three windows. */
  lemma FreePlansAreThreeWindows(times: seq<int>, cap: nat, width: int)
    requires width >= 1
    ensures HasPlan(times, width, cap, cap) <==> cap >= 1 && ThreeWindows(times, width)
  {
    PlansExactly(times, "", cap, width, cap);
    OverrunsExactly(times, "", cap, width);
    hide OverrunsBy, EntriesWithin, HasPlan, ThreeWindows;
    if ops, at, from :| OverrunsBy(ops, at, times, "", cap, width, from) {
      AdmittedOverrun(ops, at, times, "", cap, width, from);
      CapBoundsEntries(ops, "", cap, width);
      assert OverrunsWithin(ops, at, times, "", cap, width, cap, from);
    }
    if ops, at, from :| OverrunsWithin(ops, at, times, "", cap, width, cap, from) {
      assert OverrunsBy(ops, at, times, "", cap, width, from);
    }
  }

  lemma AdmittedOverrun(ops: seq<QuotaOp>, at: seq<nat>, times: seq<int>, key: string, cap: nat, width: int, from: int)
    requires OverrunsBy(ops, at, times, key, cap, width, from)
    ensures AllAdmitted(ops, Some(cap), width)
  {}
}
