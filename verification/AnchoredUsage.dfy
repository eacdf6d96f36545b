/**
 * Usage of an authority mandate in windows anchored at multiples of the window length:
 * the snapshot of the window holding `now`, and the limit check against it.
 */
module AnchoredUsage {
  import opened Arithmetic
  import opened Outcomes
  import opened Digits
  import opened Decimals
  import opened Settlement
  import opened GrantUsage

  /** A recorded usage; an absent count counts once. */
  datatype Used = Used(usedAt: int, count: Option<int>, amount: Option<string>)

  datatype Snapshot = Snapshot(totalCount: int, totalAmount: Option<string>, windowStart: Option<int>, windowEnd: Option<int>)

  datatype UsageError = BadUsageAmount | BadMaxTotal

  predicate InWindowOf(u: Used, start: Option<int>, end: Option<int>) {
    start.Some? && end.Some? ==> start.value <= u.usedAt < end.value
  }

  function Totalled(total: Option<string>): nat {
    if total.Some? && Readable(total.value) then NatOf(total.value) else 0
  }

  /** One round of the loop in snapshotFromUsage. */
  function AddUsed(s: Snapshot, u: Used): Result<Snapshot, UsageError> {
    if !InWindowOf(u, s.windowStart, s.windowEnd) then Ok(s)
    else
      var counted := s.(totalCount := s.totalCount + Coalesce(u.count, 1));
      if u.amount.None? then Ok(counted)
      else if !Readable(u.amount.value) then Err(BadUsageAmount)
      else Ok(counted.(totalAmount := Some(Show(Totalled(s.totalAmount) + NatOf(u.amount.value)))))
  }

  function EmptySnapshot(now: int, windowMs: Option<int>): Snapshot {
    var start := WindowStart(now, windowMs);
    Snapshot(0, None, start, if start.Some? then Some(start.value + windowMs.value) else None)
  }

  function SnapshotOf(usages: seq<Used>, now: int, windowMs: Option<int>): Result<Snapshot, UsageError> {
    if usages == [] then Ok(EmptySnapshot(now, windowMs))
    else
      var before := SnapshotOf(usages[..|usages| - 1], now, windowMs);
      if before.Err? then before else AddUsed(before.value, usages[|usages| - 1])
  }

  method SnapshotFromUsage(usages: seq<Used>, now: int, windowMs: Option<int>) returns (r: Result<Snapshot, UsageError>)
    ensures r == SnapshotOf(usages, now, windowMs)
  {
    hide EmptySnapshot, AddUsed;
    var s := EmptySnapshot(now, windowMs);
    for k := 0 to |usages|
      invariant SnapshotOf(usages[..k], now, windowMs) == Ok(s)
    {
      assert usages[..k + 1][..k] == usages[..k];
      var next := AddUsed(s, usages[k]);
      if next.Err? {
        SnapshotErrorStays(usages, k + 1, now, windowMs);
        return next;
      }
      s := next.value;
    }
    assert usages[..|usages|] == usages;
    return Ok(s);
  }

  lemma {:induction false} SnapshotErrorStays(usages: seq<Used>, k: nat, now: int, windowMs: Option<int>)
    requires k <= |usages| && SnapshotOf(usages[..k], now, windowMs).Err?
    ensures SnapshotOf(usages, now, windowMs) == SnapshotOf(usages[..k], now, windowMs)
  {
    if k == |usages| {
      assert usages[..k] == usages;
    } else {
      assert usages[..|usages| - 1][..k] == usages[..k];
      SnapshotErrorStays(usages[..|usages| - 1], k, now, windowMs);
    }
  }

  /** Whether the proposed usage fits; throws when the limit's total is not a whole number. */
  function CheckUsageLimit(s: Snapshot, limit: Limit, proposed: Usage): Result<bool, UsageError> {
    if limit.maxCount.Some? && s.totalCount + proposed.count > limit.maxCount.value then Ok(false)
    else if limit.maxTotal.None? then Ok(true)
    else if !Readable(limit.maxTotal.value) then Err(BadMaxTotal)
    else if proposed.amount.Some? && !Readable(proposed.amount.value) then Ok(false)
    else Ok(Totalled(s.totalAmount) + ChargeOf(proposed, Total) <= NatOf(limit.maxTotal.value))
  }

  // ---- What the snapshot adds up ------------------------------------------

  function UsageOf(u: Used): Usage { Usage(Coalesce(u.count, 1), u.amount) }

  predicate Inside(u: Used, from: int, width: int) { from <= u.usedAt < from + width }

  /** The charges of the usages in [from, from + width). */
  function SumInside(usages: seq<Used>, from: int, width: int, y: Measure): int {
    if usages == [] then 0
    else
      var last := usages[|usages| - 1];
      SumInside(usages[..|usages| - 1], from, width, y) + if Inside(last, from, width) then ChargeOf(UsageOf(last), y) else 0
  }

  function Value(s: Snapshot, y: Measure): int {
    match y
    case Count => s.totalCount
    case Total => Totalled(s.totalAmount)
  }

  lemma ShownTotal(n: nat)
    ensures Totalled(Some(Show(n))) == n
  {
    NatOfShow(n);
  }

  /** A snapshot that is returned holds the exact sums of the anchored window around `now`. */
  lemma {:induction false} SnapshotSums(usages: seq<Used>, now: int, width: int, y: Measure)
    requires width > 0 && SnapshotOf(usages, now, Some(width)).Ok?
    ensures var s := SnapshotOf(usages, now, Some(width)).value;
            && s.windowStart == Some(now / width * width) && s.windowEnd == Some(now / width * width + width)
            && Value(s, y) == SumInside(usages, now / width * width, width, y)
  {
    hide Readable, NatOf, Show;
    if usages != [] {
      var init, last := usages[..|usages| - 1], usages[|usages| - 1];
      SnapshotSums(init, now, width, y);
      var before := SnapshotOf(init, now, Some(width)).value;
      if last.amount.Some? && Readable(last.amount.value) {
        ReadableDigits(last.amount.value);
        ShownTotal(Totalled(before.totalAmount) + NatOf(last.amount.value));
      }
    }
  }

  /** The usage falls into the window that starts there, or there is no window. */
  predicate Falls(u: Used, start: Option<int>, width: int) { start.None? || start.value <= u.usedAt < start.value + width }

  predicate DigitString(amount: string) { amount != "" && AllDigits(amount) }

  /** Each usage counts its own count, or once. */
  function CountFalling(usages: seq<Used>, start: Option<int>, width: int): int {
    if usages == [] then 0
    else
      var u := usages[|usages| - 1];
      CountFalling(usages[..|usages| - 1], start, width)
        + if !Falls(u, start, width) then 0 else if u.count.Some? then u.count.value else 1
  }

  function UnitsFalling(usages: seq<Used>, start: Option<int>, width: int): nat {
    if usages == [] then 0
    else
      var u := usages[|usages| - 1];
      UnitsFalling(usages[..|usages| - 1], start, width)
        + if Falls(u, start, width) && u.amount.Some? && DigitString(u.amount.value) then NatOf(u.amount.value) else 0
  }

  predicate AmountFalls(u: Used, start: Option<int>, width: int) { Falls(u, start, width) && u.amount.Some? }

  /** The window, if the limit has one, is the one of its length from a multiple of it that holds `now`. */
  predicate Anchored(now: int, windowMs: Option<int>, start: Option<int>) {
    if windowMs.Some? && windowMs.value > 0 then start == Some(now / windowMs.value * windowMs.value) else start.None?
  }

  /**
   * With or without a window: the snapshot throws exactly on an unreadable amount in the window,
   * counts a usage without a count once, and has a total amount exactly when some usage has one.
   */
  lemma {:induction false} SnapshotExactly(usages: seq<Used>, now: int, windowMs: Option<int>, start: Option<int>)
    requires Anchored(now, windowMs, start)
    ensures var width, r := Coalesce(windowMs, 0), SnapshotOf(usages, now, windowMs);
            && (r.Ok? <==> forall k | 0 <= k < |usages| && AmountFalls(usages[k], start, width) :: DigitString(usages[k].amount.value))
            && (r.Ok? ==>
                  && r.value.totalCount == CountFalling(usages, start, width)
                  && Totalled(r.value.totalAmount) == UnitsFalling(usages, start, width)
                  && (r.value.totalAmount.Some? <==> exists k :: 0 <= k < |usages| && AmountFalls(usages[k], start, width))
                  && r.value.windowStart == start && r.value.windowEnd == if start.Some? then Some(start.value + width) else None)
  {
    hide NatOf, Show, AllDigits;
    if usages != [] {
      var n := |usages| - 1;
      assert forall k | 0 <= k < n :: usages[..n][k] == usages[k];
      SnapshotExactly(usages[..n], now, windowMs, start);
      var before := SnapshotOf(usages[..n], now, windowMs);
      if before.Ok? && usages[n].amount.Some? && Readable(usages[n].amount.value) {
        ReadableDigits(usages[n].amount.value);
        ShownTotal(Totalled(before.value.totalAmount) + NatOf(usages[n].amount.value));
      }
    }
  }

  /** The check lets a usage pass exactly when it fits, with what the snapshot holds, into every limit there is. */
  lemma PassesExactly(s: Snapshot, limit: Limit, u: Usage)
    ensures var fits := (limit.maxCount.Some? ==> s.totalCount + u.count <= limit.maxCount.value);
            var amount := if u.amount.Some? && DigitString(u.amount.value) then NatOf(u.amount.value) else 0;
            && (CheckUsageLimit(s, limit, u).Err? <==> fits && limit.maxTotal.Some? && !DigitString(limit.maxTotal.value))
            && (CheckUsageLimit(s, limit, u) == Ok(true) <==>
                  && fits
                  && (limit.maxTotal.Some? ==>
                        && DigitString(limit.maxTotal.value) && (u.amount.Some? ==> DigitString(u.amount.value))
                        && Totalled(s.totalAmount) + amount <= NatOf(limit.maxTotal.value)))
  {
    hide NatOf, AllDigits;
  }

  // ---- Runs of checked usage ----------------------------------------------

  /** Every usage was recorded after the check against the usages before it let it pass. */
  predicate AllChecked(usages: seq<Used>, limit: Limit) {
    usages == [] ||
    (var init, last := usages[..|usages| - 1], usages[|usages| - 1];
     && AllChecked(init, limit)
     && var s := SnapshotOf(init, last.usedAt, limit.windowMs);
        s.Ok? && CheckUsageLimit(s.value, limit, UsageOf(last)) == Ok(true))
  }

  lemma PassedWithin(s: Snapshot, limit: Limit, u: Usage, y: Measure)
    requires CheckUsageLimit(s, limit, u) == Ok(true) && Most(limit, y).Some?
    ensures Value(s, y) + ChargeOf(u, y) <= Most(limit, y).value
  {
    hide NatOf;
  }

  /** Each anchored window stays within the limit, in whatever order the usages come. */
  lemma {:induction false} AnchoredWindowWithin(usages: seq<Used>, limit: Limit, width: int, m: int, y: Measure)
    requires width > 0 && limit.windowMs == Some(width) && AllChecked(usages, limit)
    requires Most(limit, y).Some? && Most(limit, y).value >= 0
    ensures SumInside(usages, m * width, width, y) <= Most(limit, y).value
  {
    hide ChargeOf, Most, CheckUsageLimit;
    if usages != [] {
      var init, last := usages[..|usages| - 1], usages[|usages| - 1];
      AnchoredWindowWithin(init, limit, width, m, y);
      if Inside(last, m * width, width) {
        WindowNumber(last.usedAt, m, width);
        SnapshotSums(init, last.usedAt, width, y);
        PassedWithin(SnapshotOf(init, last.usedAt, Some(width)).value, limit, UsageOf(last), y);
      }
    }
  }

  lemma WindowNumber(t: int, m: int, width: int)
    requires width > 0 && m * width <= t < m * width + width
    ensures t / width == m
  {
    var q, r := t / width, t % width;
    if q > m { MulAtLeast(q - m, width); DistributeSum(q, m, width); }
    if q < m { MulAtLeast(m - q, width); DistributeSum(m, q, width); }
  }

  lemma WindowBounds(t: int, width: int)
    requires width > 0
    ensures t / width * width <= t < t / width * width + width
  {}

  predicate NonNegative(usages: seq<Used>) { forall i | 0 <= i < |usages| :: Coalesce(usages[i].count, 1) >= 0 }

  /** An interval of one window length is covered by two adjacent windows. */
  lemma {:induction false} CoveredByTwo(usages: seq<Used>, from: int, width: int, a: int, y: Measure)
    requires width > 0 && NonNegative(usages) && a <= from < a + width
    ensures SumInside(usages, from, width, y) <= SumInside(usages, a, width, y) + SumInside(usages, a + width, width, y)
    ensures SumInside(usages, a, width, y) >= 0 && SumInside(usages, a + width, width, y) >= 0
  {
    if usages != [] {
      var last := usages[|usages| - 1];
      CoveredByTwo(usages[..|usages| - 1], from, width, a, y);
      ChargeNonNegative(UsageOf(last), y);
    }
    hide ChargeOf;
  }

  lemma ChargeNonNegative(u: Usage, y: Measure)
    requires u.count >= 0
    ensures ChargeOf(u, y) >= 0
  {}

  /** Usage checked against anchored windows is at most twice the limit in any interval of one window length. */
  lemma AnchoredTwiceTheLimit(usages: seq<Used>, limit: Limit, width: int, from: int, y: Measure)
    requires width > 0 && limit.windowMs == Some(width) && AllChecked(usages, limit) && NonNegative(usages)
    requires Most(limit, y).Some? && Most(limit, y).value >= 0
    ensures SumInside(usages, from, width, y) <= 2 * Most(limit, y).value
  {
    var m := from / width;
    WindowBounds(from, width);
    hide SumInside, AllChecked, Most, NonNegative;
    CoveredByTwo(usages, from, width, m * width, y);
    AnchoredWindowWithin(usages, limit, width, m, y);
    AnchoredWindowWithin(usages, limit, width, m + 1, y);
    DistributeSum(m, 1, width);
  }
}
