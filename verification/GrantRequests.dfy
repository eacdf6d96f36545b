/** Exactly which usage requests the in-memory grant store reserves, and what it then holds. */
module GrantRequests {
  import opened Outcomes
  import opened Digits
  import opened Settlement
  import opened Sums
  import opened RunLedger
  import opened GrantUsage

  // ---- Usage counted, spelled out -----------------------------------------

  /** The grant counts against the mandate in the window that starts there, or ever. */
  predicate CountsFor(g: Grant, mandateId: string, start: Option<int>) {
    && g.mandateId == mandateId && (g.status == Status.Committed || g.status == Status.Reserved)
    && (start.None? || start.value <= g.reservedAt)
  }

  /** The actual usage once it is committed with one, else the reserved usage. */
  function UsedBy(g: Grant): Usage { if g.status == Status.Committed && g.actual.Some? then g.actual.value else g.delta }

  function UnitsOf(u: Usage): nat { if u.amount.Some? && u.amount.value != "" && AllDigits(u.amount.value) then NatOf(u.amount.value) else 0 }

  function CountUsed(mandateId: string, start: Option<int>): Grant -> int {
    (g: Grant) => if CountsFor(g, mandateId, start) then UsedBy(g).count else 0
  }

  function UnitsUsed(mandateId: string, start: Option<int>): Grant -> int {
    (g: Grant) => if CountsFor(g, mandateId, start) then UnitsOf(UsedBy(g)) else 0
  }

  lemma CountedIsUsed(grants: Grants, mandateId: string, start: Option<int>)
    ensures Counted(grants, mandateId, start, Count) == Sum(grants, CountUsed(mandateId, start))
    ensures Counted(grants, mandateId, start, Total) == Sum(grants, UnitsUsed(mandateId, start))
  {
    SumMatch(grants, WeightOf(mandateId, start, Count), grants, CountUsed(mandateId, start));
    SumMatch(grants, WeightOf(mandateId, start, Total), grants, UnitsUsed(mandateId, start));
  }

  /** The window of the limit that holds `now` starts there: windows follow each other from zero. */
  predicate WindowFrom(now: int, windowMs: Option<int>, start: Option<int>) {
    if windowMs.Some? && windowMs.value > 0 then
      start.Some? && start.value <= now < start.value + windowMs.value && start.value % windowMs.value == 0
    else start.None?
  }

  lemma WindowIsUnique(now: int, windowMs: Option<int>, start: Option<int>)
    ensures WindowFrom(now, windowMs, start) <==> start == WindowStart(now, windowMs)
  {
    if windowMs.Some? && windowMs.value > 0 {
      var w := windowMs.value;
      DivisionFits(now, w);
      if start.Some? && start.value <= now < start.value + w && start.value % w == 0 {
        OneMultiple(now, w, start.value, now / w * w);
      }
    }
  }

  lemma DivisionFits(now: int, w: int)
    requires w > 0
    ensures now / w * w <= now < now / w * w + w && (now / w * w) % w == 0
  {
    ModOfProduct(now / w, w);
  }

  lemma SmallMultiple(k: int, w: int)
    requires w > 0 && -w < k * w < w
    ensures k == 0
  {
    AtLeast(k, w);
    AtLeast(-k, w);
    assert -k * w == -(k * w);
  }

  lemma AtLeast(k: int, w: int)
    requires w > 0
    ensures k >= 1 ==> k * w >= w
  {
    if k >= 1 { assert k * w == (k - 1) * w + w && (k - 1) * w >= 0; }
  }

  lemma ModOfProduct(k: int, w: int)
    requires w > 0
    ensures (k * w) % w == 0
  {
    var r, q := (k * w) % w, (k * w) / w;
    assert k * w == q * w + r;
    assert (k - q) * w == r;
    SmallMultiple(k - q, w);
  }

  lemma OneMultiple(now: int, w: int, a: int, b: int)
    requires w > 0 && a % w == 0 && b % w == 0 && a <= now < a + w && b <= now < b + w
    ensures a == b
  {
    var p, q := a / w, b / w;
    assert a == p * w && b == q * w;
    assert (p - q) * w == a - b;
    SmallMultiple(p - q, w);
  }

  // ---- Requests -----------------------------------------------------------

  predicate ReadableText(u: Usage) { u.amount.Some? ==> u.amount.value != "" && AllDigits(u.amount.value) }

  /** What counts and what is asked are together within the limit, and every amount that is read is a digit string. */
  ghost predicate WithinLimit(grants: Grants, a: Ask, limit: Limit, start: Option<int>) {
    && (forall id | id in grants && CountsFor(grants[id], a.mandateId, start) :: ReadableText(UsedBy(grants[id])))
    && (limit.maxCount.Some? ==> Sum(grants, CountUsed(a.mandateId, start)) + a.delta.count <= limit.maxCount.value)
    && (limit.maxTotal.Some? ==>
          && ReadableText(a.delta) && limit.maxTotal.value != "" && AllDigits(limit.maxTotal.value)
          && Sum(grants, UnitsUsed(a.mandateId, start)) + UnitsOf(a.delta) <= NatOf(limit.maxTotal.value))
  }

  lemma LimitExactly(grants: Grants, a: Ask, limit: Limit, start: Option<int>)
    requires WindowFrom(a.now, limit.windowMs, start)
    ensures LimitError(grants, a.mandateId, a.delta, limit, a.now).None? <==> WithinLimit(grants, a, limit, start)
  {
    WindowIsUnique(a.now, limit.windowMs, start);
    CountedIsUsed(grants, a.mandateId, start);
    ReadableExactly(grants, a.mandateId, start);
    hide Counted, AllReadable, CountsFor, UsedBy, WindowStart, WindowFrom;
  }

  lemma ReadableExactly(grants: Grants, mandateId: string, start: Option<int>)
    ensures AllReadable(grants, mandateId, start) <==>
              forall id | id in grants && CountsFor(grants[id], mandateId, start) :: ReadableText(UsedBy(grants[id]))
  {
    forall id | id in grants
      ensures IsCounted(grants[id], mandateId, start) == CountsFor(grants[id], mandateId, start)
      ensures IsCounted(grants[id], mandateId, start) ==> Charged(grants[id]) == UsedBy(grants[id])
    {}
    hide IsCounted, CountsFor, Charged, UsedBy;
  }

  predicate LiveAt(grants: Grants, id: string, now: int) {
    id in grants && grants[id].status == Status.Reserved && now <= grants[id].expiresAt
  }

  /** The overdue grants are taken as unknown before anything else. */
  predicate Swept(before: Grants, after: Grants, now: int) {
    && after.Keys == before.Keys
    && forall id | id in before :: SweptOne(before[id], after[id], now)
  }

  predicate SweptOne(g: Grant, h: Grant, now: int) {
    if g.status == Status.Reserved && g.expiresAt < now then h.status == Status.Unknown && h.(status := Status.Reserved) == g else h == g
  }

  function IdOf(a: Ask): string { "res:" + a.runId + ":" + a.stepId + ":" + a.mandateId + ":" + a.actionDigest + ":" + Show(a.now) }

  /** The grant that holds what was asked, until its time to live is over. */
  predicate HoldsAsked(g: Grant, a: Ask) {
    && g.runId == a.runId && g.stepId == a.stepId && g.mandateId == a.mandateId && g.actionDigest == a.actionDigest
    && g.delta == a.delta && g.reservedAt == a.now && g.expiresAt == a.now + a.ttlMs && g.status == Status.Reserved
    && g.receipt.None? && g.actual.None?
  }

  /** The live grant is for the same step, mandate and action of the same run. */
  predicate BoundTo(g: Grant, a: Ask) {
    g.runId == a.runId && g.stepId == a.stepId && g.mandateId == a.mandateId && g.actionDigest == a.actionDigest
  }

  /**
   * Exactly when a request is granted anew: its id is not live, and there is no limit or the
   * usage of the mandate in the window and what is asked are together within it. Then the grant
   * is held beside all the others; else nothing but the sweep is written.
   */
  lemma GrantedExactly(grants: Grants, a: Ask, clean: Grants, start: Option<int>)
    requires Swept(grants, clean, a.now)
    requires a.limit.Some? ==> WindowFrom(a.now, a.limit.value.windowMs, start)
    ensures var (after, r), id := ReserveGrant(grants, a), IdOf(a);
            var granted := !LiveAt(grants, id, a.now) && (a.limit.None? || WithinLimit(clean, a, a.limit.value, start));
            && (granted ==> r.Ok? && HoldsAsked(r.value, a) && after == clean[id := r.value])
            && (!granted ==> after == clean)
            && (r.Ok? <==> granted || (LiveAt(grants, id, a.now) && BoundTo(grants[id], a)))
            && (r.Ok? && !granted ==> r.value == grants[id])
            && (LiveAt(grants, id, a.now) && !BoundTo(grants[id], a) ==> r == Err(GrantCollision))
  {
    SweptIsClean(grants, clean, a.now);
    if a.limit.Some? { LimitExactly(clean, a, a.limit.value, start); }
    assert IdOf(a) == GrantId(a);
    hide LimitError, WithinLimit, CleanExpired, GrantId, IdOf, WindowFrom;
    LiveAfterSweep(grants, clean, a.now, GrantId(a));
  }

  lemma SweptIsClean(grants: Grants, clean: Grants, now: int)
    requires Swept(grants, clean, now)
    ensures clean == CleanExpired(grants, now)
  {
    forall id | id in grants ensures clean[id] == Lapsed(grants[id], now) {
      assert SweptOne(grants[id], clean[id], now);
    }
  }

  lemma LiveAfterSweep(grants: Grants, clean: Grants, now: int, id: string)
    requires Swept(grants, clean, now)
    ensures id in clean && clean[id].status == Status.Reserved <==> LiveAt(grants, id, now)
    ensures LiveAt(grants, id, now) ==> clean[id] == grants[id]
  {
    assert id in grants ==> SweptOne(grants[id], clean[id], now);
  }
}
