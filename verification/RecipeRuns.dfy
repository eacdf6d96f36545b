/** Running a recipe (executeRecipe): batches under a concurrency cap, then saga compensation. */
module RecipeRuns {
  import opened Outcomes
  import opened OperationStore
  import opened Recipes

  /** What comes of starting a step: its `when` conditions fail, it runs to an outcome, or it throws. */
  datatype Attempt = Skip | Ran(outcome: ActionOutcome) | Threw

  datatype StepStatus = Skipped | Finished(outcome: ActionOutcome)

  datatype StepResult = StepResult(stepId: string, status: StepStatus, compensation: Option<(string, ActionOutcome)>)

  datatype RecipeResult = RecipeResult(ok: bool, steps: seq<StepResult>, compensated: bool)

  /** The steps of all batches, in starting order. */
  function Started(batches: seq<seq<Step>>): seq<Step> {
    if batches == [] then [] else Started(batches[..|batches| - 1]) + batches[|batches| - 1]
  }

  predicate Good(a: Attempt) { a == Skip || a == Ran(Confirmed) }

  /**
   * A run respects the recipe: no step starts twice, no batch exceeds the cap, every dependency
   * of a step was started in an earlier batch, and every batch but the last went well.
   */
  ghost predicate WellScheduled(steps: seq<Step>, cap: nat, attempt: Step -> Attempt, batches: seq<seq<Step>>) {
    && UniqueIds(Started(batches))
    && (forall s | s in Started(batches) :: s in steps)
    && (forall b | 0 <= b < |batches| :: 1 <= |batches[b]| <= cap)
    && (forall b, s: Step, d | 0 <= b < |batches| && s in batches[b] && d in s.dependsOn :: d in Ids(Started(batches[..b])))
    && (forall b, s: Step | 0 <= b < |batches| - 1 && s in batches[b] :: Good(attempt(s)))
  }

  function StatusOf(a: Attempt): StepStatus
    requires !a.Threw?
  {
    if a.Skip? then Skipped else Finished(a.outcome)
  }

  // ---- Scheduling ---------------------------------------------------------

  lemma StartedSnoc(batches: seq<seq<Step>>, batch: seq<Step>)
    ensures Started(batches + [batch]) == Started(batches) + batch
  {
    assert (batches + [batch])[..|batches|] == batches;
  }

  /** A batch of steps that are not started and whose dependencies are extends a run that went well so far. */
  lemma ExtendRun(steps: seq<Step>, cap: nat, attempt: Step -> Attempt, batches: seq<seq<Step>>, batch: seq<Step>)
    requires WellScheduled(steps, cap, attempt, batches)
    requires forall s | s in Started(batches) :: Good(attempt(s))
    requires UniqueIds(batch) && 1 <= |batch| <= cap
    requires forall s | s in batch :: s in steps && s.id !in Ids(Started(batches))
    requires forall s, d | s in batch && d in s.dependsOn :: d in Ids(Started(batches))
    ensures WellScheduled(steps, cap, attempt, batches + [batch])
  {
    var longer := batches + [batch];
    StartedSnoc(batches, batch);
    forall b, s: Step | 0 <= b < |batches| && s in batches[b] ensures s in Started(batches) { BatchStarted(batches, b, s); }
    forall b, s: Step, d | 0 <= b < |longer| && s in longer[b] && d in s.dependsOn ensures d in Ids(Started(longer[..b])) {
      if b < |batches| { assert longer[..b] == batches[..b]; } else { assert longer[..b] == batches; }
    }
  }

  lemma {:induction false} BatchStarted(batches: seq<seq<Step>>, b: nat, s: Step)
    requires b < |batches| && s in batches[b]
    ensures s in Started(batches)
  {
    if b < |batches| - 1 { BatchStarted(batches[..|batches| - 1], b, s); }
  }

  predicate Ready(s: Step, done: set<string>) {
    s.id !in done && forall d | d in s.dependsOn :: d in done
  }

  /** The ready steps in topological order. */
  function ReadySteps(order: seq<Step>, done: set<string>): seq<Step> {
    if order == [] then []
    else
      var last := order[|order| - 1];
      ReadySteps(order[..|order| - 1], done) + if Ready(last, done) then [last] else []
  }

  lemma {:induction false} ReadyMembers(order: seq<Step>, done: set<string>)
    requires UniqueIds(order)
    ensures UniqueIds(ReadySteps(order, done))
    ensures forall s :: s in ReadySteps(order, done) <==> s in order && Ready(s, done)
  {
    if order != [] {
      var rest, last := order[..|order| - 1], order[|order| - 1];
      assert order == rest + [last];
      ReadyMembers(rest, done);
      assert forall s | s in ReadySteps(rest, done) :: s in rest && s.id != last.id;
    }
  }

  /** order.filter(...) */
  method FilterReady(order: seq<Step>, done: set<string>) returns (ready: seq<Step>)
    ensures ready == ReadySteps(order, done)
  {
    ready := [];
    for i := 0 to |order|
      invariant ready == ReadySteps(order[..i], done)
    {
      assert order[..i + 1][..i] == order[..i];
      if Ready(order[i], done) { ready := ready + [order[i]]; }
    }
    assert order[..|order|] == order;
  }

  /** Each batch is made of the first `cap` ready steps, or of all of them when there are fewer. */
  ghost predicate Greedy(order: seq<Step>, cap: nat, batches: seq<seq<Step>>) {
    forall b | 0 <= b < |batches| ::
      var ready := ReadySteps(order, Ids(Started(batches[..b])));
      batches[b] == if cap <= |ready| then ready[..cap] else ready
  }

  lemma GreedyNext(order: seq<Step>, cap: nat, batches: seq<seq<Step>>, ready: seq<Step>, batch: seq<Step>)
    requires Greedy(order, cap, batches) && ready == ReadySteps(order, Ids(Started(batches)))
    requires batch == if cap <= |ready| then ready[..cap] else ready
    ensures Greedy(order, cap, batches + [batch])
  {
    var longer := batches + [batch];
    hide ReadySteps, Started;
    forall b | 0 <= b < |longer| ensures longer[..b] == (if b < |batches| then batches[..b] else batches) {}
  }

  lemma {:induction false} ReadyIndex(order: seq<Step>, done: set<string>, k: nat) returns (p: nat)
    requires k < |ReadySteps(order, done)|
    ensures p < |order| && ReadySteps(order, done)[k] == order[p]
  {
    hide Ready;
    var init := order[..|order| - 1];
    if k < |ReadySteps(init, done)| { p := ReadyIndex(init, done, k); } else { p := |order| - 1; }
  }

  lemma {:induction false} ReadyAscends(order: seq<Step>, done: set<string>, i: nat, j: nat) returns (p: nat, q: nat)
    requires i < j < |ReadySteps(order, done)|
    ensures p < q < |order| && ReadySteps(order, done)[i] == order[p] && ReadySteps(order, done)[j] == order[q]
  {
    hide Ready;
    var init := order[..|order| - 1];
    if j < |ReadySteps(init, done)| {
      p, q := ReadyAscends(init, done, i, j);
    } else {
      p := ReadyIndex(init, done, i);
      q := |order| - 1;
    }
  }

  /** A step that could start with batch b: not started before, and everything it depends on was. */
  predicate Startable(batches: seq<seq<Step>>, b: nat, s: Step)
    requires b < |batches|
  {
    var before := Started(batches[..b]);
    (forall t | t in before :: t.id != s.id) && forall d | d in s.dependsOn :: exists t :: t in before && t.id == d
  }

  predicate StandsBefore(order: seq<Step>, t: Step, s: Step) {
    exists p, q :: 0 <= p < q < |order| && order[p] == t && order[q] == s
  }

  /**
   * No slot stays idle: a step that could start with a batch and does not finds the batch full
   * of steps that stand before it in the order. A batch follows the order.
   */
  ghost predicate Eager(order: seq<Step>, cap: nat, batches: seq<seq<Step>>) {
    && (forall b, s | 0 <= b < |batches| && s in order && Startable(batches, b, s) && s !in batches[b] ::
          |batches[b]| == cap && forall t | t in batches[b] :: StandsBefore(order, t, s))
    && (forall b, i, j | 0 <= b < |batches| && 0 <= i < j < |batches[b]| :: StandsBefore(order, batches[b][i], batches[b][j]))
  }

  lemma ReadyIsStartable(batches: seq<seq<Step>>, b: nat, s: Step)
    requires b < |batches|
    ensures Startable(batches, b, s) <==> Ready(s, Ids(Started(batches[..b])))
  {
    hide Started;
  }

  lemma ReadyStandsBefore(order: seq<Step>, done: set<string>, i: nat, j: nat)
    requires i < j < |ReadySteps(order, done)|
    ensures StandsBefore(order, ReadySteps(order, done)[i], ReadySteps(order, done)[j])
  {
    var p, q := ReadyAscends(order, done, i, j);
    hide ReadySteps;
  }

  lemma GreedyIsEager(order: seq<Step>, cap: nat, batches: seq<seq<Step>>)
    requires UniqueIds(order) && Greedy(order, cap, batches)
    ensures Eager(order, cap, batches)
  {
    forall b, s | 0 <= b < |batches| && s in order && Startable(batches, b, s) && s !in batches[b]
      ensures |batches[b]| == cap && forall t | t in batches[b] :: StandsBefore(order, t, s)
    {
      EagerBatch(order, cap, batches, b, s);
    }
    forall b, i, j | 0 <= b < |batches| && 0 <= i < j < |batches[b]| ensures StandsBefore(order, batches[b][i], batches[b][j]) {
      ReadyStandsBefore(order, Ids(Started(batches[..b])), i, j);
      hide ReadySteps, Started, StandsBefore;
    }
  }

  lemma EagerBatch(order: seq<Step>, cap: nat, batches: seq<seq<Step>>, b: nat, s: Step)
    requires UniqueIds(order) && Greedy(order, cap, batches) && b < |batches|
    requires s in order && Startable(batches, b, s) && s !in batches[b]
    ensures |batches[b]| == cap && forall t | t in batches[b] :: StandsBefore(order, t, s)
  {
    var done := Ids(Started(batches[..b]));
    var ready := ReadySteps(order, done);
    ReadyIsStartable(batches, b, s);
    ReadyMembers(order, done);
    hide ReadySteps, Started, StandsBefore, Startable, Ready;
    assert s in ready;
    var k :| 0 <= k < |ready| && ready[k] == s;
    assert cap <= k;
    forall i | 0 <= i < cap ensures StandsBefore(order, ready[i], s) { ReadyStandsBefore(order, done, i, k); }
  }

  /** While a step is not done, some step is ready: the first one in the order that is not done. */
  lemma {:induction false} SomethingIsReady(order: seq<Step>, done: set<string>, i: nat)
    requires DependenciesFirst(order) && i < |order| && order[i].id !in done
    ensures exists s :: s in order && Ready(s, done)
    decreases i
  {
    if !Ready(order[i], done) {
      var d :| d in order[i].dependsOn && d !in done;
      assert d in Ids(order[..i]);
      var j := Position(order[..i], d);
      SomethingIsReady(order, done, j);
    }
  }

  // ---- The batches --------------------------------------------------------

  /** The state map holds the outcome of every started step, and nothing is compensated yet. */
  ghost predicate Recorded(started: seq<Step>, attempt: Step -> Attempt, state: map<string, StepResult>) {
    && state.Keys == Ids(started)
    && forall s | s in started :: !attempt(s).Threw? && state[s.id] == StepResult(s.id, StatusOf(attempt(s)), None)
  }

  lemma RecordedNext(started: seq<Step>, batch: seq<Step>, i: nat, attempt: Step -> Attempt, state: map<string, StepResult>)
    requires i < |batch| && UniqueIds(started + batch) && Recorded(started + batch[..i], attempt, state)
    requires !attempt(batch[i]).Threw?
    ensures Recorded(started + batch[..i + 1], attempt,
              state[batch[i].id := StepResult(batch[i].id, StatusOf(attempt(batch[i])), None)])
  {
    var done := started + batch[..i];
    assert started + batch[..i + 1] == done + [batch[i]];
    assert forall k | 0 <= k < |done| :: done[k] == (started + batch)[k];
    assert (started + batch)[|done|] == batch[i];
    assert batch[i].id !in Ids(done);
  }

  lemma BadAttempt(a: Attempt)
    requires !a.Threw?
    ensures Good(a) <==> !(a.Ran? && a.outcome != Confirmed)
  {}

  /** The outcomes of one batch, once none of its promises rejected. */
  method RecordBatch(started: seq<Step>, batch: seq<Step>, attempt: Step -> Attempt, before: map<string, StepResult>)
    returns (state: map<string, StepResult>, failed: bool)
    requires UniqueIds(started + batch) && Recorded(started, attempt, before)
    requires forall s | s in batch :: !attempt(s).Threw?
    ensures Recorded(started + batch, attempt, state)
    ensures failed <==> exists s :: s in batch && !Good(attempt(s))
  {
    state, failed := before, false;
    hide *;
    assert started + batch[..0] == started;
    for i := 0 to |batch|
      invariant Recorded(started + batch[..i], attempt, state)
      invariant failed <==> exists k :: 0 <= k < i && !Good(attempt(batch[k]))
    {
      RecordedNext(started, batch, i, attempt, state);
      BadAttempt(attempt(batch[i]));
      state := state[batch[i].id := StepResult(batch[i].id, StatusOf(attempt(batch[i])), None)];
      if attempt(batch[i]).Ran? && attempt(batch[i]).outcome != Confirmed { failed := true; }
    }
    assert batch[..|batch|] == batch;
  }

  method RunBatches(steps: seq<Step>, order: seq<Step>, cap: nat, attempt: Step -> Attempt)
    returns (batches: seq<seq<Step>>, state: map<string, StepResult>, failed: bool, threw: bool)
    requires IsTopologicalOrder(order, steps) && cap >= 1
    ensures WellScheduled(steps, cap, attempt, batches) && Greedy(order, cap, batches)
    ensures threw <==> exists s :: s in Started(batches) && attempt(s).Threw?
    ensures !threw ==> Recorded(Started(batches), attempt, state)
    ensures !threw ==> (failed <==> exists s :: s in Started(batches) && !Good(attempt(s)))
    ensures !threw && !failed ==> forall s | s in steps :: s in Started(batches)
  {
    batches, state, failed, threw := [], map[], false, false;
    SameMembers(order, steps);
    while !failed
      invariant WellScheduled(steps, cap, attempt, batches) && Greedy(order, cap, batches)
      invariant Recorded(Started(batches), attempt, state)
      invariant failed <==> exists s :: s in Started(batches) && !Good(attempt(s))
      decreases !failed, |Ids(order) - Ids(Started(batches))|
    {
      var started := Started(batches);
      var ready := FilterReady(order, state.Keys);
      ReadyMembers(order, state.Keys);
      if ready == [] {
        AllStarted(order, started);
        break;
      }
      var batch := if cap <= |ready| then ready[..cap] else ready;
      BatchExtends(steps, order, cap, attempt, batches, ready, batch);
      GreedyNext(order, cap, batches, ready, batch);
      batches := batches + [batch];
      if exists s :: s in batch && attempt(s).Threw? { threw := true; return; }
      state, failed := RecordBatch(started, batch, attempt, state);
    }
  }

  lemma SameMembers(order: seq<Step>, steps: seq<Step>)
    requires multiset(order) == multiset(steps)
    ensures forall s :: s in order <==> s in steps
  {
    forall s ensures s in order <==> s in steps {
      assert s in order <==> s in multiset(order);
      assert s in steps <==> s in multiset(steps);
    }
  }

  lemma AllStarted(order: seq<Step>, started: seq<Step>)
    requires UniqueIds(order) && DependenciesFirst(order) && forall s | s in started :: s in order
    requires forall s | s in order :: !Ready(s, Ids(started))
    ensures forall s | s in order :: s in started
  {
    forall i | 0 <= i < |order| ensures order[i] in started {
      if order[i].id !in Ids(started) { SomethingIsReady(order, Ids(started), i); }
      var t :| t in started && t.id == order[i].id;
      var j :| 0 <= j < |order| && order[j] == t;
      assert i == j;
    }
  }

  /** The next batch extends the run and brings it closer to the end. */
  lemma BatchExtends(steps: seq<Step>, order: seq<Step>, cap: nat, attempt: Step -> Attempt,
                     batches: seq<seq<Step>>, ready: seq<Step>, batch: seq<Step>)
    requires WellScheduled(steps, cap, attempt, batches) && cap >= 1
    requires forall s | s in Started(batches) :: Good(attempt(s))
    requires forall s :: s in order <==> s in steps
    requires UniqueIds(ready) && ready != [] && forall s | s in ready :: s in order && Ready(s, Ids(Started(batches)))
    requires batch == if cap <= |ready| then ready[..cap] else ready
    ensures WellScheduled(steps, cap, attempt, batches + [batch])
    ensures Started(batches + [batch]) == Started(batches) + batch
    ensures |Ids(order) - Ids(Started(batches + [batch]))| < |Ids(order) - Ids(Started(batches))|
  {
    assert forall s | s in batch :: s in ready;
    ExtendRun(steps, cap, attempt, batches, batch);
    StartedSnoc(batches, batch);
    var left, left' := Ids(order) - Ids(Started(batches)), Ids(order) - Ids(Started(batches + [batch]));
    assert batch[0] in ready && batch[0].id in left && batch[0].id !in left';
    assert left' < left;
    SmallerSet(left', left);
  }

  lemma SmallerSet<T>(a: set<T>, b: set<T>)
    requires a < b
    ensures |a| < |b|
  {
    assert |b - a| > 0;
    assert b == a + (b - a);
  }

  // ---- Compensation -------------------------------------------------------

  /** A step whose compensation must run once the recipe has failed. */
  predicate Compensable(s: Step, started: seq<Step>, attempt: Step -> Attempt) {
    s in started && attempt(s) == Ran(Confirmed) && s.compensation.Some?
  }

  /** The compensable steps in reverse order. */
  function Rollback(order: seq<Step>, started: seq<Step>, attempt: Step -> Attempt): seq<Step> {
    if order == [] then []
    else
      var last := order[|order| - 1];
      (if Compensable(last, started, attempt) then [last] else []) + Rollback(order[..|order| - 1], started, attempt)
  }

  /** The compensations are exactly those of the confirmed steps that declare one, each once. */
  lemma {:induction false} RollbackExact(order: seq<Step>, started: seq<Step>, attempt: Step -> Attempt)
    requires UniqueIds(order)
    ensures UniqueIds(Rollback(order, started, attempt))
    ensures forall s :: s in Rollback(order, started, attempt) <==> s in order && Compensable(s, started, attempt)
  {
    if order != [] {
      var rest, last := order[..|order| - 1], order[|order| - 1];
      assert order == rest + [last];
      RollbackExact(rest, started, attempt);
      assert forall s | s in rest :: s.id != last.id;
      assert forall s | s in Rollback(rest, started, attempt) :: s.id != last.id;
    }
  }

  lemma {:induction false} RollbackIndex(order: seq<Step>, started: seq<Step>, attempt: Step -> Attempt, k: nat) returns (p: nat)
    requires k < |Rollback(order, started, attempt)|
    ensures p < |order| && Rollback(order, started, attempt)[k] == order[p]
  {
    hide Compensable;
    var n := |order| - 1;
    var shift := if Compensable(order[n], started, attempt) then 1 else 0;
    if k < shift { p := n; } else { p := RollbackIndex(order[..n], started, attempt, k - shift); }
  }

  /** What is compensated later stands earlier in the order. */
  lemma {:induction false} RollbackDescends(order: seq<Step>, started: seq<Step>, attempt: Step -> Attempt, i: nat, j: nat)
    returns (p: nat, q: nat)
    requires i < j < |Rollback(order, started, attempt)|
    ensures q < p < |order| && Rollback(order, started, attempt)[i] == order[p] && Rollback(order, started, attempt)[j] == order[q]
  {
    hide Compensable;
    var n := |order| - 1;
    var shift := if Compensable(order[n], started, attempt) then 1 else 0;
    if i < shift {
      p := n;
      q := RollbackIndex(order[..n], started, attempt, j - shift);
    } else {
      p, q := RollbackDescends(order[..n], started, attempt, i - shift, j - shift);
    }
  }

  lemma RollbackReverses(order: seq<Step>, started: seq<Step>, attempt: Step -> Attempt, i: nat, j: nat)
    requires UniqueIds(order) && i < j < |Rollback(order, started, attempt)|
    ensures var r := Rollback(order, started, attempt);
            r[i].id in Ids(order) && r[j].id in Ids(order) && Position(order, r[j].id) < Position(order, r[i].id)
  {
    var p, q := RollbackDescends(order, started, attempt, i, j);
    hide Rollback, Position, UniqueIds, Ids;
    PositionUnique(order, p);
    PositionUnique(order, q);
  }

  lemma PositionUnique(order: seq<Step>, i: nat)
    requires UniqueIds(order) && i < |order|
    ensures order[i].id in Ids(order) && Position(order, order[i].id) == i
  {
    FirstPosition(order, order[i].id, i);
  }

  /** path[0] depends on path[1], which depends on path[2], and so on. */
  ghost predicate IsDependencyPath(order: seq<Step>, path: seq<string>) {
    |path| >= 2 && forall k | 0 <= k < |path| - 1 :: HasEdge(order, path[k], path[k + 1])
  }

  lemma EarlierPosition(order: seq<Step>, i: nat, d: string)
    requires i <= |order| && d in Ids(order[..i])
    ensures d in Ids(order) && Position(order, d) < i
  {
    var p := Position(order[..i], d);
    assert order[..i][..p] == order[..p];
    FirstPosition(order, d, p);
  }

  lemma EdgePosition(order: seq<Step>, u: string, d: string)
    requires UniqueIds(order) && DependenciesFirst(order) && HasEdge(order, u, d)
    ensures u in Ids(order) && d in Ids(order) && Position(order, d) < Position(order, u)
  {
    var s :| s in order && s.id == u && d in s.dependsOn;
    var i :| 0 <= i < |order| && order[i] == s;
    assert d in Ids(order[..i]);
    PositionUnique(order, i);
    hide UniqueIds, DependenciesFirst, HasEdge, Position;
    EarlierPosition(order, i, d);
  }

  lemma {:induction false} PathPosition(order: seq<Step>, path: seq<string>)
    requires UniqueIds(order) && DependenciesFirst(order) && IsDependencyPath(order, path)
    ensures path[0] in Ids(order) && path[|path| - 1] in Ids(order)
    ensures Position(order, path[|path| - 1]) < Position(order, path[0])
    decreases |path|
  {
    EdgePosition(order, path[0], path[1]);
    if |path| > 2 { PathPosition(order, path[1..]); }
  }

  /** Whenever b depends, directly or not, on a, b is compensated before a. */
  lemma DependentsCompensatedFirst(order: seq<Step>, started: seq<Step>, attempt: Step -> Attempt,
                                   path: seq<string>, i: nat, j: nat)
    requires UniqueIds(order) && DependenciesFirst(order) && IsDependencyPath(order, path)
    requires var r := Rollback(order, started, attempt);
             i < |r| && j < |r| && r[i].id == path[0] && r[j].id == path[|path| - 1]
    ensures i < j
  {
    PathPosition(order, path);
    if j < i { RollbackReverses(order, started, attempt, j, i); }
  }

  // ---- The whole run ------------------------------------------------------

  /** Math.max(1, options.concurrency ?? recipe.concurrency ?? 1) */
  function Cap(override: Option<int>, declared: Option<int>): (cap: nat)
    ensures cap >= 1
    ensures override.Some? ==> cap >= override.value && (cap == 1 || cap == override.value)
    ensures override.None? && declared.Some? ==> cap >= declared.value && (cap == 1 || cap == declared.value)
    ensures override.None? && declared.None? ==> cap == 1
  {
    var c := Coalesce(override, Coalesce(declared, 1));
    if c < 1 then 1 else c
  }

  /** The entry of a started step in the final report. */
  function ResultFor(s: Step, failed: bool, attempt: Step -> Attempt, compensate: Step -> Option<ActionOutcome>): StepResult
    requires !attempt(s).Threw?
  {
    var undone := if failed && attempt(s) == Ran(Confirmed) && s.compensation.Some? && compensate(s).Some?
                  then Some((s.compensation.value, compensate(s).value)) else None;
    StepResult(s.id, StatusOf(attempt(s)), undone)
  }

  /** The state map once the compensations of `undone` have run. */
  ghost predicate Reported(started: seq<Step>, undone: seq<Step>, attempt: Step -> Attempt,
                           compensate: Step -> Option<ActionOutcome>, state: map<string, StepResult>) {
    && state.Keys == Ids(started)
    && forall s | s in started :: !attempt(s).Threw? && state[s.id] == ResultFor(s, s in undone, attempt, compensate)
  }

  /** Runs the compensations in reverse order until one throws. */
  method Compensate(order: seq<Step>, started: seq<Step>, attempt: Step -> Attempt,
                    compensate: Step -> Option<ActionOutcome>, before: map<string, StepResult>)
    returns (state: map<string, StepResult>, undone: seq<Step>, threw: bool)
    requires UniqueIds(order) && UniqueIds(started) && forall s | s in started :: s in order
    requires Recorded(started, attempt, before)
    ensures undone <= Rollback(order, started, attempt)
    ensures threw ==> undone != [] && compensate(undone[|undone| - 1]).None?
    ensures forall k | 0 <= k < |undone| - (if threw then 1 else 0) :: compensate(undone[k]).Some?
    ensures !threw ==> undone == Rollback(order, started, attempt)
    ensures !threw ==> Reported(started, undone, attempt, compensate, state)
  {
    state, undone, threw := before, [], false;
    var n: int := |order|;
    assert UndoneFrom(order, n, started, attempt, undone) by { assert order[..n] == order; }
    hide Rollback, Reported, Compensable, Recorded, ResultFor, UndoneFrom, UniqueIds;
    while n > 0
      invariant 0 <= n <= |order| && UndoneFrom(order, n, started, attempt, undone)
      invariant forall s | s in undone :: compensate(s).Some?
      invariant Reported(started, undone, attempt, compensate, state)
    {
      n := n - 1;
      var step := order[n];
      CompensationGuard(order, started, undone, attempt, compensate, state, step);
      UndoneNext(order, n, started, attempt, undone);
      if step.id in state && state[step.id].status == Finished(Confirmed) && step.compensation.Some? {
        undone := undone + [step];
        if compensate(step).None? { threw := true; break; }
        state := state[step.id := state[step.id].(compensation := Some((step.compensation.value, compensate(step).value)))];
      }
    }
    UndonePrefix(order, n, started, attempt, undone);
  }

  /** `undone` is the part of the rollback that concerns order[n..]. */
  ghost predicate UndoneFrom(order: seq<Step>, n: nat, started: seq<Step>, attempt: Step -> Attempt, undone: seq<Step>) {
    n <= |order| && Rollback(order, started, attempt) == undone + Rollback(order[..n], started, attempt)
  }

  lemma UndoneNext(order: seq<Step>, n: nat, started: seq<Step>, attempt: Step -> Attempt, undone: seq<Step>)
    requires n < |order| && UndoneFrom(order, n + 1, started, attempt, undone)
    ensures UndoneFrom(order, n, started, attempt,
              if Compensable(order[n], started, attempt) then undone + [order[n]] else undone)
  {
    assert order[..n + 1][..n] == order[..n];
    var rest := Rollback(order[..n], started, attempt);
    assert undone + ([order[n]] + rest) == (undone + [order[n]]) + rest;
    assert undone + ([] + rest) == undone + rest;
  }

  lemma UndonePrefix(order: seq<Step>, n: nat, started: seq<Step>, attempt: Step -> Attempt, undone: seq<Step>)
    requires UndoneFrom(order, n, started, attempt, undone)
    ensures undone <= Rollback(order, started, attempt)
    ensures n == 0 ==> undone == Rollback(order, started, attempt)
  {}

  /** The guard of the compensation loop holds exactly of the compensable steps. */
  lemma CompensationGuard(order: seq<Step>, started: seq<Step>, undone: seq<Step>, attempt: Step -> Attempt,
                          compensate: Step -> Option<ActionOutcome>, state: map<string, StepResult>, step: Step)
    requires UniqueIds(order) && forall s | s in started :: s in order
    requires step in order && Reported(started, undone, attempt, compensate, state)
    ensures Compensable(step, started, attempt)
       <==> step.id in state && state[step.id].status == Finished(Confirmed) && step.compensation.Some?
    ensures Compensable(step, started, attempt) && compensate(step).Some? ==>
      var entry := state[step.id].(compensation := Some((step.compensation.value, compensate(step).value)));
      Reported(started, undone + [step], attempt, compensate, state[step.id := entry])
  {
    if step.id in state {
      var t :| t in started && t.id == step.id;
      assert t == step;
    }
    forall s | s in started && s.id == step.id ensures s == step {}
  }

  /** order.map(id => state.get(id)).filter(defined) */
  function Report(order: seq<Step>, state: map<string, StepResult>): seq<StepResult> {
    if order == [] then []
    else
      var last := order[|order| - 1];
      Report(order[..|order| - 1], state) + if last.id in state then [state[last.id]] else []
  }

  predicate WentWell(r: StepResult) { r.status == Skipped || r.status == Finished(Confirmed) }

  /**
   * What a run of a well-formed recipe reports, from the steps it started: a rejected promise ends
   * the run at once with nothing compensated; otherwise `ok` says that every step of the recipe
   * ended confirmed or skipped, and if not, exactly the rollback has run.
   */
  ghost predicate RunOutcome(steps: seq<Step>, order: seq<Step>, started: seq<Step>, attempt: Step -> Attempt,
                             compensate: Step -> Option<ActionOutcome>,
                             r: Result<RecipeResult, RecipeError>, undone: seq<Step>) {
    var rollback := Rollback(order, started, attempt);
    if exists s :: s in started && attempt(s).Threw? then r == Err(ExecutionThrew) && undone == []
    else if forall s | s in steps :: s in started && Good(attempt(s)) then
      undone == [] && FinalReport(order, started, undone, attempt, compensate, r, true)
    else
      && (exists s :: s in started && !Good(attempt(s)))
      && (if forall s | s in rollback :: compensate(s).Some?
          then undone == rollback && FinalReport(order, started, undone, attempt, compensate, r, false)
          else r == Err(ExecutionThrew) && undone <= rollback && undone != [] && compensate(undone[|undone| - 1]).None?)
  }

  /** The entry of a started step: how it ended, and its compensation exactly when that has run. */
  predicate TellsOf(entry: StepResult, s: Step, undone: bool, attempt: Step -> Attempt, compensate: Step -> Option<ActionOutcome>) {
    && entry.stepId == s.id
    && (attempt(s).Skip? ==> entry.status == Skipped)
    && (attempt(s).Ran? ==> entry.status == Finished(attempt(s).outcome))
    && (entry.compensation.Some? <==> undone)
    && (undone ==> s.compensation.Some? && compensate(s).Some?
                   && entry.compensation.value == (s.compensation.value, compensate(s).value))
  }

  predicate HasEntry(entries: seq<StepResult>, s: Step, undone: bool, attempt: Step -> Attempt, compensate: Step -> Option<ActionOutcome>) {
    exists k :: 0 <= k < |entries| && TellsOf(entries[k], s, undone, attempt, compensate)
  }

  predicate IsOfStarted(entry: StepResult, started: seq<Step>, undone: seq<Step>, attempt: Step -> Attempt, compensate: Step -> Option<ActionOutcome>) {
    exists s :: s in started && TellsOf(entry, s, s in undone, attempt, compensate)
  }

  /** One entry for each started step and no other, in the topological order. */
  ghost predicate Entries(order: seq<Step>, started: seq<Step>, undone: seq<Step>, attempt: Step -> Attempt,
                          compensate: Step -> Option<ActionOutcome>, entries: seq<StepResult>) {
    && |entries| == |started|
    && (forall s | s in started :: HasEntry(entries, s, s in undone, attempt, compensate))
    && (forall k | 0 <= k < |entries| :: IsOfStarted(entries[k], started, undone, attempt, compensate))
    && (forall i, j | 0 <= i < j < |entries| :: IdsInOrder(order, entries[i].stepId, entries[j].stepId))
  }

  predicate IdsInOrder(order: seq<Step>, a: string, b: string) {
    exists p, q :: 0 <= p < q < |order| && order[p].id == a && order[q].id == b
  }

  /** The result of a run that ends without a throw. */
  ghost predicate FinalReport(order: seq<Step>, started: seq<Step>, undone: seq<Step>, attempt: Step -> Attempt,
                              compensate: Step -> Option<ActionOutcome>, r: Result<RecipeResult, RecipeError>, ok: bool) {
    && r.Ok? && r.value.ok == ok && (r.value.compensated <==> undone != [])
    && Entries(order, started, undone, attempt, compensate, r.value.steps)
  }

  // ---- The report ---------------------------------------------------------

  lemma AddedCount(a: set<string>, b: set<string>, x: string)
    requires x !in b
    ensures |a * (b + {x})| == |a * b| + if x in a then 1 else 0
  {
    assert a * (b + {x}) == a * b + if x in a then {x} else {};
  }

  lemma IdsSnoc(init: seq<Step>, last: Step)
    ensures Ids(init + [last]) == Ids(init) + {last.id}
  {}

  lemma {:induction false} ReportSize(order: seq<Step>, state: map<string, StepResult>)
    requires UniqueIds(order)
    ensures |Report(order, state)| == |state.Keys * Ids(order)|
  {
    if order == [] {
      assert state.Keys * Ids(order) == {};
    } else {
      var init, last := order[..|order| - 1], order[|order| - 1];
      assert order == init + [last] && last.id !in Ids(init);
      ReportSize(init, state);
      IdsSnoc(init, last);
      hide Ids, UniqueIds;
      AddedCount(state.Keys, Ids(init), last.id);
    }
  }

  lemma {:induction false} ReportHas(order: seq<Step>, state: map<string, StepResult>, p: nat) returns (k: nat)
    requires p < |order| && order[p].id in state
    ensures k < |Report(order, state)| && Report(order, state)[k] == state[order[p].id]
  {
    var init := order[..|order| - 1];
    if p < |order| - 1 { k := ReportHas(init, state, p); } else { k := |Report(init, state)|; }
  }

  lemma {:induction false} ReportIndex(order: seq<Step>, state: map<string, StepResult>, k: nat) returns (p: nat)
    requires k < |Report(order, state)|
    ensures p < |order| && order[p].id in state && Report(order, state)[k] == state[order[p].id]
  {
    var init := order[..|order| - 1];
    if k < |Report(init, state)| { p := ReportIndex(init, state, k); } else { p := |order| - 1; }
  }

  lemma {:induction false} ReportAscends(order: seq<Step>, state: map<string, StepResult>, i: nat, j: nat) returns (p: nat, q: nat)
    requires i < j < |Report(order, state)|
    ensures p < q < |order| && order[p].id in state && order[q].id in state
    ensures Report(order, state)[i] == state[order[p].id] && Report(order, state)[j] == state[order[q].id]
  {
    var init := order[..|order| - 1];
    if j < |Report(init, state)| {
      p, q := ReportAscends(init, state, i, j);
    } else {
      p := ReportIndex(init, state, i);
      q := |order| - 1;
    }
  }

  lemma EntryTells(started: seq<Step>, undone: seq<Step>, attempt: Step -> Attempt, compensate: Step -> Option<ActionOutcome>,
                   state: map<string, StepResult>, id: string) returns (s: Step)
    requires Reported(started, undone, attempt, compensate, state) && id in state && Undoable(undone, attempt, compensate)
    ensures id in state && s in started && s.id == id && TellsOf(state[id], s, s in undone, attempt, compensate)
  {
    s :| s in started && s.id == id;
  }

  predicate Undoable(undone: seq<Step>, attempt: Step -> Attempt, compensate: Step -> Option<ActionOutcome>) {
    forall s | s in undone :: attempt(s) == Ran(Confirmed) && s.compensation.Some? && compensate(s).Some?
  }

  lemma ReportTells(order: seq<Step>, started: seq<Step>, undone: seq<Step>, attempt: Step -> Attempt,
                    compensate: Step -> Option<ActionOutcome>, state: map<string, StepResult>)
    requires UniqueIds(order) && UniqueIds(started) && forall s | s in started :: s in order
    requires Reported(started, undone, attempt, compensate, state) && Undoable(undone, attempt, compensate)
    ensures Entries(order, started, undone, attempt, compensate, Report(order, state))
  {
    var entries := Report(order, state);
    ReportOfAll(order, started, undone, attempt, compensate, state);
    hide Report, Reported, TellsOf, HasEntry;
    forall s | s in started ensures HasEntry(entries, s, s in undone, attempt, compensate) {
      StepHasEntry(order, started, undone, attempt, compensate, state, s);
    }
    forall k | 0 <= k < |entries| ensures IsOfStarted(entries[k], started, undone, attempt, compensate) {
      var p := ReportIndex(order, state, k);
      var s := EntryTells(started, undone, attempt, compensate, state, order[p].id);
    }
    hide IsOfStarted;
    forall i, j | 0 <= i < j < |entries| ensures IdsInOrder(order, entries[i].stepId, entries[j].stepId) {
      EntriesAscend(order, started, undone, attempt, compensate, state, i, j);
    }
  }

  lemma ReportOfAll(order: seq<Step>, started: seq<Step>, undone: seq<Step>, attempt: Step -> Attempt,
                    compensate: Step -> Option<ActionOutcome>, state: map<string, StepResult>)
    requires UniqueIds(order) && UniqueIds(started) && forall s | s in started :: s in order
    requires Reported(started, undone, attempt, compensate, state)
    ensures |Report(order, state)| == |started|
  {
    assert state.Keys * Ids(order) == Ids(started);
    hide Report, Reported, Ids;
    ReportSize(order, state);
    IdsCount(started);
  }

  lemma StepHasEntry(order: seq<Step>, started: seq<Step>, undone: seq<Step>, attempt: Step -> Attempt,
                     compensate: Step -> Option<ActionOutcome>, state: map<string, StepResult>, s: Step)
    requires UniqueIds(started) && s in started && s in order
    requires Reported(started, undone, attempt, compensate, state) && Undoable(undone, attempt, compensate)
    ensures HasEntry(Report(order, state), s, s in undone, attempt, compensate)
  {
    var t := EntryTells(started, undone, attempt, compensate, state, s.id);
    SameStep(started, s, t);
    hide Report, Reported, TellsOf, UniqueIds;
    var p :| 0 <= p < |order| && order[p] == s;
    var k := ReportHas(order, state, p);
  }

  lemma EntriesAscend(order: seq<Step>, started: seq<Step>, undone: seq<Step>, attempt: Step -> Attempt,
                      compensate: Step -> Option<ActionOutcome>, state: map<string, StepResult>, i: nat, j: nat)
    requires Reported(started, undone, attempt, compensate, state) && Undoable(undone, attempt, compensate) && i < j < |Report(order, state)|
    ensures IdsInOrder(order, Report(order, state)[i].stepId, Report(order, state)[j].stepId)
  {
    hide Report, Reported;
    var p, q := ReportAscends(order, state, i, j);
    var s := EntryTells(started, undone, attempt, compensate, state, order[p].id);
    var t := EntryTells(started, undone, attempt, compensate, state, order[q].id);
  }

  lemma SameStep(steps: seq<Step>, s: Step, t: Step)
    requires UniqueIds(steps) && s in steps && t in steps && s.id == t.id
    ensures s == t
  {}

  /**
   * executeRecipe. `order`, `batches` and `undone` are what can be observed of the run: the
   * topological order, the steps started batch by batch, and the steps whose compensation was started.
   */
  method ExecuteRecipe(steps: seq<Step>, override: Option<int>, declared: Option<int>,
                       attempt: Step -> Attempt, compensate: Step -> Option<ActionOutcome>)
    returns (r: Result<RecipeResult, RecipeError>, order: seq<Step>, batches: seq<seq<Step>>, undone: seq<Step>)
    ensures UniqueIds(steps) && KnownDependencies(steps) && Acyclic(steps) ==>
      && IsTopologicalOrder(order, steps) && ByArrival(steps, order, order)
      && WellScheduled(steps, Cap(override, declared), attempt, batches)
      && Eager(order, Cap(override, declared), batches)
      && RunOutcome(steps, order, Started(batches), attempt, compensate, r, undone)
    ensures !(UniqueIds(steps) && KnownDependencies(steps) && Acyclic(steps)) ==>
      r.Err? && NamesFault(steps, r.error) && batches == [] && undone == []
  {
    hide Acyclic, IsTopologicalOrder, ByArrival, NamesFault, WellScheduled, Greedy, Eager, Rollback, Reported, Report, Recorded, RunOutcome;
    order, batches, undone := [], [], [];
    var sorted := OrderSteps(steps);
    if sorted.Err? { return Err(sorted.error), order, batches, undone; }
    order := sorted.value;
    var state, failed, threw;
    batches, state, failed, threw := RunBatches(steps, order, Cap(override, declared), attempt);
    var started := Started(batches);
    RunShape(steps, order, Cap(override, declared), attempt, batches);
    GreedyIsEager(order, Cap(override, declared), batches);
    if threw {
      assert RunOutcome(steps, order, started, attempt, compensate, Err(ExecutionThrew), undone) by { RejectedBatch(steps, order, started, attempt, compensate); }
      return Err(ExecutionThrew), order, batches, undone;
    }
    if failed {
      state, undone, threw := Compensate(order, started, attempt, compensate, state);
      FailedRun(steps, order, started, attempt, compensate, undone, threw, state);
      if threw { return Err(ExecutionThrew), order, batches, undone; }
    } else {
      CleanRun(steps, order, started, attempt, compensate, state);
    }
    var results := Report(order, state);
    var ok := !failed && forall s | s in results :: WentWell(s);
    r := Ok(RecipeResult(ok, results, undone != []));
  }

  lemma RunShape(steps: seq<Step>, order: seq<Step>, cap: nat, attempt: Step -> Attempt, batches: seq<seq<Step>>)
    requires IsTopologicalOrder(order, steps) && WellScheduled(steps, cap, attempt, batches)
    ensures UniqueIds(order) && UniqueIds(Started(batches)) && forall s | s in Started(batches) :: s in order
  {
    SameMembers(order, steps);
  }

  lemma RejectedBatch(steps: seq<Step>, order: seq<Step>, started: seq<Step>, attempt: Step -> Attempt, compensate: Step -> Option<ActionOutcome>)
    requires exists s :: s in started && attempt(s).Threw?
    ensures RunOutcome(steps, order, started, attempt, compensate, Err(ExecutionThrew), [])
  {}

  lemma CleanRun(steps: seq<Step>, order: seq<Step>, started: seq<Step>, attempt: Step -> Attempt,
                 compensate: Step -> Option<ActionOutcome>, state: map<string, StepResult>)
    requires UniqueIds(order) && UniqueIds(started) && forall s | s in started :: s in order
    requires Recorded(started, attempt, state)
    requires forall s | s in started :: Good(attempt(s))
    requires forall s | s in steps :: s in started
    ensures forall r | r in Report(order, state) :: WentWell(r)
    ensures RunOutcome(steps, order, started, attempt, compensate, Ok(RecipeResult(true, Report(order, state), false)), [])
  {
    assert Reported(started, [], attempt, compensate, state);
    ReportWentWell(order, started, [], attempt, compensate, state);
    ReportTells(order, started, [], attempt, compensate, state);
    hide Rollback, Report, Entries;
    assert FinalReport(order, started, [], attempt, compensate, Ok(RecipeResult(true, Report(order, state), false)), true);
  }

  lemma FailedRun(steps: seq<Step>, order: seq<Step>, started: seq<Step>, attempt: Step -> Attempt,
                  compensate: Step -> Option<ActionOutcome>, undone: seq<Step>, threw: bool, state: map<string, StepResult>)
    requires UniqueIds(order) && UniqueIds(started) && forall s | s in started :: s in order
    requires forall s | s in started :: s in steps && !attempt(s).Threw?
    requires exists s :: s in started && !Good(attempt(s))
    requires undone <= Rollback(order, started, attempt)
    requires threw ==> undone != [] && compensate(undone[|undone| - 1]).None?
    requires forall k | 0 <= k < |undone| - (if threw then 1 else 0) :: compensate(undone[k]).Some?
    requires !threw ==> undone == Rollback(order, started, attempt)
    requires !threw ==> Reported(started, undone, attempt, compensate, state)
    ensures RunOutcome(steps, order, started, attempt, compensate,
              if threw then Err(ExecutionThrew) else Ok(RecipeResult(false, Report(order, state), undone != [])), undone)
  {
    var rollback := Rollback(order, started, attempt);
    if threw {
      hide Rollback, Report, Reported, FinalReport;
      assert undone[|undone| - 1] == rollback[|undone| - 1] && rollback[|undone| - 1] in rollback;
    } else {
      CompensatedReport(order, started, attempt, compensate, undone, state);
      hide Rollback, Report, Reported, FinalReport;
      assert forall s | s in rollback :: compensate(s).Some?;
    }
  }

  lemma CompensatedReport(order: seq<Step>, started: seq<Step>, attempt: Step -> Attempt,
                          compensate: Step -> Option<ActionOutcome>, undone: seq<Step>, state: map<string, StepResult>)
    requires UniqueIds(order) && UniqueIds(started) && forall s | s in started :: s in order
    requires Reported(started, undone, attempt, compensate, state)
    requires undone == Rollback(order, started, attempt) && forall k | 0 <= k < |undone| :: compensate(undone[k]).Some?
    ensures FinalReport(order, started, undone, attempt, compensate, Ok(RecipeResult(false, Report(order, state), undone != [])), false)
  {
    RollbackExact(order, started, attempt);
    hide Rollback, Report, Reported, Entries, UniqueIds;
    ReportTells(order, started, undone, attempt, compensate, state);
  }

  /** `steps.every(confirmed or skipped)` is about all the started steps. */
  lemma {:induction false} ReportWentWell(order: seq<Step>, started: seq<Step>, undone: seq<Step>, attempt: Step -> Attempt,
                       compensate: Step -> Option<ActionOutcome>, state: map<string, StepResult>)
    requires Reported(started, undone, attempt, compensate, state)
    requires forall s | s in started :: Good(attempt(s))
    ensures forall r | r in Report(order, state) :: WentWell(r)
  {
    if order != [] {
      var last := order[|order| - 1];
      ReportWentWell(order[..|order| - 1], started, undone, attempt, compensate, state);
      if last.id in state {
        var t :| t in started && t.id == last.id;
      }
    }
  }
}
