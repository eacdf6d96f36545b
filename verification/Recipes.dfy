/** Recipes: the dependency graph of steps and its topological sort (orderSteps). */
module Recipes {
  import opened Outcomes

  /** `compensation` names the compensating step, when the step declares one. */
  datatype Step = Step(id: string, dependsOn: seq<string>, compensation: Option<string>)

  datatype RecipeError =
    | DuplicateStep(id: string)
    | UnknownDependency(id: string, dep: string)
    | DependencyCycle
    | ExecutionThrew

  function Ids(steps: seq<Step>): set<string> { set s | s in steps :: s.id }

  predicate UniqueIds(steps: seq<Step>) {
    forall i, j | 0 <= i < j < |steps| :: steps[i].id != steps[j].id
  }

  predicate KnownDependencies(steps: seq<Step>) {
    forall s, d | s in steps && d in s.dependsOn :: d in Ids(steps)
  }

  /** A rank that strictly decreases along every dependency. */
  ghost predicate Ranks(steps: seq<Step>, rank: map<string, nat>) {
    forall s, d | s in steps && d in s.dependsOn :: s.id in rank && d in rank && rank[d] < rank[s.id]
  }

  ghost predicate Acyclic(steps: seq<Step>) { exists rank :: Ranks(steps, rank) }

  /** Every step comes after all the steps it depends on. */
  predicate DependenciesFirst(order: seq<Step>) {
    forall i, d | 0 <= i < |order| && d in order[i].dependsOn :: d in Ids(order[..i])
  }

  ghost predicate IsTopologicalOrder(order: seq<Step>, steps: seq<Step>) {
    multiset(order) == multiset(steps) && UniqueIds(order) && DependenciesFirst(order)
  }

  /** How many entries of a dependsOn list are not done yet; repeated entries count each time. */
  function Pending(deps: seq<string>, done: set<string>): nat {
    if deps == [] then 0
    else Pending(deps[..|deps| - 1], done) + if deps[|deps| - 1] in done then 0 else 1
  }

  // ---- Counting lemmas ----------------------------------------------------

  lemma {:induction false} PendingAfter(deps: seq<string>, done: set<string>, x: string)
    requires x !in done
    ensures Pending(deps, done) == Pending(deps, done + {x}) + multiset(deps)[x]
  {
    if deps != [] {
      PendingAfter(deps[..|deps| - 1], done, x);
      assert deps == deps[..|deps| - 1] + [deps[|deps| - 1]];
    }
  }

  lemma {:induction false} PendingZero(deps: seq<string>, done: set<string>)
    ensures Pending(deps, done) == 0 <==> forall d | d in deps :: d in done
    ensures done == {} ==> Pending(deps, done) == |deps|
  {
    if deps != [] {
      PendingZero(deps[..|deps| - 1], done);
      assert deps == deps[..|deps| - 1] + [deps[|deps| - 1]];
    }
  }

  lemma {:induction false} IdsCount(steps: seq<Step>)
    requires UniqueIds(steps)
    ensures |Ids(steps)| == |steps|
  {
    if steps != [] {
      var rest, last := steps[..|steps| - 1], steps[|steps| - 1];
      IdsCount(rest);
      assert Ids(steps) == Ids(rest) + {last.id};
      assert last.id !in Ids(rest);
    }
  }

  lemma {:induction false} UniqueMultiplicity(steps: seq<Step>, s: Step)
    requires UniqueIds(steps)
    ensures multiset(steps)[s] == if s in steps then 1 else 0
  {
    if steps != [] {
      var rest, last := steps[..|steps| - 1], steps[|steps| - 1];
      assert steps == rest + [last];
      UniqueMultiplicity(rest, s);
    }
  }

  /** A selection of all the steps, each once, is a permutation of them. */
  lemma CompleteSelection(order: seq<Step>, steps: seq<Step>)
    requires UniqueIds(order) && UniqueIds(steps) && |order| == |steps|
    requires forall s | s in order :: s in steps
    ensures multiset(order) == multiset(steps) && Ids(order) == Ids(steps)
  {
    IdsCount(order);
    IdsCount(steps);
    SubsetOfSameSize(Ids(order), Ids(steps));
    forall s ensures multiset(order)[s] == multiset(steps)[s] {
      UniqueMultiplicity(order, s);
      UniqueMultiplicity(steps, s);
      if s in steps {
        assert s.id in Ids(order);
        var t :| t in order && t.id == s.id;
        assert t == s;
      }
    }
  }

  lemma SubsetOfSameSize<T>(a: set<T>, b: set<T>)
    requires a <= b && |a| == |b|
    ensures a == b
  {
    assert |b - a| == 0;
  }

  // ---- Acyclicity ---------------------------------------------------------

  /** A topological order is a rank. */
  lemma OrderGivesRank(order: seq<Step>, steps: seq<Step>)
    requires IsTopologicalOrder(order, steps)
    ensures Acyclic(steps)
  {
    var rank := map id | id in Ids(order) :: Position(order, id);
    forall s, d | s in steps && d in s.dependsOn
      ensures s.id in rank && d in rank && rank[d] < rank[s.id]
    {
      assert s in multiset(steps);
      assert s in order;
      var i := Position(order, s.id);
      assert order[i] == s;
      assert d in Ids(order[..i]);
      var t :| t in order[..i] && t.id == d;
    }
    assert Ranks(steps, rank);
  }

  function Position(order: seq<Step>, id: string): (i: nat)
    requires id in Ids(order)
    ensures i < |order| && order[i].id == id && id !in Ids(order[..i])
  {
    if order[0].id == id then 0
    else
      assert order == [order[0]] + order[1..];
      var i := 1 + Position(order[1..], id);
      assert order[..i] == [order[0]] + order[1..][..i - 1];
      i
  }

  /** The step named u lists d among its dependencies. */
  ghost predicate HasEdge(steps: seq<Step>, u: string, d: string) {
    exists s :: s in steps && s.id == u && d in s.dependsOn
  }

  ghost predicate WaitsIn(steps: seq<Step>, stuck: set<string>, u: string) {
    exists d :: d in stuck && HasEdge(steps, u, d)
  }

  /** Every member waits for a member. */
  ghost predicate Stuck(steps: seq<Step>, stuck: set<string>) {
    forall u {:trigger WaitsIn(steps, stuck, u)} | u in stuck :: WaitsIn(steps, stuck, u)
  }

  /** A non-empty set of steps that each wait for one of the set rules out any rank. */
  lemma StuckMeansCyclic(steps: seq<Step>, stuck: set<string>, u: string)
    requires u in stuck && Stuck(steps, stuck)
    ensures !Acyclic(steps)
  {
    if Acyclic(steps) {
      var rank :| Ranks(steps, rank);
      Descend(steps, stuck, rank, u);
    }
  }

  lemma {:induction false} Descend(steps: seq<Step>, stuck: set<string>, rank: map<string, nat>, u: string)
    requires u in stuck && Ranks(steps, rank) && Stuck(steps, stuck)
    ensures false
    decreases if u in rank then rank[u] else 0
  {
    assert WaitsIn(steps, stuck, u);
    var d :| d in stuck && HasEdge(steps, u, d);
    Descend(steps, stuck, rank, d);
  }

  // ---- Faults and the order of arrival ------------------------------------

  /** The first step that repeats an id. */
  predicate FirstRepeated(steps: seq<Step>, i: nat, id: string) {
    i < |steps| && steps[i].id == id && UniqueIds(steps[..i]) && id in Ids(steps[..i])
  }

  /** The first entry, of the first step that has one, that names no step. */
  predicate FirstUnknown(steps: seq<Step>, i: nat, k: nat, id: string, dep: string) {
    && i < |steps| && k < |steps[i].dependsOn| && steps[i].id == id && steps[i].dependsOn[k] == dep && dep !in Ids(steps)
    && (forall d | d in steps[i].dependsOn[..k] :: d in Ids(steps))
    && forall j, d | 0 <= j < i && d in steps[j].dependsOn :: d in Ids(steps)
  }

  /** The error names what is wrong, and it is what is found first. */
  ghost predicate NamesFault(steps: seq<Step>, e: RecipeError) {
    match e
    case DuplicateStep(id) => exists i :: 0 <= i < |steps| && FirstRepeated(steps, i, id)
    case UnknownDependency(id, dep) =>
      UniqueIds(steps) && exists i, k :: 0 <= i < |steps| && 0 <= k < |steps[i].dependsOn| && FirstUnknown(steps, i, k, id, dep)
    case DependencyCycle => UniqueIds(steps) && KnownDependencies(steps) && !Acyclic(steps)
    case ExecutionThrew => false
  }

  /** Where the id stands in the list. */
  function Stands(steps: seq<Step>, id: string): (i: int)
    ensures id in Ids(steps) ==> 0 <= i < |steps| && steps[i].id == id
  {
    if id in Ids(steps) then Position(steps, id) else -1
  }

  /** How many steps of the order are finished when the last of the dependencies is. */
  function DoneAfter(order: seq<Step>, deps: seq<string>): (n: nat)
    ensures n <= |order|
  {
    if deps == [] then 0
    else
      var before, last := DoneAfter(order, deps[..|deps| - 1]), Stands(order, deps[|deps| - 1]) + 1;
      if last > before then last else before
  }

  /** s is free to go before t is, or both are with the same step and s is listed before t. */
  predicate ArrivesBefore(steps: seq<Step>, order: seq<Step>, s: Step, t: Step) {
    var a, b := DoneAfter(order, s.dependsOn), DoneAfter(order, t.dependsOn);
    a < b || (a == b && Stands(steps, s.id) < Stands(steps, t.id))
  }

  /** First come, first served: the order is the order in which the steps become free. */
  predicate ByArrival(steps: seq<Step>, order: seq<Step>, list: seq<Step>) {
    forall p, q | 0 <= p < q < |list| :: ArrivesBefore(steps, order, list[p], list[q])
  }

  lemma FirstPosition(order: seq<Step>, id: string, i: nat)
    requires i < |order| && order[i].id == id && id !in Ids(order[..i])
    ensures id in Ids(order) && Position(order, id) == i
  {
    assert order[i] in order;
    var p := Position(order, id);
    assert i <= p by { assert forall k | 0 <= k < i :: order[k] in order[..i]; }
    assert p <= i by { assert forall k | 0 <= k < p :: order[k] in order[..p]; }
  }

  lemma StandsAt(steps: seq<Step>, i: nat)
    requires UniqueIds(steps) && i < |steps|
    ensures Stands(steps, steps[i].id) == i
  {
    FirstPosition(steps, steps[i].id, i);
  }

  lemma StandsKept(order: seq<Step>, more: seq<Step>, id: string)
    requires id in Ids(order)
    ensures Stands(order + more, id) == Stands(order, id)
  {
    var i := Position(order, id);
    assert (order + more)[..i] == order[..i];
    FirstPosition(order + more, id, i);
  }

  lemma {:induction false} DoneKept(order: seq<Step>, more: seq<Step>, deps: seq<string>)
    requires forall d | d in deps :: d in Ids(order)
    ensures DoneAfter(order + more, deps) == DoneAfter(order, deps)
  {
    hide Stands;
    if deps != [] {
      DoneKept(order, more, deps[..|deps| - 1]);
      StandsKept(order, more, deps[|deps| - 1]);
    }
  }

  /** A step that waited for the one finished last is free exactly then. */
  lemma {:induction false} DoneWithLast(order: seq<Step>, last: Step, deps: seq<string>)
    requires last.id in deps && last.id !in Ids(order)
    ensures DoneAfter(order + [last], deps) == |order| + 1
  {
    var n := |deps| - 1;
    if deps[n] == last.id {
      LastStands(order, last);
    } else {
      DoneWithLast(order, last, deps[..n]);
    }
  }

  lemma LastStands(order: seq<Step>, last: Step)
    requires last.id !in Ids(order)
    ensures Stands(order + [last], last.id) == |order|
  {
    assert (order + [last])[..|order|] == order;
    FirstPosition(order + [last], last.id, |order|);
  }

  // ---- orderSteps ---------------------------------------------------------

  /** The id and dependency checks that precede the sort. */
  method CheckSteps(steps: seq<Step>) returns (r: Result<map<string, Step>, RecipeError>)
    ensures r.Ok? <==> UniqueIds(steps) && KnownDependencies(steps)
    ensures r.Ok? ==> Indexes(r.value, steps)
    ensures r.Err? ==> !r.error.DependencyCycle? && NamesFault(steps, r.error)
  {
    hide NamesFault;
    var byId: map<string, Step> := map[];
    for i := 0 to |steps|
      invariant UniqueIds(steps[..i]) && Indexes(byId, steps[..i])
    {
      assert steps[..i + 1] == steps[..i] + [steps[i]];
      if steps[i].id in byId {
        RepeatedFound(steps, i);
        return Err(DuplicateStep(steps[i].id));
      }
      byId := byId[steps[i].id := steps[i]];
    }
    assert steps[..|steps|] == steps;
    for i := 0 to |steps|
      invariant forall k, d | 0 <= k < i && d in steps[k].dependsOn :: d in byId
    {
      for j := 0 to |steps[i].dependsOn|
        invariant forall d | d in steps[i].dependsOn[..j] :: d in byId
      {
        if steps[i].dependsOn[j] !in byId {
          UnknownFound(steps, i, j);
          return Err(UnknownDependency(steps[i].id, steps[i].dependsOn[j]));
        }
      }
      assert steps[i].dependsOn[..|steps[i].dependsOn|] == steps[i].dependsOn;
    }
    return Ok(byId);
  }

  lemma RepeatedFound(steps: seq<Step>, i: nat)
    requires i < |steps| && UniqueIds(steps[..i]) && steps[i].id in Ids(steps[..i])
    ensures !UniqueIds(steps) && NamesFault(steps, DuplicateStep(steps[i].id))
  {
    var t :| t in steps[..i] && t.id == steps[i].id;
    assert FirstRepeated(steps, i, steps[i].id);
    hide Acyclic;
  }

  lemma UnknownFound(steps: seq<Step>, i: nat, j: nat)
    requires UniqueIds(steps) && i < |steps| && j < |steps[i].dependsOn| && steps[i].dependsOn[j] !in Ids(steps)
    requires forall d | d in steps[i].dependsOn[..j] :: d in Ids(steps)
    requires forall k, d | 0 <= k < i && d in steps[k].dependsOn :: d in Ids(steps)
    ensures !KnownDependencies(steps) && NamesFault(steps, UnknownDependency(steps[i].id, steps[i].dependsOn[j]))
  {
    assert FirstUnknown(steps, i, j, steps[i].id, steps[i].dependsOn[j]);
    hide Acyclic, UniqueIds;
  }

  function Dependents(dependents: map<string, seq<string>>, dep: string): seq<string> {
    if dep in dependents then dependents[dep] else []
  }

  function Count(list: seq<string>, x: string): nat { multiset(list)[x] }

  lemma CountSnoc(list: seq<string>, y: string, x: string)
    ensures Count(list + [y], x) == Count(list, x) + if x == y then 1 else 0
    ensures x in list <==> Count(list, x) > 0
  {}

  /** `after` lists id once more under each entry of deps. */
  ghost predicate Extends(before: map<string, seq<string>>, after: map<string, seq<string>>, id: string, deps: seq<string>) {
    forall dep, x :: Count(Dependents(after, dep), x)
                     == Count(Dependents(before, dep), x) + if x == id then Count(deps, dep) else 0
  }

  lemma ExtendsNext(before: map<string, seq<string>>, after: map<string, seq<string>>, id: string, deps: seq<string>, next: string)
    requires Extends(before, after, id, deps)
    ensures Extends(before, after[next := Dependents(after, next) + [id]], id, deps + [next])
  {
    var longer := after[next := Dependents(after, next) + [id]];
    forall dep, x
      ensures Count(Dependents(longer, dep), x)
           == Count(Dependents(before, dep), x) + if x == id then Count(deps + [next], dep) else 0
    {
      CountSnoc(deps, next, dep);
      CountSnoc(Dependents(after, next), id, x);
      hide Count;
      assert Dependents(longer, dep) == if dep == next then Dependents(after, next) + [id] else Dependents(after, dep);
    }
  }

  /** Every list of `after` is that of `before` with id at the end, any number of times. */
  ghost predicate Lengthens(before: map<string, seq<string>>, after: map<string, seq<string>>, id: string) {
    forall dep :: LongerList(Dependents(before, dep), Dependents(after, dep), id)
  }

  predicate LongerList(list: seq<string>, longer: seq<string>, id: string) {
    |list| <= |longer| && longer[..|list|] == list && forall k | |list| <= k < |longer| :: longer[k] == id
  }

  /** The listed ids follow the order of the steps. */
  predicate Ascends(steps: seq<Step>, ids: seq<string>) {
    forall a, b | 0 <= a < b < |ids| :: Stands(steps, ids[a]) <= Stands(steps, ids[b])
  }

  ghost predicate AllAscend(steps: seq<Step>, dependents: map<string, seq<string>>) {
    forall dep :: Ascends(steps, Dependents(dependents, dep))
  }

  /** Entering the step at i keeps the lists ascending. */
  lemma EnteredAscends(steps: seq<Step>, before: map<string, seq<string>>, after: map<string, seq<string>>, i: nat)
    requires UniqueIds(steps) && i < |steps| && AllAscend(steps, before) && Lengthens(before, after, steps[i].id)
    requires forall dep, id | id in Dependents(before, dep) :: id in Ids(steps[..i])
    ensures AllAscend(steps, after)
  {
    hide Stands, Dependents;
    StandsAt(steps, i);
    forall dep ensures Ascends(steps, Dependents(after, dep)) {
      var list, longer := Dependents(before, dep), Dependents(after, dep);
      assert Ascends(steps, list) && LongerList(list, longer, steps[i].id);
      forall k | 0 <= k < |list| ensures longer[k] == list[k] && Stands(steps, list[k]) <= i {
        assert longer[..|list|][k] == longer[k];
        StandsEarly(steps, i, list[k]);
      }
    }
  }

  lemma StandsEarly(steps: seq<Step>, i: nat, id: string)
    requires UniqueIds(steps) && i <= |steps| && id in Ids(steps[..i])
    ensures Stands(steps, id) < i
  {
    var t :| t in steps[..i] && t.id == id;
    var j :| 0 <= j < i && steps[j] == t;
    StandsAt(steps, j);
  }

  /** A step is listed as a dependent once per dependsOn entry that names the dependency. */
  method AddDependents(before: map<string, seq<string>>, step: Step) returns (after: map<string, seq<string>>)
    ensures Extends(before, after, step.id, step.dependsOn) && Lengthens(before, after, step.id)
  {
    after := before;
    NothingListed(before, step.id, step.dependsOn);
    hide *;
    for j := 0 to |step.dependsOn|
      invariant Extends(before, after, step.id, step.dependsOn[..j]) && Lengthens(before, after, step.id)
    {
      var dep := step.dependsOn[j];
      ExtendsNext(before, after, step.id, step.dependsOn[..j], dep);
      LengthensNext(before, after, step.id, dep);
      assert step.dependsOn[..j + 1] == step.dependsOn[..j] + [dep];
      after := after[dep := Dependents(after, dep) + [step.id]];
    }
    assert step.dependsOn[..|step.dependsOn|] == step.dependsOn;
  }

  lemma NothingListed(before: map<string, seq<string>>, id: string, deps: seq<string>)
    ensures Extends(before, before, id, deps[..0]) && Lengthens(before, before, id)
  {
    CountEmpty(deps);
    forall dep ensures LongerList(Dependents(before, dep), Dependents(before, dep), id) {
      assert Dependents(before, dep)[..|Dependents(before, dep)|] == Dependents(before, dep);
    }
  }

  lemma LongerNext(list: seq<string>, longer: seq<string>, id: string)
    requires LongerList(list, longer, id)
    ensures LongerList(list, longer + [id], id)
  {
    assert (longer + [id])[..|list|] == longer[..|list|];
  }

  lemma LengthensNext(before: map<string, seq<string>>, after: map<string, seq<string>>, id: string, next: string)
    requires Lengthens(before, after, id)
    ensures Lengthens(before, after[next := Dependents(after, next) + [id]], id)
  {
    hide LongerList;
    var longer := after[next := Dependents(after, next) + [id]];
    forall dep ensures LongerList(Dependents(before, dep), Dependents(longer, dep), id) {
      LongerNext(Dependents(before, dep), Dependents(after, dep), id);
    }
  }

  /** What the in-degree and dependents maps hold once the first `steps` are entered. */
  ghost predicate GraphOf(steps: seq<Step>, indegree: map<string, int>, dependents: map<string, seq<string>>) {
    && indegree.Keys == Ids(steps)
    && (forall s | s in steps :: indegree[s.id] == |s.dependsOn|)
    && GraphShape(steps, dependents)
  }

  ghost predicate GraphShape(steps: seq<Step>, dependents: map<string, seq<string>>) {
    && (forall s, dep | s in steps :: Count(Dependents(dependents, dep), s.id) == Count(s.dependsOn, dep))
    && (forall dep, id | id !in Ids(steps) :: Count(Dependents(dependents, dep), id) == 0)
  }

  lemma ListedSoFar(steps: seq<Step>, dependents: map<string, seq<string>>)
    requires GraphShape(steps, dependents)
    ensures forall dep, id | id in Dependents(dependents, dep) :: id in Ids(steps)
  {
    forall dep, id | id in Dependents(dependents, dep) ensures id in Ids(steps) { assert Count(Dependents(dependents, dep), id) > 0; }
  }

  method BuildGraph(steps: seq<Step>)
    returns (indegree: map<string, int>, dependents: map<string, seq<string>>)
    requires UniqueIds(steps)
    ensures GraphOf(steps, indegree, dependents) && AllAscend(steps, dependents)
  {
    indegree, dependents := map[], map[];
    EmptyGraph(steps);
    hide *;
    for i := 0 to |steps|
      invariant GraphOf(steps[..i], indegree, dependents) && AllAscend(steps, dependents)
    {
      ghost var before, was := dependents, indegree;
      indegree := indegree[steps[i].id := |steps[i].dependsOn|];
      dependents := AddDependents(dependents, steps[i]);
      StepEntered(steps, i, was, before, dependents);
    }
    assert steps[..|steps|] == steps;
  }

  lemma EmptyGraph(steps: seq<Step>)
    ensures GraphOf(steps[..0], map[], map[]) && AllAscend(steps, map[])
  {
    assert steps[..0] == [];
  }

  lemma StepEntered(steps: seq<Step>, i: nat, indegree: map<string, int>, before: map<string, seq<string>>, after: map<string, seq<string>>)
    requires UniqueIds(steps) && i < |steps| && GraphOf(steps[..i], indegree, before) && AllAscend(steps, before)
    requires Extends(before, after, steps[i].id, steps[i].dependsOn) && Lengthens(before, after, steps[i].id)
    ensures GraphOf(steps[..i + 1], indegree[steps[i].id := |steps[i].dependsOn|], after) && AllAscend(steps, after)
  {
    EntersGraph(steps, i, indegree, before, after);
    ListedSoFar(steps[..i], before);
    hide *;
    EnteredAscends(steps, before, after, i);
  }

  lemma EntersGraph(steps: seq<Step>, i: nat, indegree: map<string, int>, before: map<string, seq<string>>, after: map<string, seq<string>>)
    requires UniqueIds(steps) && i < |steps| && GraphOf(steps[..i], indegree, before)
    requires Extends(before, after, steps[i].id, steps[i].dependsOn)
    ensures GraphShape(steps[..i], before)
    ensures GraphOf(steps[..i + 1], indegree[steps[i].id := |steps[i].dependsOn|], after)
  {
    assert steps[..i + 1] == steps[..i] + [steps[i]];
    NewId(steps, i);
    hide GraphShape, Extends, UniqueIds;
    ShapeGrows(steps[..i], steps[i], before, after);
  }

  lemma NewId(steps: seq<Step>, i: nat)
    requires UniqueIds(steps) && i < |steps|
    ensures steps[i].id !in Ids(steps[..i])
  {}

  lemma ShapeGrows(steps: seq<Step>, last: Step, before: map<string, seq<string>>, after: map<string, seq<string>>)
    requires last.id !in Ids(steps) && GraphShape(steps, before) && Extends(before, after, last.id, last.dependsOn)
    ensures GraphShape(steps + [last], after)
  {
    hide Dependents, Count;
    forall s, dep | s in steps + [last] ensures Count(Dependents(after, dep), s.id) == Count(s.dependsOn, dep) {
      assert s in steps ==> s.id in Ids(steps);
    }
    forall dep, id | id !in Ids(steps + [last]) ensures Count(Dependents(after, dep), id) == 0 {
      assert Ids(steps + [last]) == Ids(steps) + {last.id};
    }
  }

  /**
   * What the sort keeps: `ordered` and `queue` are disjoint selections of steps, `ordered`
   * respects the dependencies, and the ids in them are exactly those without pending entries.
   */
  ghost predicate Sorting(steps: seq<Step>, indegree: map<string, int>, ordered: seq<Step>, queue: seq<Step>) {
    && indegree.Keys == Ids(steps)
    && UniqueIds(ordered + queue)
    && (forall s | s in ordered + queue :: s in steps)
    && DependenciesFirst(ordered)
    && (forall s | s in steps :: indegree[s.id] == 0 <==> s in ordered + queue)
  }

  /** One pending entry fewer for `target`, which is queued when none is left. */
  lemma Decrement(steps: seq<Step>, indegree: map<string, int>, ordered: seq<Step>, queue: seq<Step>, target: Step)
    requires UniqueIds(steps) && Sorting(steps, indegree, ordered, queue)
    requires target in steps && indegree[target.id] > 0
    ensures var left := indegree[target.id] - 1;
            Sorting(steps, indegree[target.id := left], ordered, if left == 0 then queue + [target] else queue)
  {
    var left := indegree[target.id] - 1;
    var after := indegree[target.id := left];
    var longer := if left == 0 then queue + [target] else queue;
    assert ordered + (queue + [target]) == (ordered + queue) + [target];
    forall s | s in steps ensures after[s.id] == 0 <==> s in ordered + longer {
      if s.id == target.id { assert s == target; }
    }
    assert forall s | s in ordered + queue :: indegree[s.id] == 0;
  }

  /** What the inner loop has taken off after the listed dependents. */
  ghost predicate Decremented(steps: seq<Step>, before: map<string, int>, after: map<string, int>, listed: seq<string>) {
    && after.Keys == before.Keys == Ids(steps)
    && forall s | s in steps :: after[s.id] == before[s.id] - Count(listed, s.id)
  }

  predicate Indexes(byId: map<string, Step>, steps: seq<Step>) {
    byId.Keys == Ids(steps) && forall s | s in steps :: byId[s.id] == s
  }

  /** Every listed dependent is a step with an entry pending for each time it is listed. */
  ghost predicate Covers(steps: seq<Step>, indegree: map<string, int>, dependents: seq<string>) {
    && (forall s | s in steps :: s.id in indegree && Count(dependents, s.id) <= indegree[s.id])
    && (forall id | id in dependents :: id in Ids(steps))
  }

  /** The inner loop: each listed dependent has one entry fewer pending and is queued when none is left. */
  method Release(steps: seq<Step>, byId: map<string, Step>, before: map<string, int>,
                 dependents: seq<string>, ordered: seq<Step>, waiting: seq<Step>)
    returns (indegree: map<string, int>, queue: seq<Step>)
    requires UniqueIds(steps) && Indexes(byId, steps)
    requires Sorting(steps, before, ordered, waiting) && Covers(steps, before, dependents) && Ascends(steps, dependents)
    ensures Sorting(steps, indegree, ordered, queue)
    ensures Decremented(steps, before, indegree, dependents)
    ensures Appends(steps, waiting, queue, dependents)
  {
    indegree, queue := before, waiting;
    hide *;
    NothingDecremented(steps, before, ordered, waiting);
    NothingAppended(steps, waiting);
    assert dependents[..0] == [];
    for k := 0 to |dependents|
      invariant Sorting(steps, indegree, ordered, queue)
      invariant Decremented(steps, before, indegree, dependents[..k])
      invariant Appends(steps, waiting, queue, dependents[..k])
    {
      var next := dependents[k];
      ReleaseOne(steps, byId, before, indegree, dependents, k, ordered, waiting, queue);
      var target := byId[next];
      indegree := indegree[next := indegree[next] - 1];
      if indegree[next] == 0 { queue := queue + [target]; }
    }
    assert dependents[..|dependents|] == dependents;
  }

  /** One round of the inner loop. */
  lemma ReleaseOne(steps: seq<Step>, byId: map<string, Step>, before: map<string, int>, indegree: map<string, int>,
                   dependents: seq<string>, k: nat, ordered: seq<Step>, waiting: seq<Step>, queue: seq<Step>)
    requires UniqueIds(steps) && Indexes(byId, steps) && k < |dependents|
    requires Covers(steps, before, dependents) && Ascends(steps, dependents)
    requires Sorting(steps, indegree, ordered, queue) && Decremented(steps, before, indegree, dependents[..k])
    requires Appends(steps, waiting, queue, dependents[..k])
    ensures dependents[k] in byId && dependents[k] in indegree
    ensures var left := indegree[dependents[k]] - 1;
            var longer := if left == 0 then queue + [byId[dependents[k]]] else queue;
            && Sorting(steps, indegree[dependents[k] := left], ordered, longer)
            && Decremented(steps, before, indegree[dependents[k] := left], dependents[..k + 1])
            && Appends(steps, waiting, longer, dependents[..k + 1])
  {
    hide *;
    NextTarget(steps, byId, before, indegree, dependents, k);
    var target := byId[dependents[k]];
    Decrement(steps, indegree, ordered, queue, target);
    DecrementedNext(steps, before, indegree, dependents[..k], target);
    AppendsNext(steps, indegree, ordered, waiting, queue, dependents, k, target);
    assert dependents[..k + 1] == dependents[..k] + [dependents[k]];
  }

  /** The queue is the waiting one with listed steps after it, in the order of the steps. */
  ghost predicate Appends(steps: seq<Step>, waiting: seq<Step>, queue: seq<Step>, listed: seq<string>) {
    && |waiting| <= |queue| && queue[..|waiting|] == waiting
    && (forall a | |waiting| <= a < |queue| :: queue[a].id in listed)
    && forall a, b | |waiting| <= a < b < |queue| :: Stands(steps, queue[a].id) < Stands(steps, queue[b].id)
  }

  lemma NothingAppended(steps: seq<Step>, waiting: seq<Step>)
    ensures Appends(steps, waiting, waiting, [])
  {
    assert waiting[..|waiting|] == waiting;
  }

  lemma AppendsNext(steps: seq<Step>, indegree: map<string, int>, ordered: seq<Step>, waiting: seq<Step>, queue: seq<Step>,
                    dependents: seq<string>, k: nat, target: Step)
    requires UniqueIds(steps) && k < |dependents| && Ascends(steps, dependents) && Appends(steps, waiting, queue, dependents[..k])
    requires target in steps && target.id == dependents[k]
    requires Sorting(steps, indegree, ordered, queue) && indegree[target.id] > 0
    ensures Appends(steps, waiting, queue, dependents[..k + 1]) && Appends(steps, waiting, queue + [target], dependents[..k + 1])
  {
    hide Sorting, Stands, Ids;
    var longer := queue + [target];
    assert dependents[..k + 1] == dependents[..k] + [dependents[k]];
    assert longer[..|waiting|] == waiting;
    forall a | |waiting| <= a < |queue| ensures Stands(steps, queue[a].id) < Stands(steps, target.id) {
      QueuedDiffers(steps, indegree, ordered, queue, a, target);
      var j :| 0 <= j < k && dependents[j] == queue[a].id;
    }
  }

  lemma QueuedDiffers(steps: seq<Step>, indegree: map<string, int>, ordered: seq<Step>, queue: seq<Step>, a: nat, target: Step)
    requires a < |queue| && target in steps && Sorting(steps, indegree, ordered, queue) && indegree[target.id] > 0
    ensures Stands(steps, queue[a].id) != Stands(steps, target.id)
  {
    assert queue[a] in ordered + queue && queue[a] in steps && indegree[queue[a].id] == 0;
    assert queue[a].id in Ids(steps) && target.id in Ids(steps);
  }

  lemma NothingDecremented(steps: seq<Step>, before: map<string, int>, ordered: seq<Step>, queue: seq<Step>)
    requires Sorting(steps, before, ordered, queue)
    ensures Decremented(steps, before, before, [])
  {}

  /** The k-th listed dependent is a step that still has a pending entry. */
  lemma NextTarget(steps: seq<Step>, byId: map<string, Step>, before: map<string, int>, after: map<string, int>,
                   dependents: seq<string>, k: nat)
    requires k < |dependents| && Indexes(byId, steps) && Covers(steps, before, dependents)
    requires Decremented(steps, before, after, dependents[..k])
    ensures var next := dependents[k];
            && next in byId && byId[next] in steps && byId[next].id == next
            && next in after && after[next] > 0
  {
    PrefixCount(dependents, k);
  }

  lemma DecrementedNext(steps: seq<Step>, before: map<string, int>, after: map<string, int>, listed: seq<string>, target: Step)
    requires Decremented(steps, before, after, listed) && target in steps
    ensures Decremented(steps, before, after[target.id := after[target.id] - 1], listed + [target.id])
  {
    forall s | s in steps { CountSnoc(listed, target.id, s.id); }
  }

  lemma CountEmpty(list: seq<string>)
    ensures list[..0] == [] && forall x :: Count(list[..0], x) == 0
  {
    assert list[..0] == [];
  }

  lemma PrefixCount(list: seq<string>, k: nat)
    requires k < |list|
    ensures Count(list[..k], list[k]) < Count(list, list[k])
  {
    assert list == list[..k] + [list[k]] + list[k + 1..];
  }

  /** Steps the sort could not reach wait for each other. */
  lemma LeftoverIsCyclic(steps: seq<Step>, ordered: seq<Step>)
    requires UniqueIds(steps) && KnownDependencies(steps) && UniqueIds(ordered)
    requires forall s | s in ordered :: s in steps
    requires forall s | s in steps :: Pending(s.dependsOn, Ids(ordered)) == 0 ==> s in ordered
    requires |ordered| != |steps|
    ensures !Acyclic(steps)
  {
    var stuck := Ids(steps) - Ids(ordered);
    IdsCount(steps);
    IdsCount(ordered);
    var u := Missing(Ids(ordered), Ids(steps));
    forall v | v in stuck ensures WaitsIn(steps, stuck, v) {
      var s :| s in steps && s.id == v;
      assert s !in ordered;
      PendingZero(s.dependsOn, Ids(ordered));
      var d :| d in s.dependsOn && d !in Ids(ordered);
      assert HasEdge(steps, v, d);
    }
    StuckMeansCyclic(steps, stuck, u);
  }

  lemma Missing<T>(a: set<T>, b: set<T>) returns (u: T)
    requires a <= b && |a| != |b|
    ensures u in b && u !in a
  {
    assert a != b;
    u :| u in b && u !in a;
  }

  /** The steps that wait for nothing. */
  method InitialQueue(steps: seq<Step>, indegree: map<string, int>) returns (queue: seq<Step>)
    requires UniqueIds(steps) && indegree.Keys == Ids(steps)
    requires forall s | s in steps :: indegree[s.id] == |s.dependsOn|
    ensures Sorting(steps, indegree, [], queue) && CountsPending(steps, indegree, [])
    ensures forall a, b | 0 <= a < b < |queue| :: Stands(steps, queue[a].id) < Stands(steps, queue[b].id)
  {
    hide Stands;
    queue := [];
    for i := 0 to |steps|
      invariant UniqueIds(queue) && forall s :: s in queue <==> s in steps[..i] && indegree[s.id] == 0
      invariant forall a, b | 0 <= a < b < |queue| :: Stands(steps, queue[a].id) < Stands(steps, queue[b].id)
      invariant forall a | 0 <= a < |queue| :: Stands(steps, queue[a].id) < i
    {
      StandsAt(steps, i);
      assert steps[..i + 1] == steps[..i] + [steps[i]];
      assert forall s | s in steps[..i] :: s.id != steps[i].id;
      hide Ids;
      if indegree[steps[i].id] == 0 { queue := queue + [steps[i]]; }
    }
    assert steps[..|steps|] == steps;
    InitialSorting(steps, indegree, queue);
  }

  lemma InitialSorting(steps: seq<Step>, indegree: map<string, int>, queue: seq<Step>)
    requires indegree.Keys == Ids(steps) && UniqueIds(queue)
    requires forall s | s in steps :: indegree[s.id] == |s.dependsOn|
    requires forall s :: s in queue <==> s in steps && indegree[s.id] == 0
    ensures Sorting(steps, indegree, [], queue) && CountsPending(steps, indegree, [])
  {
    assert [] + queue == queue;
    forall s | s in steps ensures Pending(s.dependsOn, {}) == |s.dependsOn| { PendingZero(s.dependsOn, {}); }
    assert Ids([]) == {};
  }

  /** The in-degree map holds the entries that are pending while the steps in `ordered` are done. */
  ghost predicate CountsPending(steps: seq<Step>, indegree: map<string, int>, ordered: seq<Step>) {
    forall s | s in steps :: s.id in indegree && indegree[s.id] == Pending(s.dependsOn, Ids(ordered))
  }

  /** Kahn's algorithm proper: orders as many steps as can be ordered. */
  method Kahn(steps: seq<Step>, byId: map<string, Step>) returns (ordered: seq<Step>)
    requires UniqueIds(steps) && Indexes(byId, steps) && KnownDependencies(steps)
    ensures UniqueIds(ordered) && DependenciesFirst(ordered) && forall s | s in ordered :: s in steps
    ensures |ordered| != |steps| ==> !Acyclic(steps)
    ensures ByArrival(steps, ordered, ordered)
  {
    hide Sorting, CountsPending, GraphShape, Covers, Indexes, Decremented, KnownDependencies, DependenciesFirst, Acyclic, Ids;
    hide ByArrival, AllAscend, Appends, Stands;
    var indegree, dependents := BuildGraph(steps);
    var queue := InitialQueue(steps, indegree);
    ordered := [];
    FirstArrivals(steps, indegree, queue);
    while queue != []
      invariant Sorting(steps, indegree, ordered, queue) && CountsPending(steps, indegree, ordered)
      invariant ByArrival(steps, ordered, ordered + queue)
      decreases |Ids(steps) - Ids(ordered)|
    {
      var step := queue[0];
      var listed := Dependents(dependents, step.id);
      ghost var before, done, waiting := indegree, ordered, queue;
      assert Ascends(steps, listed) by { assert AllAscend(steps, dependents); ListAscends(steps, dependents, step.id); }
      TakeFirst(steps, indegree, ordered, queue);
      EntriesOf(steps, indegree, dependents, ordered, step);
      ordered, queue := ordered + [step], queue[1..];
      indegree, queue := Release(steps, byId, indegree, listed, ordered, queue);
      PendingTaken(steps, before, indegree, listed, ordered);
      NextArrivals(steps, before, indegree, dependents, done, waiting, queue);
    }
    SortingDone(steps, indegree, ordered);
    assert ordered + [] == ordered;
    if |ordered| != |steps| { LeftoverIsCyclic(steps, ordered); }
  }

  lemma ListAscends(steps: seq<Step>, dependents: map<string, seq<string>>, dep: string)
    requires AllAscend(steps, dependents)
    ensures Ascends(steps, Dependents(dependents, dep))
  {}

  /** What waits for nothing is free from the start. */
  lemma FirstArrivals(steps: seq<Step>, indegree: map<string, int>, queue: seq<Step>)
    requires Sorting(steps, indegree, [], queue) && CountsPending(steps, indegree, [])
    requires forall a, b | 0 <= a < b < |queue| :: Stands(steps, queue[a].id) < Stands(steps, queue[b].id)
    ensures ByArrival(steps, [], [] + queue)
  {
    hide Stands, DoneAfter, Sorting, CountsPending;
    assert [] + queue == queue;
  }

  /** What is queued or ordered depends on ordered steps only. */
  lemma QueuedIsFree(steps: seq<Step>, indegree: map<string, int>, ordered: seq<Step>, queue: seq<Step>)
    requires Sorting(steps, indegree, ordered, queue) && CountsPending(steps, indegree, ordered)
    ensures forall s, d | s in ordered + queue && d in s.dependsOn :: d in Ids(ordered)
  {
    forall s, d | s in ordered + queue && d in s.dependsOn ensures d in Ids(ordered) {
      assert s in steps && indegree[s.id] == 0;
      PendingZero(s.dependsOn, Ids(ordered));
      hide Pending;
    }
  }

  /** A listed step has the finished one among its dependencies. */
  lemma ListedDepends(steps: seq<Step>, dependents: map<string, seq<string>>, s: Step, dep: string)
    requires GraphShape(steps, dependents) && s in steps && s.id in Dependents(dependents, dep)
    ensures dep in s.dependsOn
  {
    assert Count(Dependents(dependents, dep), s.id) == Count(s.dependsOn, dep);
  }

  /** The steps that became free with the first queued one come after all that were free before. */
  lemma NextArrivals(steps: seq<Step>, before: map<string, int>, after: map<string, int>, dependents: map<string, seq<string>>,
                     ordered: seq<Step>, waiting: seq<Step>, queue: seq<Step>)
    requires waiting != [] && GraphShape(steps, dependents)
    requires Sorting(steps, before, ordered, waiting) && CountsPending(steps, before, ordered)
    requires ByArrival(steps, ordered, ordered + waiting)
    requires Sorting(steps, after, ordered + [waiting[0]], queue)
    requires Appends(steps, waiting[1..], queue, Dependents(dependents, waiting[0].id))
    ensures ByArrival(steps, ordered + [waiting[0]], ordered + [waiting[0]] + queue)
  {
    var step, n, all := waiting[0], |ordered + waiting|, ordered + [waiting[0]] + queue;
    SameFront(ordered, waiting, queue);
    QueuedIsFree(steps, before, ordered, waiting);
    StepIsNew(steps, before, ordered, waiting);
    forall p | 0 <= p < n ensures DoneAfter(ordered + [step], all[p].dependsOn) == DoneAfter(ordered, all[p].dependsOn) {
      assert all[p] in ordered + waiting;
      hide *;
      DoneKept(ordered, [step], all[p].dependsOn);
    }
    forall q | n <= q < |all| ensures DoneAfter(ordered + [step], all[q].dependsOn) == |ordered| + 1 {
      FreeWithStep(steps, after, dependents, ordered, waiting, queue, q);
    }
    hide DoneAfter, Stands, Sorting, CountsPending, GraphShape, Ids;
    forall p, q | 0 <= p < q < |all| ensures ArrivesBefore(steps, ordered + [step], all[p], all[q]) {
      if q < n { assert ArrivesBefore(steps, ordered, (ordered + waiting)[p], (ordered + waiting)[q]); }
    }
  }

  lemma SameFront(ordered: seq<Step>, waiting: seq<Step>, queue: seq<Step>)
    requires waiting != [] && |waiting| - 1 <= |queue| && queue[..|waiting| - 1] == waiting[1..]
    ensures var all := ordered + [waiting[0]] + queue;
            && |ordered + waiting| <= |all| && (forall p | 0 <= p < |ordered + waiting| :: all[p] == (ordered + waiting)[p])
            && forall q | |ordered + waiting| <= q < |all| :: q - |ordered| - 1 >= |waiting| - 1 && all[q] == queue[q - |ordered| - 1]
  {
    assert waiting == [waiting[0]] + queue[..|waiting| - 1];
  }

  lemma FreeWithStep(steps: seq<Step>, after: map<string, int>, dependents: map<string, seq<string>>,
                     ordered: seq<Step>, waiting: seq<Step>, queue: seq<Step>, q: nat)
    requires waiting != [] && GraphShape(steps, dependents) && waiting[0].id !in Ids(ordered)
    requires Sorting(steps, after, ordered + [waiting[0]], queue)
    requires Appends(steps, waiting[1..], queue, Dependents(dependents, waiting[0].id))
    requires |ordered + waiting| <= q < |ordered| + 1 + |queue|
    ensures DoneAfter(ordered + [waiting[0]], (ordered + [waiting[0]] + queue)[q].dependsOn) == |ordered| + 1
  {
    hide *;
    var j := q - |ordered| - 1;
    AppendedIsListed(steps, after, ordered + [waiting[0]], waiting[1..], queue, Dependents(dependents, waiting[0].id), j);
    assert (ordered + [waiting[0]] + queue)[q] == queue[j];
    ListedDepends(steps, dependents, queue[j], waiting[0].id);
    DoneWithLast(ordered, waiting[0], queue[j].dependsOn);
  }

  lemma AppendedIsListed(steps: seq<Step>, indegree: map<string, int>, ordered: seq<Step>, waiting: seq<Step>, queue: seq<Step>,
                         listed: seq<string>, j: nat)
    requires Sorting(steps, indegree, ordered, queue) && Appends(steps, waiting, queue, listed) && |waiting| <= j < |queue|
    ensures queue[j] in steps && queue[j].id in listed
  {
    assert queue[j] in ordered + queue;
    hide DependenciesFirst, UniqueIds, Stands, Ids;
  }

  lemma StepIsNew(steps: seq<Step>, indegree: map<string, int>, ordered: seq<Step>, queue: seq<Step>)
    requires queue != [] && Sorting(steps, indegree, ordered, queue)
    ensures queue[0].id !in Ids(ordered)
  {
    assert (ordered + queue)[|ordered|] == queue[0];
    forall i | 0 <= i < |ordered| ensures ordered[i].id != queue[0].id { assert (ordered + queue)[i] == ordered[i]; }
  }

  lemma SortingDone(steps: seq<Step>, indegree: map<string, int>, ordered: seq<Step>)
    requires Sorting(steps, indegree, ordered, []) && CountsPending(steps, indegree, ordered)
    ensures UniqueIds(ordered) && DependenciesFirst(ordered) && forall s | s in ordered :: s in steps
    ensures forall s | s in steps :: Pending(s.dependsOn, Ids(ordered)) == 0 ==> s in ordered
  {
    assert ordered + [] == ordered;
  }

  lemma PendingTaken(steps: seq<Step>, before: map<string, int>, after: map<string, int>, listed: seq<string>, ordered: seq<Step>)
    requires Decremented(steps, before, after, listed)
    requires forall s | s in steps :: before[s.id] == Pending(s.dependsOn, Ids(ordered)) + Count(listed, s.id)
    ensures CountsPending(steps, after, ordered)
  {
    hide Count;
  }

  /** Finishing a step takes one pending entry per listing of a dependent. */
  lemma EntriesOf(steps: seq<Step>, indegree: map<string, int>, dependents: map<string, seq<string>>, ordered: seq<Step>, step: Step)
    requires GraphShape(steps, dependents) && CountsPending(steps, indegree, ordered)
    requires step in steps && step.id !in Ids(ordered)
    ensures |Ids(steps) - Ids(ordered + [step])| < |Ids(steps) - Ids(ordered)|
    ensures Covers(steps, indegree, Dependents(dependents, step.id))
    ensures forall s | s in steps :: s.id in indegree
              && indegree[s.id] == Pending(s.dependsOn, Ids(ordered + [step])) + Count(Dependents(dependents, step.id), s.id)
  {
    OneFewer(steps, ordered, step);
    ListedKnown(steps, dependents, step.id);
    forall s | s in steps
      ensures s.id in indegree
           && indegree[s.id] == Pending(s.dependsOn, Ids(ordered + [step])) + Count(Dependents(dependents, step.id), s.id)
    {
      assert Count(Dependents(dependents, step.id), s.id) == Count(s.dependsOn, step.id);
      assert s.id in indegree && indegree[s.id] == Pending(s.dependsOn, Ids(ordered));
      hide *;
      PendingCount(s.dependsOn, Ids(ordered), step.id);
    }
  }

  lemma OneFewer(steps: seq<Step>, ordered: seq<Step>, step: Step)
    requires step in steps && step.id !in Ids(ordered)
    ensures Ids(ordered + [step]) == Ids(ordered) + {step.id}
    ensures |Ids(steps) - Ids(ordered + [step])| < |Ids(steps) - Ids(ordered)|
  {
    var left := Ids(steps) - Ids(ordered);
    assert step.id in left;
    assert Ids(steps) - Ids(ordered + [step]) == left - {step.id};
  }

  lemma ListedKnown(steps: seq<Step>, dependents: map<string, seq<string>>, dep: string)
    requires GraphShape(steps, dependents)
    ensures forall id | id in Dependents(dependents, dep) :: id in Ids(steps)
  {
    forall id | id in Dependents(dependents, dep) ensures id in Ids(steps) {
      assert Count(Dependents(dependents, dep), id) > 0;
    }
  }

  lemma PendingCount(deps: seq<string>, done: set<string>, x: string)
    requires x !in done
    ensures Pending(deps, done) == Pending(deps, done + {x}) + Count(deps, x)
  {
    PendingAfter(deps, done, x);
  }

  /** Moving the first queued step to the ordered ones keeps what the sort keeps. */
  lemma TakeFirst(steps: seq<Step>, indegree: map<string, int>, ordered: seq<Step>, queue: seq<Step>)
    requires queue != [] && Sorting(steps, indegree, ordered, queue) && CountsPending(steps, indegree, ordered)
    ensures Sorting(steps, indegree, ordered + [queue[0]], queue[1..])
    ensures queue[0].id !in Ids(ordered) && queue[0] in steps
  {
    var step := queue[0];
    assert ordered + [step] + queue[1..] == ordered + queue;
    assert (ordered + queue)[|ordered|] == step;
    PendingZero(step.dependsOn, Ids(ordered));
    forall i | 0 <= i < |ordered| ensures ordered[i].id != step.id {
      assert (ordered + queue)[i] == ordered[i];
    }
    var longer := ordered + [step];
    forall i, d | 0 <= i < |longer| && d in longer[i].dependsOn ensures d in Ids(longer[..i]) {
      if i < |ordered| { assert longer[..i] == ordered[..i]; } else { assert longer[..i] == ordered; }
    }
  }

  /**
   * orderSteps: it succeeds exactly on unique ids, known dependencies and an acyclic
   * graph, and then returns a permutation of the steps with dependencies first.
   */
  method OrderSteps(steps: seq<Step>) returns (r: Result<seq<Step>, RecipeError>)
    ensures r.Ok? <==> UniqueIds(steps) && KnownDependencies(steps) && Acyclic(steps)
    ensures r.Ok? ==> IsTopologicalOrder(r.value, steps)
    ensures r.Ok? ==> ByArrival(steps, r.value, r.value)
    ensures r.Err? ==> NamesFault(steps, r.error)
  {
    var checked := CheckSteps(steps);
    if checked.Err? { return Err(checked.error); }
    var ordered := Kahn(steps, checked.value);
    if |ordered| != |steps| { return Err(DependencyCycle); }
    CompleteSelection(ordered, steps);
    OrderGivesRank(ordered, steps);
    return Ok(ordered);
  }

  lemma SameKey(order: seq<Step>, other: seq<Step>, k: nat, s: Step)
    requires k <= |order| && k <= |other| && order[..k] == other[..k] && forall d | d in s.dependsOn :: d in Ids(order[..k])
    ensures DoneAfter(order, s.dependsOn) == DoneAfter(other, s.dependsOn)
  {
    assert order == order[..k] + order[k..] && other == other[..k] + other[k..];
    hide *;
    DoneKept(order[..k], order[k..], s.dependsOn);
    DoneKept(other[..k], other[k..], s.dependsOn);
  }

  lemma PrefixAgrees(order: seq<Step>, other: seq<Step>, k: nat)
    requires k <= |order| && k <= |other| && order[..k] == other[..k]
    ensures forall j | 0 <= j < k :: order[j] == other[j]
  {
    forall j | 0 <= j < k ensures order[j] == other[j] { assert order[..k][j] == other[..k][j]; }
  }

  /** What stands first where two arrival orders part arrives before the other. */
  lemma NextArrival(steps: seq<Step>, order: seq<Step>, other: seq<Step>, k: nat)
    requires multiset(order) == multiset(other) && UniqueIds(other) && k < |order| && k < |other| && order[..k] == other[..k]
    requires ByArrival(steps, order, order) && order[k] != other[k]
    ensures ArrivesBefore(steps, order, order[k], other[k])
  {
    hide ArrivesBefore;
    PrefixAgrees(order, other, k);
    assert other[k] in multiset(other);
    var j :| 0 <= j < |order| && order[j] == other[k];
  }

  lemma FirstDepsDone(order: seq<Step>, k: nat)
    requires DependenciesFirst(order) && k < |order|
    ensures forall d | d in order[k].dependsOn :: d in Ids(order[..k])
  {}

  /** Where two arrival orders agree up to a place, they agree at it. */
  lemma NextSame(steps: seq<Step>, order: seq<Step>, other: seq<Step>, k: nat)
    requires IsTopologicalOrder(order, steps) && IsTopologicalOrder(other, steps) && ByArrival(steps, order, order) && ByArrival(steps, other, other)
    requires k < |order| && k < |other| && order[..k] == other[..k]
    ensures order[k] == other[k]
  {
    FirstDepsDone(order, k);
    FirstDepsDone(other, k);
    hide ByArrival, DoneAfter, Stands, DependenciesFirst, UniqueIds, Ids;
    SameKey(order, other, k, order[k]);
    SameKey(order, other, k, other[k]);
    if order[k] != other[k] {
      NextArrival(steps, order, other, k);
      NextArrival(steps, other, order, k);
    }
  }

  /** There is only one topological order by arrival. */
  lemma {:induction false} ArrivalUnique(steps: seq<Step>, order: seq<Step>, other: seq<Step>, k: nat)
    requires IsTopologicalOrder(order, steps) && IsTopologicalOrder(other, steps)
    requires ByArrival(steps, order, order) && ByArrival(steps, other, other) && k <= |order|
    ensures |order| == |other| && order[..k] == other[..k]
  {
    SameLength(order, other, steps);
    hide *;
    if k > 0 {
      ArrivalUnique(steps, order, other, k - 1);
      NextSame(steps, order, other, k - 1);
      assert order[..k] == order[..k - 1] + [order[k - 1]] && other[..k] == other[..k - 1] + [other[k - 1]];
    }
  }

  lemma SameLength(order: seq<Step>, other: seq<Step>, steps: seq<Step>)
    requires IsTopologicalOrder(order, steps) && IsTopologicalOrder(other, steps)
    ensures |order| == |other|
  {
    hide UniqueIds, DependenciesFirst;
    assert |multiset(order)| == |order| && |multiset(other)| == |other|;
  }
}
