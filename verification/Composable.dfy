/**
 * ComposablePolicy.reserve: reserving an operation in every layer, or in none of them. Layers
 * are objects; the same object may be listed more than once.
 */
module Composable {
  import opened Outcomes
  import opened DigestPreimages
  import opened FixedWindows
  import opened Policies
  import RateLimit
  import AmountCap

  datatype Failure = LayerThrew | RollbackFailed

  /** How a scripted layer will answer: hold the operation, refuse, pass it through, know it as committed, or throw. */
  datatype Answer = Hold | Refuse(outcome: PolicyOutcome) | PassThrough | Done | Throw

  /**
   * A layer as one operation sees it. A scripted layer has a reserve method or not, a release
   * method or not, and answers call by call. The quota policies answer from their quota, at
   * the clock readings of the calls.
   */
  datatype LayerState =
    | Scripted(reserves: bool, releases: bool, held: bool, answers: seq<Answer>)
    | RateLimited(quota: Quota, max: nat, width: int, p: AgentProposal, readings: seq<int>)
    | Capped(quota: Quota, perTx: Option<nat>, perDay: Option<nat>, p: AgentProposal, readings: seq<int>)

  predicate Reserves(s: LayerState) { s.Scripted? ==> s.reserves }

  predicate Releases(s: LayerState) { s.Scripted? ==> s.releases }

  predicate Holds(s: LayerState) { if s.Scripted? then s.held else IsReserved(s.quota, s.p.id) }

  function NextAnswer(s: LayerState): (Answer, LayerState)
    requires s.Scripted?
  {
    if s.answers == [] then (Hold, s) else (s.answers[0], s.(answers := s.answers[1..]))
  }

  /** Only a new reservation changes what is held. */
  function AskScript(s: LayerState): (LayerState, Result<PolicyResult, Failure>)
    requires s.Scripted?
  {
    var (a, s1) := NextAnswer(s);
    if a.Throw? then (s1, Err(LayerThrew))
    else if a.Refuse? && a.outcome != Approved then (s1, Ok(PolicyResult(a.outcome, None)))
    else if !s.reserves then (s1, Ok(APPROVED))
    else if s.held then (s1, Ok(PolicyResult(Approved, Some(AlreadyReserved))))
    else if a.Done? then (s1, Ok(PolicyResult(Approved, Some(AlreadyCommitted))))
    else if !a.Hold? then (s1, Ok(APPROVED))
    else (s1.(held := true), Ok(PolicyResult(Approved, Some(New))))
  }

  function Reading(readings: seq<int>): int { if readings == [] then 0 else readings[0] }

  function Later(readings: seq<int>): seq<int> { if readings == [] then [] else readings[1..] }

  /** layer.reserve where there is one, else layer.evaluate. */
  ghost function Ask(s: LayerState): (LayerState, Result<PolicyResult, Failure>) {
    match s
    case Scripted(_, _, _, _) => AskScript(s)
    case RateLimited(q, max, width, p, readings) =>
      var (q', r) := RateLimit.RateReserve(q, max, width, p, Reading(readings));
      (RateLimited(q', max, width, p, Later(readings)), Ok(r))
    case Capped(q, perTx, perDay, p, readings) =>
      var (q', r) := AmountCap.CapReserve(q, perTx, perDay, p, Reading(readings));
      (Capped(q', perTx, perDay, p, Later(readings)), Ok(r))
  }

  /** layer.release?.(id): gives the operation up, or throws and changes nothing. */
  function GiveUp(s: LayerState): (LayerState, bool) {
    match s
    case RateLimited(q, max, width, p, readings) => (RateLimited(Release(q, p.id), max, width, p, readings), false)
    case Capped(q, perTx, perDay, p, readings) => (Capped(Release(q, p.id), perTx, perDay, p, readings), false)
    case Scripted(_, releases, _, _) =>
      if !releases then (s, false)
      else
        var (a, s1) := NextAnswer(s);
        if a.Throw? then (s1, true) else (s1.(held := false), false)
  }

  // ---- The contract of a layer --------------------------------------------

  /** What reserve may answer about one operation, held before and after the call. */
  predicate MeetsLayerContract(before: bool, after: bool, r: PolicyResult) {
    && (after <==> before || r == PolicyResult(Approved, Some(New)))
    && (r == PolicyResult(Approved, Some(New)) || r == APPROVED || r == PolicyResult(Approved, Some(AlreadyCommitted)) ==> !before)
    && (r == PolicyResult(Approved, Some(AlreadyReserved)) ==> before)
  }

  lemma RolloverKeepsUnreserved(q: Quota, key: string, now: int, width: int, id: string)
    requires !IsReserved(q, id)
    ensures !IsReserved(Rollover(q, key, now, width), id)
  {}

  /** The rate limit meets the contract, and its release gives the operation up. */
  lemma RateLimitIsALayer(q: Quota, max: nat, width: int, p: AgentProposal, now: int)
    ensures var (q', r) := RateLimit.RateReserve(q, max, width, p, now);
            MeetsLayerContract(IsReserved(q, p.id), IsReserved(q', p.id), r)
    ensures !IsReserved(Release(q, p.id), p.id)
  {
    hide KeyFor, Digest, Usage, Rollover;
  }

  /** So does the amount cap. */
  lemma AmountCapIsALayer(q: Quota, perTx: Option<nat>, perDay: Option<nat>, p: AgentProposal, now: int)
    ensures var (q', r) := AmountCap.CapReserve(q, perTx, perDay, p, now);
            MeetsLayerContract(IsReserved(q, p.id), IsReserved(q', p.id), r)
    ensures !IsReserved(Release(q, p.id), p.id)
  {
    if !IsReserved(q, p.id) { RolloverKeepsUnreserved(q, KeyFor(p), now, AmountCap.DAY, p.id); }
    hide KeyFor, Digest, Usage, Rollover;
  }

  /** Every call that meets the contract is a step of a scripted layer, whatever it does later. */
  lemma ContractIsScripted(releases: bool, before: bool, after: bool, r: PolicyResult, later: seq<Answer>)
    requires MeetsLayerContract(before, after, r) && (r.outcome != Approved ==> r.state == None)
    ensures exists a :: Ask(Scripted(true, releases, before, [a] + later)) == (Scripted(true, releases, after, later), Ok(r))
  {
    var a := if r.outcome != Approved then Refuse(r.outcome)
             else if r.state == None then PassThrough
             else if r.state.value.AlreadyCommitted? then Done else Hold;
    assert ([a] + later)[1..] == later;
    assert Ask(Scripted(true, releases, before, [a] + later)) == (Scripted(true, releases, after, later), Ok(r));
  }

  /** All the proofs below know of a layer: its methods are fixed, reserve meets the contract, evaluate and a throw hold nothing. */
  lemma AskContract(s: LayerState)
    ensures var (s1, r) := Ask(s);
            && Reserves(s1) == Reserves(s) && Releases(s1) == Releases(s)
            && (if Reserves(s) && r.Ok? then MeetsLayerContract(Holds(s), Holds(s1), r.value) else Holds(s1) == Holds(s))
            && (!Reserves(s) && r.Ok? && r.value.outcome == Approved ==> r.value == APPROVED)
  {
    if s.RateLimited? { RateLimitIsALayer(s.quota, s.max, s.width, s.p, Reading(s.readings)); }
    if s.Capped? { AmountCapIsALayer(s.quota, s.perTx, s.perDay, s.p, Reading(s.readings)); }
    hide IsReserved, RateLimit.RateReserve, AmountCap.CapReserve;
  }

  lemma GiveUpContract(s: LayerState)
    ensures var (s1, threw) := GiveUp(s);
            && Reserves(s1) == Reserves(s) && Releases(s1) == Releases(s)
            && (Holds(s1) ==> Holds(s)) && (Releases(s) && !threw ==> !Holds(s1)) && (!Releases(s) ==> s1 == s && !threw)
  {}

  // ---- reserve on values --------------------------------------------------

  /** Layers by identity: a layer listed twice is one entry. */
  type World<K> = map<K, LayerState>

  /** releaseLayers: in reverse order, a throwing layer does not stop the others. */
  function ReleaseLayers<K>(w: World<K>, reserved: seq<K>): (r: (World<K>, bool))
    requires forall k | k in reserved :: k in w
    ensures r.0.Keys == w.Keys
    decreases |reserved|
  {
    if reserved == [] then (w, false)
    else
      var last := reserved[|reserved| - 1];
      var (s, threw) := GiveUp(w[last]);
      var (w', failed) := ReleaseLayers(w[last := s], reserved[..|reserved| - 1]);
      (w', threw || failed)
  }

  /** The rollback before an answer; when it throws, it is caught, repeated, and its error stands. */
  ghost function Undo<K>(w: World<K>, reserved: seq<K>, answer: PolicyResult): (World<K>, Result<PolicyResult, Failure>)
    requires forall k | k in reserved :: k in w
  {
    var (w', failed) := ReleaseLayers(w, reserved);
    if failed then (ReleaseLayers(w', reserved).0, Err(RollbackFailed)) else (w', Ok(answer))
  }

  function NextState(state: Option<ReservationState>, answer: Option<ReservationState>): Option<ReservationState> {
    if answer == Some(AlreadyReserved) then answer else if state == None then Some(New) else state
  }

  /** The walk over the layers that are left, with the layers newly reserved so far. */
  ghost function Walk<K>(w: World<K>, rest: seq<K>, reserved: seq<K>, state: Option<ReservationState>): (r: (World<K>, Result<PolicyResult, Failure>))
    requires (forall k | k in rest :: k in w) && forall k | k in reserved :: k in w
    decreases |rest|
  {
    if rest == [] then (w, Ok(PolicyResult(Approved, state)))
    else
      var layer := rest[0];
      var (s, answer) := Ask(w[layer]);
      var w1 := w[layer := s];
      if answer.Err? then
        var (w', failed) := ReleaseLayers(w1, reserved);
        (w', Err(if failed then RollbackFailed else LayerThrew))
      else if answer.value.outcome != Approved || answer.value.state == Some(AlreadyCommitted) then Undo(w1, reserved, answer.value)
      else if !Reserves(s) then Walk(w1, rest[1..], reserved, state)
      else
        Walk(w1, rest[1..], if answer.value.state != Some(AlreadyReserved) then reserved + [layer] else reserved, NextState(state, answer.value.state))
  }

  lemma LastReleasedFirst<K>(w: World<K>, reserved: seq<K>)
    requires reserved != [] && forall k | k in reserved :: k in w
    ensures var n := |reserved| - 1;
            var (s, threw) := GiveUp(w[reserved[n]]);
            var (w', failed) := ReleaseLayers(w[reserved[n] := s], reserved[..n]);
            ReleaseLayers(w, reserved) == (w', threw || failed)
  {
    hide GiveUp;
  }

  lemma NothingToRelease<K>(w: World<K>)
    ensures ReleaseLayers(w, []) == (w, false)
  {}

  // ---- The classes --------------------------------------------------------

  class Layer {
    const reserves: bool
    const releases: bool
    var held: set<string>
    var answers: seq<Answer>

    constructor (reserves: bool, releases: bool, answers: seq<Answer>)
      ensures this.reserves == reserves && this.releases == releases
      ensures forall id :: StateFor(id) == Scripted(reserves, releases, false, answers)
    {
      this.reserves := reserves;
      this.releases := releases;
      this.answers := answers;
      this.held := {};
    }

    function StateFor(id: string): (s: LayerState)
      ensures s.Scripted?
      reads this
    {
      Scripted(reserves, releases, id in held, answers)
    }

    method Answer() returns (a: Answer)
      modifies this`answers
      ensures forall id :: (a, StateFor(id)) == NextAnswer(old(StateFor(id)))
    {
      a := Hold;
      if answers != [] {
        a := answers[0];
        answers := answers[1..];
      }
    }

    /** layer.reserve, or layer.evaluate where there is none. */
    method Call(id: string) returns (r: Result<PolicyResult, Failure>)
      modifies this
      ensures (StateFor(id), r) == Ask(old(StateFor(id))) && held - {id} == old(held) - {id}
    {
      var a := Answer();
      if a.Throw? { return Err(LayerThrew); }
      if a.Refuse? && a.outcome != Approved { return Ok(PolicyResult(a.outcome, None)); }
      if !reserves { return Ok(APPROVED); }
      if id in held { return Ok(PolicyResult(Approved, Some(AlreadyReserved))); }
      if a.Done? { return Ok(PolicyResult(Approved, Some(AlreadyCommitted))); }
      if !a.Hold? { return Ok(APPROVED); }
      held := held + {id};
      return Ok(PolicyResult(Approved, Some(New)));
    }

    method Release(id: string) returns (threw: bool)
      modifies this
      ensures (StateFor(id), threw) == GiveUp(old(StateFor(id))) && held - {id} == old(held) - {id}
    {
      if !releases { return false; }
      var a := Answer();
      if a.Throw? { return true; }
      held := held - {id};
      return false;
    }
  }

  class ComposablePolicy {
    const layers: seq<Layer>

    constructor (layers: seq<Layer>)
      ensures this.layers == layers
    {
      this.layers := layers;
    }

    /** All layers as the operation sees them. */
    function StatesFor(id: string): World<Layer>
      reads layers
    {
      map l | l in layers :: l.StateFor(id)
    }

    method ReleaseReserved(reserved: seq<Layer>, id: string) returns (failed: bool)
      requires forall l | l in reserved :: l in layers
      modifies layers
      ensures (StatesFor(id), failed) == ReleaseLayers(old(StatesFor(id)), reserved)
    {
      hide GiveUp, ReleaseLayers;
      failed := false;
      NothingToRelease(StatesFor(id));
      var k := |reserved|;
      assert reserved[..k] == reserved;
      while k > 0
        invariant 0 <= k <= |reserved|
        invariant var (w, f) := ReleaseLayers(StatesFor(id), reserved[..k]); ReleaseLayers(old(StatesFor(id)), reserved) == (w, failed || f)
      {
        k := k - 1;
        assert reserved[..k + 1][..k] == reserved[..k] && reserved[k] in layers;
        ghost var before := StatesFor(id);
        LastReleasedFirst(before, reserved[..k + 1]);
        var threw := reserved[k].Release(id);
        assert StatesFor(id) == before[reserved[k] := reserved[k].StateFor(id)];
        failed := failed || threw;
      }
      assert reserved[..0] == [];
      NothingToRelease(StatesFor(id));
    }

    method Reserve(id: string) returns (r: Result<PolicyResult, Failure>)
      modifies layers
      ensures (StatesFor(id), r) == Walk(old(StatesFor(id)), layers, [], None)
    {
      hide Ask, ReleaseLayers;
      var reserved: seq<Layer> := [];
      var state: Option<ReservationState> := None;
      assert layers[0..] == layers;
      for k := 0 to |layers|
        invariant forall l | l in reserved :: l in layers
        invariant Walk(old(StatesFor(id)), layers, [], None) == Walk(StatesFor(id), layers[k..], reserved, state)
      {
        var layer := layers[k];
        assert layers[k..][0] == layer && layers[k..][1..] == layers[k + 1..];
        ghost var before := StatesFor(id);
        var answer := layer.Call(id);
        assert StatesFor(id) == before[layer := layer.StateFor(id)];
        if answer.Err? {
          var failed := ReleaseReserved(reserved, id);
          return Err(if failed then RollbackFailed else LayerThrew);
        }
        var result := answer.value;
        if result.outcome != Approved || result.state == Some(AlreadyCommitted) {
          var failed := ReleaseReserved(reserved, id);
          if failed {
            var _ := ReleaseReserved(reserved, id);
            return Err(RollbackFailed);
          }
          return Ok(result);
        }
        if layer.reserves {
          if result.state != Some(AlreadyReserved) { reserved := reserved + [layer]; }
          state := NextState(state, result.state);
        }
      }
      return Ok(PolicyResult(Approved, state));
    }
  }

  // ---- All or nothing -----------------------------------------------------

  /** So far exactly the listed layers, which have a reserve method, have been added to the initial holders. */
  predicate Added<K>(w0: World<K>, w: World<K>, reserved: seq<K>) {
    && w.Keys == w0.Keys && (forall k | k in reserved :: k in w0 && Reserves(w0[k]) && !Holds(w0[k]))
    && forall k | k in w0 ::
         && Reserves(w[k]) == Reserves(w0[k]) && Releases(w[k]) == Releases(w0[k])
         && (Holds(w[k]) ==> Holds(w0[k]) || k in reserved) && (Holds(w0[k]) ==> Holds(w[k]))
  }

  /** Earlier holds are all there, and new ones at most in layers that were reserved and could not let go. */
  predicate Restored<K>(w0: World<K>, w: World<K>) {
    && w.Keys == w0.Keys
    && forall k | k in w0 :: (Holds(w0[k]) ==> Holds(w[k])) && (Holds(w[k]) ==> Holds(w0[k]) || (Reserves(w0[k]) && !Releases(w0[k])))
  }

  /** Earlier holds are all there; a new one may be left over. */
  predicate NothingLost<K>(w0: World<K>, w: World<K>) {
    w.Keys == w0.Keys && forall k | k in w0 :: (Holds(w0[k]) ==> Holds(w[k])) && (Holds(w[k]) ==> Holds(w0[k]) || Reserves(w0[k]))
  }

  lemma GiveUpKeepsAdded<K>(w0: World<K>, w: World<K>, layer: K, all: seq<K>)
    requires Added(w0, w, all) && layer in all
    ensures Added(w0, w[layer := GiveUp(w[layer]).0], all)
  {
    GiveUpContract(w[layer]);
    hide GiveUp, Holds, Reserves, Releases;
  }

  lemma {:induction false} ReleaseKeepsAdded<K>(w0: World<K>, w: World<K>, reserved: seq<K>, all: seq<K>)
    requires Added(w0, w, all) && forall k | k in reserved :: k in all
    ensures Added(w0, ReleaseLayers(w, reserved).0, all)
    ensures forall k | k in w :: !Holds(w[k]) ==> !Holds(ReleaseLayers(w, reserved).0[k])
    ensures !ReleaseLayers(w, reserved).1 ==> forall k | k in reserved && Releases(w0[k]) :: !Holds(ReleaseLayers(w, reserved).0[k])
    decreases |reserved|
  {
    hide GiveUp, Holds, Reserves, Releases;
    if reserved != [] {
      var init, last := reserved[..|reserved| - 1], reserved[|reserved| - 1];
      assert last in all && forall k | k in reserved :: k in init || k == last;
      GiveUpKeepsAdded(w0, w, last, all);
      GiveUpContract(w[last]);
      ReleaseKeepsAdded(w0, w[last := GiveUp(w[last]).0], init, all);
    }
  }

  lemma ReleaseRestores<K>(w0: World<K>, w: World<K>, reserved: seq<K>)
    requires Added(w0, w, reserved)
    ensures NothingLost(w0, ReleaseLayers(w, reserved).0)
    ensures !ReleaseLayers(w, reserved).1 ==> Restored(w0, ReleaseLayers(w, reserved).0)
  {
    ReleaseKeepsAdded(w0, w, reserved, reserved);
    hide ReleaseLayers, Holds, Reserves, Releases;
  }

  lemma UndoRestores<K>(w0: World<K>, w: World<K>, reserved: seq<K>, answer: PolicyResult)
    requires Added(w0, w, reserved)
    ensures NothingLost(w0, Undo(w, reserved, answer).0)
    ensures Undo(w, reserved, answer).1.Ok? ==> Restored(w0, Undo(w, reserved, answer).0)
    ensures Undo(w, reserved, answer).1 in {Ok(answer), Err(RollbackFailed)}
  {
    ReleaseRestores(w0, w, reserved);
    ReleaseKeepsAdded(w0, w, reserved, reserved);
    hide ReleaseLayers, Added, Restored, NothingLost;
    var (w', failed) := ReleaseLayers(w, reserved);
    if failed { ReleaseRestores(w0, w', reserved); }
  }

  /** The answer is no reservation: refused, already committed, or a layer threw. */
  predicate NotReserved(r: Result<PolicyResult, Failure>) {
    r == Err(LayerThrew) || (r.Ok? && (r.value.outcome != Approved || r.value.state == Some(AlreadyCommitted)))
  }

  lemma ApprovedCases(r: PolicyResult)
    requires r.outcome == Approved && r.state != Some(AlreadyCommitted)
    ensures r == APPROVED || r == PolicyResult(Approved, Some(New)) || r == PolicyResult(Approved, Some(AlreadyReserved))
  {
    match r.state
    case None =>
    case Some(s) => assert s == New || s == AlreadyReserved;
  }

  predicate Approves(answer: Result<PolicyResult, Failure>) {
    answer.Ok? && answer.value.outcome == Approved && answer.value.state != Some(AlreadyCommitted)
  }

  /** The layers newly reserved, after an approving answer of one more. */
  ghost function Extended<K>(w: World<K>, reserved: seq<K>, layer: K): seq<K>
    requires layer in w && Approves(Ask(w[layer]).1)
  {
    if Reserves(w[layer]) && Ask(w[layer]).1.value.state != Some(AlreadyReserved) then reserved + [layer] else reserved
  }

  lemma AskAdds<K>(w0: World<K>, w: World<K>, reserved: seq<K>, layer: K)
    requires Added(w0, w, reserved) && layer in w
    ensures var (s, answer) := Ask(w[layer]);
            && Reserves(s) == Reserves(w[layer])
            && (if Approves(answer) then Added(w0, w[layer := s], Extended(w, reserved, layer)) else Added(w0, w[layer := s], reserved))
  {
    AskContract(w[layer]);
    var answer := Ask(w[layer]).1;
    if Approves(answer) { ApprovedCases(answer.value); }
    hide Ask, Holds, Reserves, Releases;
  }

  lemma {:induction false} WalkRestores<K>(w0: World<K>, w: World<K>, rest: seq<K>, reserved: seq<K>, state: Option<ReservationState>)
    requires Added(w0, w, reserved) && forall k | k in rest :: k in w
    requires state != Some(AlreadyCommitted)
    ensures var (w', r) := Walk(w, rest, reserved, state);
            NothingLost(w0, w') && (NotReserved(r) ==> Restored(w0, w'))
    decreases |rest|
  {
    hide Ask, ReleaseLayers, Undo, Holds, Reserves, Releases;
    if rest != [] {
      var layer := rest[0];
      var (s, answer) := Ask(w[layer]);
      var w1 := w[layer := s];
      AskAdds(w0, w, reserved, layer);
      hide Added, NothingLost, Restored;
      if answer.Err? {
        ReleaseRestores(w0, w1, reserved);
      } else if !Approves(answer) {
        UndoRestores(w0, w1, reserved, answer.value);
      } else {
        WalkRestores(w0, w1, rest[1..], Extended(w, reserved, layer), if Reserves(s) then NextState(state, answer.value.state) else state);
      }
    } else {
      AddedLosesNothing(w0, w, reserved);
    }
  }

  lemma AddedLosesNothing<K>(w0: World<K>, w: World<K>, reserved: seq<K>)
    requires Added(w0, w, reserved)
    ensures NothingLost(w0, w)
  {
    hide Holds, Reserves, Releases;
  }

  /**
   * All or nothing, for any list of layers: after a reserve that is refused, finds the
   * operation committed, or throws because a layer did, the operation is held by exactly the
   * layers that held it before; a layer that reserves but cannot release is the only
   * exception. When a release throws, earlier holds still survive.
   */
  lemma AllOrNothing<K>(w: World<K>, layers: seq<K>)
    requires forall k | k in layers :: k in w
    ensures var (w', r) := Walk(w, layers, [], None);
            && NothingLost(w, w')
            && (NotReserved(r) ==> Restored(w, w'))
            && (NotReserved(r) && (forall k | k in w && Reserves(w[k]) :: Releases(w[k])) ==> forall k | k in w :: Holds(w'[k]) == Holds(w[k]))
  {
    hide Walk, Holds, Reserves, Releases;
    WalkRestores(w, w, layers, [], None);
  }

  /** The layer will hold whatever it approves; the amount cap passes proposals without an amount through. */
  predicate Willing(s: LayerState) {
    match s
    case Scripted(_, _, _, answers) => forall i | 0 <= i < |answers| :: answers[i] == Hold
    case RateLimited(_, _, _, _, _) => true
    case Capped(_, _, _, p, _) => AmountCap.ParseAmount(p).Amount?
  }

  lemma AskHolds(s: LayerState)
    ensures var (s1, r) := Ask(s); (Willing(s) ==> Willing(s1)) && (Willing(s) && Reserves(s) && Approves(r) ==> Holds(s1))
  {
    if s.Scripted? {
      assert s.answers != [] ==> forall i | 0 <= i < |s.answers| - 1 :: s.answers[1..][i] == s.answers[i + 1];
    }
    AskContract(s);
    hide KeyFor, Digest, Usage, Rollover, AmountCap.OverDay;
  }

  lemma {:induction false} WalkHolds<K>(w: World<K>, rest: seq<K>, reserved: seq<K>, state: Option<ReservationState>)
    requires (forall k | k in rest :: k in w) && forall k | k in reserved :: k in w
    ensures var (w', r) := Walk(w, rest, reserved, state);
            Approves(r) ==>
              && (forall k | k in w :: k in w' && (Holds(w[k]) ==> Holds(w'[k])))
              && forall k | k in rest && Reserves(w[k]) && Willing(w[k]) :: Holds(w'[k])
    decreases |rest|
  {
    hide ReleaseLayers, Ask, Undo, Holds, Reserves, Willing;
    if rest != [] {
      var layer := rest[0];
      var (s, answer) := Ask(w[layer]);
      AskContract(w[layer]);
      AskHolds(w[layer]);
      if Approves(answer) {
        WalkHolds(w[layer := s], rest[1..], Extended(w, reserved, layer), if Reserves(s) then NextState(state, answer.value.state) else state);
        assert forall k | k in rest :: k == layer || k in rest[1..];
      } else if answer.Ok? {
        UndoAnswers(w[layer := s], reserved, answer.value);
      }
    }
  }

  lemma UndoAnswers<K>(w: World<K>, reserved: seq<K>, answer: PolicyResult)
    requires forall k | k in reserved :: k in w
    ensures Undo(w, reserved, answer).1 == Ok(answer) || Undo(w, reserved, answer).1 == Err(RollbackFailed)
  {}

  /** An approved reservation holds the operation in every layer that reserves and is willing to. */
  lemma ApprovedMeansHeld<K>(w: World<K>, layers: seq<K>)
    requires forall k | k in layers :: k in w
    ensures var (w', r) := Walk(w, layers, [], None);
            Approves(r) ==> forall k | k in layers && Reserves(w[k]) && Willing(w[k]) :: k in w' && Holds(w'[k])
  {
    WalkHolds(w, layers, [], None);
    hide Walk;
  }

  // ---- Quotas as layers ---------------------------------------------------

  predicate AllQuotas<K>(w: World<K>) { forall k | k in w :: !w[k].Scripted? }

  lemma {:induction false} QuotasRelease<K>(w: World<K>, reserved: seq<K>)
    requires AllQuotas(w) && forall k | k in reserved :: k in w
    ensures !ReleaseLayers(w, reserved).1
    decreases |reserved|
  {
    hide Release;
    if reserved != [] {
      var last := reserved[|reserved| - 1];
      QuotasRelease(w[last := GiveUp(w[last]).0], reserved[..|reserved| - 1]);
    }
  }

  lemma {:induction false} QuotasAnswer<K>(w: World<K>, rest: seq<K>, reserved: seq<K>, state: Option<ReservationState>)
    requires AllQuotas(w) && (forall k | k in rest :: k in w) && forall k | k in reserved :: k in w
    ensures Walk(w, rest, reserved, state).1.Ok?
    decreases |rest|
  {
    hide ReleaseLayers, RateLimit.RateReserve, AmountCap.CapReserve;
    if rest != [] {
      var layer := rest[0];
      var (s, answer) := Ask(w[layer]);
      QuotasRelease(w[layer := s], reserved);
      if Approves(answer) { QuotasAnswer(w[layer := s], rest[1..], Extended(w, reserved, layer), NextState(state, answer.value.state)); }
    }
  }

  /**
   * Any list of rate limits and amount caps, at any clock readings: the composition answers,
   * and either no quota has changed its mind about the operation, or every rate limit holds
   * it, and every amount cap too when it has an amount.
   */
  lemma QuotasAllOrNothing<K>(w: World<K>, layers: seq<K>)
    requires AllQuotas(w) && forall k | k in layers :: k in w
    ensures var (w', r) := Walk(w, layers, [], None);
            && r.Ok? && w'.Keys == w.Keys
            && (if Approves(r)
                then forall k | k in layers && (w[k].RateLimited? || AmountCap.ParseAmount(w[k].p).Amount?) :: Holds(w'[k])
                else forall k | k in w :: Holds(w'[k]) == Holds(w[k]))
  {
    QuotasAnswer(w, layers, [], None);
    AllOrNothing(w, layers);
    ApprovedMeansHeld(w, layers);
    assert forall k | k in w :: Reserves(w[k]) && Releases(w[k]);
    assert forall k | k in w && (w[k].RateLimited? || AmountCap.ParseAmount(w[k].p).Amount?) :: Willing(w[k]);
    hide Walk, Holds, Reserves, Releases, Willing, AmountCap.ParseAmount;
  }

  // ---- A composition as a layer -------------------------------------------

  /** The i-th layer reserves, and holds the operation when it is asked: from before, or as it was asked before. */
  predicate HoldsWhenAsked<K>(w: World<K>, layers: seq<K>, i: nat)
    requires i < |layers| && forall k | k in layers :: k in w
  {
    Reserves(w[layers[i]]) && (Holds(w[layers[i]]) || layers[i] in layers[..i])
  }

  predicate SomeHold<K>(w: World<K>, layers: seq<K>)
    requires forall k | k in layers :: k in w
  {
    exists i :: 0 <= i < |layers| && HoldsWhenAsked(w, layers, i)
  }

  predicate AllWilling<K>(w: World<K>) { forall k | k in w :: Willing(w[k]) }

  lemma SomeHoldStep<K>(w: World<K>, rest: seq<K>, s: LayerState)
    requires rest != [] && (forall k | k in rest :: k in w) && Reserves(s) == Reserves(w[rest[0]])
    requires Reserves(s) ==> Holds(s)
    ensures SomeHold(w, rest) <==> (Reserves(w[rest[0]]) && Holds(w[rest[0]])) || SomeHold(w[rest[0] := s], rest[1..])
  {
    var w1, tail := w[rest[0] := s], rest[1..];
    hide Holds, Reserves;
    assert HoldsWhenAsked(w, rest, 0) <==> Reserves(w[rest[0]]) && Holds(w[rest[0]]);
    forall i | 0 <= i < |tail| ensures HoldsWhenAsked(w1, tail, i) <==> HoldsWhenAsked(w, rest, i + 1) {
      assert rest[..i + 1] == [rest[0]] + tail[..i];
    }
    if i :| 0 <= i < |rest| && HoldsWhenAsked(w, rest, i) {
      if i > 0 { assert HoldsWhenAsked(w1, tail, i - 1); }
    }
    if i :| 0 <= i < |tail| && HoldsWhenAsked(w1, tail, i) { assert HoldsWhenAsked(w, rest, i + 1); }
  }

  lemma {:induction false} WalkState<K>(w: World<K>, rest: seq<K>, reserved: seq<K>, state: Option<ReservationState>)
    requires AllWilling(w) && (forall k | k in rest :: k in w) && forall k | k in reserved :: k in w
    ensures var r := Walk(w, rest, reserved, state).1;
            Approves(r) ==> (r.value.state == Some(AlreadyReserved) <==> state == Some(AlreadyReserved) || SomeHold(w, rest))
    decreases |rest|
  {
    hide ReleaseLayers, Ask, Undo, Holds, Reserves, Willing, HoldsWhenAsked;
    if rest != [] {
      var layer := rest[0];
      var (s, answer) := Ask(w[layer]);
      AskContract(w[layer]);
      AskHolds(w[layer]);
      if Approves(answer) {
        SomeHoldStep(w, rest, s);
        ApprovedCases(answer.value);
        hide SomeHold;
        WalkState(w[layer := s], rest[1..], Extended(w, reserved, layer), if Reserves(s) then NextState(state, answer.value.state) else state);
      } else if answer.Ok? {
        UndoAnswers(w[layer := s], reserved, answer.value);
      }
    }
  }

  /** The composition says the operation was reserved already, and yet some layer holds it only now. */
  ghost predicate HidesAHold<K>(w: World<K>, layers: seq<K>)
    requires forall k | k in layers :: k in w
  {
    var (w', r) := Walk(w, layers, [], None);
    r == Ok(PolicyResult(Approved, Some(AlreadyReserved))) && exists k :: k in layers && k in w' && Holds(w'[k]) && !Holds(w[k])
  }

  /**
   * When a composition is itself a layer: an approval of willing layers hides a new hold from
   * the composition around it, which will then not release it, exactly when some reserving
   * layer did not hold the operation before and some reserving layer did when it was asked.
   */
  lemma NestingExactly<K>(w: World<K>, layers: seq<K>)
    requires AllWilling(w) && (forall k | k in layers :: k in w) && Approves(Walk(w, layers, [], None).1)
    ensures HidesAHold(w, layers) <==> SomeHold(w, layers) && exists k :: k in layers && Reserves(w[k]) && !Holds(w[k])
  {
    WalkState(w, layers, [], None);
    WalkHolds(w, layers, [], None);
    WalkRestores(w, w, layers, [], None);
    var (w', r) := Walk(w, layers, [], None);
    hide Walk, Holds, Reserves, Releases, SomeHold, Willing;
    if k :| k in layers && Reserves(w[k]) && !Holds(w[k]) { assert Holds(w'[k]); }
  }

  lemma GiveUpWilling(s: LayerState)
    requires Willing(s)
    ensures Willing(GiveUp(s).0) && !GiveUp(s).1
  {
    if s.Scripted? {
      assert s.answers != [] ==> s.answers[0] == Hold && forall i | 0 <= i < |s.answers| - 1 :: s.answers[1..][i] == s.answers[i + 1];
    }
    hide Release, AmountCap.ParseAmount;
  }

  /** Willing layers let go without throwing. */
  lemma {:induction false} WillingLetGo<K>(w: World<K>, reserved: seq<K>)
    requires AllWilling(w) && forall k | k in reserved :: k in w
    ensures !ReleaseLayers(w, reserved).1
    ensures forall k | k in w :: Holds(ReleaseLayers(w, reserved).0[k]) ==> Holds(w[k]) && !(k in reserved && Releases(w[k]))
    decreases |reserved|
  {
    hide GiveUp, Holds, Reserves, Releases, Willing;
    if reserved != [] {
      var init, last := reserved[..|reserved| - 1], reserved[|reserved| - 1];
      GiveUpContract(w[last]);
      GiveUpWilling(w[last]);
      assert forall k | k in reserved :: k in init || k == last;
      WillingLetGo(w[last := GiveUp(w[last]).0], init);
    }
  }

  lemma {:induction false} WalkStaysWilling<K>(w: World<K>, rest: seq<K>, reserved: seq<K>, state: Option<ReservationState>)
    requires AllWilling(w) && (forall k | k in rest :: k in w) && forall k | k in reserved :: k in w
    ensures Approves(Walk(w, rest, reserved, state).1) ==> AllWilling(Walk(w, rest, reserved, state).0)
    decreases |rest|
  {
    hide ReleaseLayers, Ask, Undo, Holds, Reserves, Willing;
    if rest != [] {
      var layer := rest[0];
      var (s, answer) := Ask(w[layer]);
      AskContract(w[layer]);
      AskHolds(w[layer]);
      if Approves(answer) {
        WalkStaysWilling(w[layer := s], rest[1..], Extended(w, reserved, layer), if Reserves(s) then NextState(state, answer.value.state) else state);
      } else if answer.Ok? {
        UndoAnswers(w[layer := s], reserved, answer.value);
      }
    }
  }

  /**
   * What is left of a composition inside another one, when it approved and a later layer of
   * the outer one refuses: the outer one releases it, all its layers in reverse, unless it
   * answered that the operation was reserved already.
   */
  ghost function LeftAfterRefusal<K>(w: World<K>, layers: seq<K>): (left: World<K>)
    requires (forall k | k in layers :: k in w) && Approves(Walk(w, layers, [], None).1)
    ensures left.Keys == w.Keys
  {
    WalkRestores(w, w, layers, [], None);
    var (w', r) := Walk(w, layers, [], None);
    if r.value.state == Some(AlreadyReserved) then w' else ReleaseLayers(w', layers).0
  }

  /** Some layer is left with a hold it did not have before the refused operation. */
  ghost predicate Leaks<K>(w: World<K>, layers: seq<K>)
    requires (forall k | k in layers :: k in w) && Approves(Walk(w, layers, [], None).1)
  {
    exists k :: k in layers && Holds(LeftAfterRefusal(w, layers)[k]) && !Holds(w[k])
  }

  /** So a refused outer composition leaves a new hold behind exactly when the inner one hid it. */
  lemma RefusalLeaksExactly<K>(w: World<K>, layers: seq<K>)
    requires AllWilling(w) && (forall k | k in layers :: k in w && (Reserves(w[k]) ==> Releases(w[k])))
    requires Approves(Walk(w, layers, [], None).1)
    ensures Leaks(w, layers) <==> HidesAHold(w, layers)
  {
    WalkRestores(w, w, layers, [], None);
    WalkStaysWilling(w, layers, [], None);
    WalkKeepsMethods(w, layers, [], None);
    var (w', r) := Walk(w, layers, [], None);
    WillingLetGo(w', layers);
    ApprovedCases(r.value);
    hide Walk, ReleaseLayers, Holds, Reserves, Releases, Willing;
  }

  lemma {:induction false} WalkKeepsMethods<K>(w: World<K>, rest: seq<K>, reserved: seq<K>, state: Option<ReservationState>)
    requires (forall k | k in rest :: k in w) && forall k | k in reserved :: k in w
    ensures var (w', r) := Walk(w, rest, reserved, state);
            Approves(r) ==> w'.Keys == w.Keys && forall k | k in w :: Reserves(w'[k]) == Reserves(w[k]) && Releases(w'[k]) == Releases(w[k])
    decreases |rest|
  {
    hide ReleaseLayers, Ask, Undo, Holds, Reserves, Releases;
    if rest != [] {
      var layer := rest[0];
      var (s, answer) := Ask(w[layer]);
      AskContract(w[layer]);
      if Approves(answer) {
        WalkKeepsMethods(w[layer := s], rest[1..], Extended(w, reserved, layer), if Reserves(s) then NextState(state, answer.value.state) else state);
      } else if answer.Ok? {
        UndoAnswers(w[layer := s], reserved, answer.value);
      }
    }
  }

  /** One layer that holds the operation and one that does not are enough. */
  lemma MixedLayersLeak()
    ensures var w: World<int> := map[0 := Scripted(true, true, true, []), 1 := Scripted(true, true, false, [])];
            && AllWilling(w) && Approves(Walk(w, [0, 1], [], None).1)
            && HidesAHold(w, [0, 1]) && Leaks(w, [0, 1])
  {
    var w: World<int> := map[0 := Scripted(true, true, true, []), 1 := Scripted(true, true, false, [])];
    var w1: World<int> := w[1 := Scripted(true, true, true, [])];
    assert w[0 := w[0]] == w;
    assert [0, 1][1..] == [1] && [1][1..] == [];
    var layers: seq<int> := [];
    assert Walk(w1, layers, [1], Some(AlreadyReserved)) == (w1, Ok(PolicyResult(Approved, Some(AlreadyReserved))));
    assert [] + [1] == [1];
    assert Walk(w, [1], [], Some(AlreadyReserved)) == (w1, Ok(PolicyResult(Approved, Some(AlreadyReserved))));
    assert Walk(w, [0, 1], [], None) == (w1, Ok(PolicyResult(Approved, Some(AlreadyReserved))));
    assert 1 in [0, 1] && Holds(w1[1]) && !Holds(w[1]);
    RefusalLeaksExactly(w, [0, 1]);
  }

  // ---- Which answer is given ----------------------------------------------

  /** The layers once each listed one was asked, in order. */
  ghost function Asked<K>(w: World<K>, layers: seq<K>): (r: World<K>)
    requires forall k | k in layers :: k in w
    ensures r.Keys == w.Keys
  {
    if layers == [] then w
    else
      var before, last := Asked(w, layers[..|layers| - 1]), layers[|layers| - 1];
      before[last := Ask(before[last]).0]
  }

  /** What layer number j says when its turn comes. */
  ghost function Says<K>(w: World<K>, layers: seq<K>, j: nat): Result<PolicyResult, Failure>
    requires j < |layers| && forall k | k in layers :: k in w
  {
    Ask(Asked(w, layers[..j])[layers[j]]).1
  }

  /** It approves, and the operation is not committed yet. */
  ghost predicate GoesOn<K>(w: World<K>, layers: seq<K>, j: nat)
    requires j < |layers| && forall k | k in layers :: k in w
  {
    var a := Says(w, layers, j);
    a.Ok? && a.value.outcome == Approved && a.value.state != Some(AlreadyCommitted)
  }

  ghost predicate SaysHeld<K>(w: World<K>, layers: seq<K>, j: nat)
    requires j < |layers| && forall k | k in layers :: k in w
  {
    Reserves(w[layers[j]]) && Says(w, layers, j).Ok? && Says(w, layers, j).value.state == Some(AlreadyReserved)
  }

  /** The state the first n layers make: none without a reserving one, already_reserved when one of those says so, else new. */
  ghost predicate StateOf<K>(w: World<K>, layers: seq<K>, n: nat, state: Option<ReservationState>)
    requires n <= |layers| && forall k | k in layers :: k in w
  {
    && (state == None <==> forall j | 0 <= j < n :: !Reserves(w[layers[j]]))
    && (state == Some(AlreadyReserved) <==> exists j :: 0 <= j < n && SaysHeld(w, layers, j))
    && state != Some(AlreadyCommitted)
  }

  lemma {:induction false} AskedKeeps<K>(w: World<K>, layers: seq<K>, l: K)
    requires (forall k | k in layers :: k in w) && l in w
    ensures Reserves(Asked(w, layers)[l]) == Reserves(w[l])
    ensures l !in layers ==> Asked(w, layers)[l] == w[l]
  {
    hide Ask, Reserves;
    if layers != [] {
      var init, last := layers[..|layers| - 1], layers[|layers| - 1];
      AskedKeeps(w, init, l);
      assert l !in layers ==> l !in init && l != last;
      AskContract(Asked(w, init)[last]);
      AskedKeeps(w, init, last);
    }
  }

  lemma StateNext<K>(w: World<K>, layers: seq<K>, n: nat, state: Option<ReservationState>, said: Option<ReservationState>)
    requires n < |layers| && (forall k | k in layers :: k in w) && StateOf(w, layers, n, state)
    requires Says(w, layers, n).Ok? && Says(w, layers, n).value.state == said && said != Some(AlreadyCommitted)
    ensures StateOf(w, layers, n + 1, if Reserves(w[layers[n]]) then NextState(state, said) else state)
  {
    hide Says, Reserves;
    assert SaysHeld(w, layers, n) <==> Reserves(w[layers[n]]) && said == Some(AlreadyReserved);
    hide SaysHeld;
  }

  /** After n layers that go on, the walk stands before the next with the state they make. */
  lemma {:induction false} WalkAt<K>(w: World<K>, layers: seq<K>, n: nat) returns (reserved: seq<K>, state: Option<ReservationState>)
    requires n <= |layers| && (forall k | k in layers :: k in w) && forall j | 0 <= j < n :: GoesOn(w, layers, j)
    ensures (forall k | k in reserved :: k in layers[..n]) && StateOf(w, layers, n, state)
    ensures Walk(w, layers, [], None) == Walk(Asked(w, layers[..n]), layers[n..], reserved, state)
  {
    if n == 0 {
      reserved, state := [], None;
      assert layers[..0] == [] && layers[0..] == layers;
    } else {
      var m, layer := n - 1, layers[n - 1];
      reserved, state := WalkAt(w, layers, m);
      assert GoesOn(w, layers, m);
      assert layers[..n][..m] == layers[..m] && layers[m..][0] == layer && layers[m..][1..] == layers[n..];
      assert layers[..n] == layers[..m] + [layer];
      AskedKeeps(w, layers[..m], layer);
      AskContract(Asked(w, layers[..m])[layer]);
      var said := Says(w, layers, m).value.state;
      hide Ask, Undo, ReleaseLayers, StateOf, NextState, Reserves;
      StateNext(w, layers, m, state, said);
      if Reserves(w[layer]) {
        reserved, state := if said != Some(AlreadyReserved) then reserved + [layer] else reserved, NextState(state, said);
      }
    }
  }

  lemma {:induction false} ReleaseKeepsOthers<K>(w: World<K>, reserved: seq<K>, l: K)
    requires (forall k | k in reserved :: k in w) && l in w && l !in reserved
    ensures ReleaseLayers(w, reserved).0[l] == w[l]
    decreases |reserved|
  {
    hide GiveUp;
    if reserved != [] {
      var last := reserved[|reserved| - 1];
      ReleaseKeepsOthers(w[last := GiveUp(w[last]).0], reserved[..|reserved| - 1], l);
    }
  }

  lemma UndoKeepsOthers<K>(w: World<K>, reserved: seq<K>, answer: PolicyResult, l: K)
    requires (forall k | k in reserved :: k in w) && l in w && l !in reserved
    ensures l in Undo(w, reserved, answer).0 && Undo(w, reserved, answer).0[l] == w[l]
  {
    ReleaseKeepsOthers(w, reserved, l);
    ReleaseKeepsOthers(ReleaseLayers(w, reserved).0, reserved, l);
    hide ReleaseLayers;
  }

  /**
   * The answer of a walk is made by the first layer that does not go on: its refusal, or that
   * the operation is committed, is the answer, its throw is thrown, unless the rollback fails;
   * and the layers after it are not asked. When all go on the operation is approved, with the
   * state they make.
   */
  lemma AnswerIsOfFirst<K>(w: World<K>, layers: seq<K>, n: nat)
    requires n <= |layers| && (forall k | k in layers :: k in w) && forall j | 0 <= j < n :: GoesOn(w, layers, j)
    requires n < |layers| ==> !GoesOn(w, layers, n)
    ensures var (w', r) := Walk(w, layers, [], None);
            if n == |layers| then
              w' == Asked(w, layers) && r.Ok? && r.value.outcome == Approved && StateOf(w, layers, n, r.value.state)
            else
              && (r == Err(RollbackFailed) || (Says(w, layers, n).Ok? && r == Says(w, layers, n)) || (Says(w, layers, n).Err? && r == Err(LayerThrew)))
              && forall l | l in w && l !in layers[..n + 1] :: l in w' && w'[l] == w[l]
  {
    var reserved, state := WalkAt(w, layers, n);
    if n == |layers| {
      assert layers[..n] == layers && layers[n..] == [];
    } else {
      StopsHere(w, layers, n, reserved, state);
    }
  }

  lemma StopsHere<K>(w: World<K>, layers: seq<K>, n: nat, reserved: seq<K>, state: Option<ReservationState>)
    requires n < |layers| && (forall k | k in layers :: k in w) && !GoesOn(w, layers, n)
    requires forall k | k in reserved :: k in layers[..n]
    ensures var (w', r) := Walk(Asked(w, layers[..n]), layers[n..], reserved, state);
            && (r == Err(RollbackFailed) || (Says(w, layers, n).Ok? && r == Says(w, layers, n)) || (Says(w, layers, n).Err? && r == Err(LayerThrew)))
            && forall l | l in w && l !in layers[..n + 1] :: l in w' && w'[l] == w[l]
  {
    var layer, said := layers[n], Says(w, layers, n);
    var w0 := Asked(w, layers[..n]);
    var w1 := w0[layer := Ask(w0[layer]).0];
    assert layers[n..][0] == layer && layers[..n + 1] == layers[..n] + [layer];
    var after := Walk(w0, layers[n..], reserved, state).0;
    hide Ask, Asked, ReleaseLayers;
    if said.Ok? { UndoAnswers(w1, reserved, said.value); }
    hide Undo;
    forall l | l in w && l !in layers[..n + 1] ensures l in after && after[l] == w[l] {
      AskedKeeps(w, layers[..n], l);
      ReleaseKeepsOthers(w1, reserved, l);
      if said.Ok? { UndoKeepsOthers(w1, reserved, said.value, l); }
    }
  }
}
