/** Mandate scopes: the two-pointer wildcard matcher (matchScope) and its declarative meaning. */
module Scope {

  const STAR: string := "*"

  /** s.split(sep) */
  function Split(s: string, sep: char): (parts: seq<string>)
    ensures |parts| >= 1
  {
    if s == "" then [""]
    else
      var rest := Split(s[1..], sep);
      if s[0] == sep then [""] + rest else [[s[0]] + rest[0]] + rest[1..]
  }

  /** parts.join(sep) */
  function Join(parts: seq<string>, sep: char): string
    requires |parts| >= 1
  {
    if |parts| == 1 then parts[0] else parts[0] + [sep] + Join(parts[1..], sep)
  }

  /** Splitting loses nothing and leaves no separator inside a segment. */
  lemma {:induction false} JoinSplit(s: string, sep: char)
    ensures Join(Split(s, sep), sep) == s
    ensures forall i | 0 <= i < |Split(s, sep)| :: sep !in Split(s, sep)[i]
  {
    if s != "" {
      JoinSplit(s[1..], sep);
      var rest := Split(s[1..], sep);
      assert s == [s[0]] + s[1..];
      if s[0] == sep {
        assert ([""] + rest)[1..] == rest;
        assert "" + [sep] + s[1..] == s;
      } else if |rest| > 1 {
        assert ([[s[0]] + rest[0]] + rest[1..])[1..] == rest[1..];
        assert [s[0]] + rest[0] + [sep] + Join(rest[1..], sep) == [s[0]] + (rest[0] + [sep] + Join(rest[1..], sep));
      }
    }
  }

  function FirstStar(scope: seq<string>): (k: nat)
    ensures k <= |scope|
    ensures forall i | 0 <= i < k :: scope[i] != STAR
    ensures k < |scope| ==> scope[k] == STAR
  {
    if scope == [] || scope[0] == STAR then 0 else 1 + FirstStar(scope[1..])
  }

  /** The i-th segments from the end agree. */
  predicate AgreeFromEnd(action: seq<string>, scope: seq<string>, i: nat)
    requires 1 <= i <= |action| && i <= |scope|
  {
    scope[|scope| - i] == STAR || action[|action| - i] == scope[|scope| - i]
  }

  /**
   * The meaning of a scope over segments: the first `*` takes up all the slack (zero or more
   * segments, one or more when it is last), every later `*` stands for exactly one segment.
   */
  predicate ScopeMatches(action: seq<string>, scope: seq<string>) {
    var k := FirstStar(scope);
    if k == |scope| then action == scope
    else if k == |scope| - 1 then |action| >= |scope| && action[..k] == scope[..k]
    else
      && |action| >= |scope| - 1 && action[..k] == scope[..k]
      && forall i | 1 <= i < |scope| - k :: AgreeFromEnd(action, scope, i)
  }

  /** What the pointers ai and si stand for inside the loop. */
  ghost predicate Scanned(a: seq<string>, s: seq<string>, ai: nat, si: nat) {
    var k := FirstStar(s);
    && ai <= |a| && si <= |s|
    && (if si <= k then ai == si && a[..si] == s[..si]
        else
          && k < |s| - 1 && |a| - ai == |s| - si && |a| >= |s| - 1 && a[..k] == s[..k]
          && forall i | |s| - si < i < |s| - k :: AgreeFromEnd(a, s, i))
  }

  /** One literal step of the loop. */
  lemma ScanLiteral(a: seq<string>, s: seq<string>, ai: nat, si: nat)
    requires Scanned(a, s, ai, si) && ai < |a| && si < |s| && s[si] != STAR
    ensures a[ai] == s[si] ==> Scanned(a, s, ai + 1, si + 1)
    ensures a[ai] != s[si] ==> !ScopeMatches(a, s)
  {
    var k := FirstStar(s);
    if si < k {
      assert a[..si + 1] == a[..si] + [a[si]] && s[..si + 1] == s[..si] + [s[si]];
      if a[ai] != s[si] && |a| >= k { assert a[..k][si] != s[..k][si]; }
    } else {
      assert AgreeFromEnd(a, s, |s| - si) <==> a[ai] == s[si];
    }
  }

  /** One wildcard step of the loop. */
  lemma ScanStar(a: seq<string>, s: seq<string>, ai: nat, si: nat)
    requires Scanned(a, s, ai, si) && ai < |a| && si < |s| && s[si] == STAR
    ensures si == |s| - 1 ==> ScopeMatches(a, s)
    ensures si < |s| - 1 ==>
      var need := |a| - (|s| - (si + 1));
      if need < ai then !ScopeMatches(a, s) else Scanned(a, s, need, si + 1)
  {
    var k := FirstStar(s);
    if si > k {
      assert AgreeFromEnd(a, s, |s| - si);
    }
  }

  /** When the loop runs out of segments, the scope matches exactly if both sides ran out together. */
  lemma ScanEnd(a: seq<string>, s: seq<string>, ai: nat, si: nat)
    requires Scanned(a, s, ai, si) && (ai == |a| || si == |s|)
    ensures ScopeMatches(a, s) <==> ai == |a| && si == |s|
  {
    var k := FirstStar(s);
    if si <= k { assert a[..ai] == s[..si]; }
  }

  method MatchScope(action: string, scope: string) returns (matches: bool)
    ensures matches == ScopeMatches(Split(action, ':'), Split(scope, ':'))
  {
    if scope == STAR { StarScope(action); return true; }
    if action == scope { SameScope(Split(scope, ':')); return true; }
    var aParts, sParts := Split(action, ':'), Split(scope, ':');
    var ai, si := 0, 0;
    assert Scanned(aParts, sParts, ai, si);
    hide Scanned, ScopeMatches, Split;
    while ai < |aParts| && si < |sParts|
      invariant 0 <= ai <= |aParts| && 0 <= si <= |sParts| && Scanned(aParts, sParts, ai, si)
      decreases |sParts| - si
    {
      if sParts[si] == STAR {
        ScanStar(aParts, sParts, ai, si);
        if si == |sParts| - 1 { return true; }
        si := si + 1;
        var need := |aParts| - (|sParts| - si);
        if need < ai { return false; }
        ai := need;
        continue;
      }
      ScanLiteral(aParts, sParts, ai, si);
      if aParts[ai] != sParts[si] { return false; }
      ai, si := ai + 1, si + 1;
    }
    ScanEnd(aParts, sParts, ai, si);
    return ai == |aParts| && si == |sParts|;
  }

  /** The early return for the scope "*" agrees with the loop. */
  lemma StarScope(action: string)
    ensures ScopeMatches(Split(action, ':'), Split(STAR, ':'))
  {
    var rest := Split(STAR[1..], ':');
    assert rest == [""] && rest[1..] == [] && [STAR[0]] + rest[0] == STAR;
    assert Split(STAR, ':') == [STAR];
  }

  /** The early return for equal strings agrees with the loop, also when the action contains stars. */
  lemma SameScope(parts: seq<string>)
    ensures ScopeMatches(parts, parts)
  {}

  // ---- The ordinary glob --------------------------------------------------

  /** The usual reading with any number of wildcards: each stands for zero or more segments, a last one for one or more. */
  ghost predicate Glob(action: seq<string>, scope: seq<string>)
    decreases |scope|
  {
    if scope == [] then action == []
    else if scope[0] != STAR then action != [] && action[0] == scope[0] && Glob(action[1..], scope[1..])
    else if |scope| == 1 then |action| >= 1
    else exists n | 0 <= n <= |action| :: Glob(action[n..], scope[1..])
  }

  function Stars(scope: seq<string>): (n: nat)
    ensures n <= |scope|
  {
    if scope == [] then 0 else (if scope[0] == STAR then 1 else 0) + Stars(scope[1..])
  }

  /** Scopes aligned segment by segment match as globs. */
  lemma {:induction false} AlignedGlob(action: seq<string>, scope: seq<string>)
    requires |action| == |scope| && forall j | 0 <= j < |scope| :: scope[j] == STAR || action[j] == scope[j]
    ensures Glob(action, scope)
    decreases |scope|
  {
    if scope != [] {
      AlignedGlob(action[1..], scope[1..]);
    }
  }

  /** What the matcher accepts, the ordinary glob accepts. */
  lemma {:induction false} MatchIsSound(action: seq<string>, scope: seq<string>)
    requires ScopeMatches(action, scope)
    ensures Glob(action, scope)
    decreases |scope|
  {
    if scope == [] {
    } else if scope[0] != STAR {
      TailMatches(action, scope);
      MatchIsSound(action[1..], scope[1..]);
    } else if |scope| > 1 {
      var n := |action| - (|scope| - 1);
      var a, s := action[n..], scope[1..];
      forall j | 0 <= j < |s| ensures s[j] == STAR || a[j] == s[j] {
        assert AgreeFromEnd(action, scope, |s| - j);
      }
      AlignedGlob(a, s);
      assert Glob(action[n..], scope[1..]);
    }
  }

  /** A literal first segment can be taken off both sides. */
  lemma TailMatches(action: seq<string>, scope: seq<string>)
    requires scope != [] && scope[0] != STAR
    ensures ScopeMatches(action, scope)
       <==> action != [] && action[0] == scope[0] && ScopeMatches(action[1..], scope[1..])
  {
    var k := FirstStar(scope);
    assert FirstStar(scope[1..]) == k - 1;
    if action != [] {
      var a, s := action[1..], scope[1..];
      if k <= |action| { PrefixTail(action, scope, k); }
      if k == |scope| {
        assert action == [action[0]] + a && scope == [scope[0]] + s;
      } else {
        assert forall i | 1 <= i <= |a| && i <= |s| :: AgreeFromEnd(a, s, i) == AgreeFromEnd(action, scope, i);
      }
    }
  }

  lemma PrefixTail(a: seq<string>, s: seq<string>, k: nat)
    requires 1 <= k <= |a| && k <= |s|
    ensures a[..k] == s[..k] <==> a[0] == s[0] && a[1..][..k - 1] == s[1..][..k - 1]
  {
    assert a[..k] == [a[0]] + a[1..][..k - 1] && s[..k] == [s[0]] + s[1..][..k - 1];
  }

  /** With at most one wildcard the matcher accepts everything the glob does. */
  lemma {:induction false} MatchIsComplete(action: seq<string>, scope: seq<string>)
    requires Stars(scope) <= 1 && Glob(action, scope)
    ensures ScopeMatches(action, scope)
    decreases |scope|
  {
    if scope == [] {
    } else if scope[0] != STAR {
      MatchIsComplete(action[1..], scope[1..]);
      TailMatches(action, scope);
    } else if |scope| > 1 {
      var n :| 0 <= n <= |action| && Glob(action[n..], scope[1..]);
      NoStars(scope[1..]);
      LiteralGlob(action[n..], scope[1..]);
      assert forall i | 1 <= i < |scope| :: AgreeFromEnd(action[n..], scope[1..], i) == AgreeFromEnd(action, scope, i);
    }
  }

  lemma {:induction false} NoStars(scope: seq<string>)
    requires Stars(scope) == 0
    ensures forall j | 0 <= j < |scope| :: scope[j] != STAR
  {
    if scope != [] {
      NoStars(scope[1..]);
      assert scope == [scope[0]] + scope[1..];
    }
  }

  lemma {:induction false} LiteralGlob(action: seq<string>, scope: seq<string>)
    requires forall j | 0 <= j < |scope| :: scope[j] != STAR
    requires Glob(action, scope)
    ensures action == scope
    decreases |scope|
  {
    if scope != [] {
      LiteralGlob(action[1..], scope[1..]);
      assert action == [action[0]] + action[1..] && scope == [scope[0]] + scope[1..];
    }
  }

  // ---- Exactly when the matcher loses nothing -----------------------------

  /** Every action the glob accepts, the matcher accepts. */
  ghost predicate LosesNothing(scope: seq<string>) { forall action :: Glob(action, scope) ==> ScopeMatches(action, scope) }

  /** At most one wildcard, or two that are the last two segments. */
  predicate PlainStars(scope: seq<string>) {
    Stars(scope) <= 1 || (Stars(scope) == 2 && scope[|scope| - 2] == scope[|scope| - 1] == STAR)
  }

  lemma {:induction false} StarsBound(scope: seq<string>)
    ensures Stars(scope) == 0 <==> FirstStar(scope) == |scope|
    ensures scope != [] && FirstStar(scope) == |scope| - 1 ==> Stars(scope) == 1
  {
    if scope != [] { StarsBound(scope[1..]); }
  }

  /** Two trailing wildcards ask for one more segment, as the glob does. */
  lemma {:induction false} TrailingPairIsComplete(action: seq<string>, scope: seq<string>)
    requires Stars(scope) == 2 && scope[|scope| - 2] == scope[|scope| - 1] == STAR && Glob(action, scope)
    ensures ScopeMatches(action, scope)
    decreases |scope|
  {
    if scope[0] != STAR {
      TrailingPairIsComplete(action[1..], scope[1..]);
      TailMatches(action, scope);
    } else {
      LeadingPair(scope);
      var n :| 0 <= n <= |action| && Glob(action[n..], scope[1..]);
    }
  }

  lemma LeadingPair(scope: seq<string>)
    requires |scope| >= 2 && scope[0] == STAR && Stars(scope) == 2 && scope[|scope| - 2] == scope[|scope| - 1] == STAR
    ensures |scope| == 2
  {
    if |scope| > 2 { StarsInTail(scope[1..]); }
  }

  lemma {:induction false} StarsInTail(scope: seq<string>)
    requires |scope| >= 2 && scope[|scope| - 2] == scope[|scope| - 1] == STAR
    ensures Stars(scope) >= 2
  {
    if |scope| > 2 { StarsInTail(scope[1..]); } else { assert scope[1..][1..] == []; }
  }

  /** The scope with nothing for every wildcard, but `tail` for one in the last place. */
  function Fill(scope: seq<string>, tail: seq<string>): seq<string> {
    if scope == [] then []
    else if scope[0] != STAR then [scope[0]] + Fill(scope[1..], tail)
    else if |scope| == 1 then tail
    else Fill(scope[1..], tail)
  }

  lemma {:induction false} FillIsGlob(scope: seq<string>, tail: seq<string>)
    requires |tail| >= 1
    ensures Glob(Fill(scope, tail), scope)
    decreases |scope|
  {
    if scope != [] && !(scope[0] == STAR && |scope| == 1) {
      var rest := Fill(scope[1..], tail);
      FillIsGlob(scope[1..], tail);
      assert rest[0..] == rest;
      if scope[0] != STAR { assert ([scope[0]] + rest)[1..] == rest; }
    }
  }

  predicate LastIsStar(scope: seq<string>) { scope != [] && scope[|scope| - 1] == STAR }

  lemma TakeEnd(first: string, rest: seq<string>, n: nat)
    requires n <= |rest|
    ensures ([first] + rest)[n + 1..] == rest[n..]
  {}

  lemma {:induction false} FillLength(scope: seq<string>, tail: seq<string>)
    ensures |Fill(scope, tail)| == |scope| - Stars(scope) + if LastIsStar(scope) then |tail| else 0
    ensures LastIsStar(scope) && |scope| >= 2 && scope[|scope| - 2] != STAR ==>
      Fill(scope, tail)[|Fill(scope, tail)| - |tail|..] == tail
    decreases |scope|
  {
    if scope != [] {
      FillLength(scope[1..], tail);
      var rest := Fill(scope[1..], tail);
      if |scope| == 2 && LastIsStar(scope) {
        assert scope[1..] == [STAR] && rest == tail;
      }
      if scope[0] != STAR && |rest| >= |tail| { TakeEnd(scope[0], rest, |rest| - |tail|); }
    }
  }

  /** Another segment than the given one. */
  function Other(segment: string): (r: string)
    ensures r != segment
  {
    segment + "x"
  }

  /** With three wildcards, or two and a literal last, filling in nothing is too short for the matcher. */
  lemma TooShort(scope: seq<string>)
    requires Stars(scope) >= if LastIsStar(scope) then 3 else 2
    ensures !LosesNothing(scope)
  {
    var action := Fill(scope, [""]);
    FillIsGlob(scope, [""]);
    FillLength(scope, [""]);
    StarsBound(scope);
    hide Glob, Fill, Stars;
    assert !ScopeMatches(action, scope);
  }

  /** With two wildcards, one last and not directly before it the other, the last may take two segments. */
  lemma TooLong(scope: seq<string>)
    requires Stars(scope) == 2 && LastIsStar(scope) && |scope| >= 2 && scope[|scope| - 2] != STAR
    ensures !LosesNothing(scope)
  {
    var tail := [Other(scope[|scope| - 2]), ""];
    var action := Fill(scope, tail);
    FillIsGlob(scope, tail);
    FillLength(scope, tail);
    StarsBound(scope);
    FirstStarHere(scope);
    assert action[|action| - 2] == action[|action| - 2..][0] == tail[0];
    hide Glob, Fill, Stars;
    assert |action| == |scope| && !AgreeFromEnd(action, scope, 2);
    assert !ScopeMatches(action, scope);
  }

  /** The first star is neither of the last two segments. */
  lemma FirstStarHere(scope: seq<string>)
    requires Stars(scope) == 2 && |scope| >= 2 && scope[|scope| - 2] != STAR
    ensures FirstStar(scope) < |scope| - 2
  {
    StarsBound(scope);
    assert scope[FirstStar(scope)] == STAR;
  }

  /**
   * The matcher accepts everything the ordinary glob does exactly for scopes with at most
   * one wildcard, or with two that come last.
   */
  lemma CompleteExactly(scope: seq<string>)
    ensures LosesNothing(scope) <==> PlainStars(scope)
  {
    StarsBound(scope);
    if Stars(scope) <= 1 {
      forall action | Glob(action, scope) ensures ScopeMatches(action, scope) { MatchIsComplete(action, scope); }
    } else if Stars(scope) == 2 && LastIsStar(scope) {
      if scope[|scope| - 2] == STAR {
        forall action | Glob(action, scope) ensures ScopeMatches(action, scope) { TrailingPairIsComplete(action, scope); }
      } else {
        TooLong(scope);
      }
    } else {
      TooShort(scope);
    }
  }

  /** With two wildcards the matcher is narrower than the glob. */
  lemma TwoStarsAreNarrower()
    ensures var action, scope := ["a", "b", "x", "y", "c"], ["a", STAR, "b", STAR, "c"];
            Glob(action, scope) && !ScopeMatches(action, scope)
  {
    var action, scope := ["a", "b", "x", "y", "c"], ["a", STAR, "b", STAR, "c"];
    assert FirstStar(scope) == 1 by {
      assert scope[1..] == [STAR, "b", STAR, "c"];
    }
    assert !AgreeFromEnd(action, scope, 3);
    assert !ScopeMatches(action, scope);
    assert scope[1..][1..][1..][1..] == ["c"] && action[4..] == ["c"];
    assert Glob(["c"], ["c"]);
    assert Glob(["x", "y", "c"], [STAR, "c"]) by { assert ["x", "y", "c"][2..] == ["c"] && [STAR, "c"][1..] == ["c"]; }
    assert Glob(["b", "x", "y", "c"], ["b", STAR, "c"]) by {
      assert ["b", "x", "y", "c"][1..] == ["x", "y", "c"] && ["b", STAR, "c"][1..] == [STAR, "c"];
    }
    assert Glob(["b", "x", "y", "c"], [STAR, "b", STAR, "c"]) by {
      assert ["b", "x", "y", "c"][0..] == ["b", "x", "y", "c"] && [STAR, "b", STAR, "c"][1..] == ["b", STAR, "c"];
    }
    assert action[1..] == ["b", "x", "y", "c"] && scope[1..] == [STAR, "b", STAR, "c"];
  }
}
