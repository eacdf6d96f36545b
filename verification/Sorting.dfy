/** Array.prototype.sort on string keys: the order, the sort, and uniqueness of its result. */
module Sorting {

  /** Lexicographic order of strings. */
  predicate Leq(a: string, b: string) {
    if a == "" then true
    else if b == "" then false
    else if a[0] != b[0] then a[0] < b[0]
    else Leq(a[1..], b[1..])
  }

  lemma {:induction false} LeqTotal(a: string, b: string)
    ensures Leq(a, b) || Leq(b, a)
  {
    if a != "" && b != "" && a[0] == b[0] { LeqTotal(a[1..], b[1..]); }
  }

  lemma {:induction false} LeqAntisymmetric(a: string, b: string)
    requires Leq(a, b) && Leq(b, a)
    ensures a == b
  {
    if a != "" {
      LeqAntisymmetric(a[1..], b[1..]);
      assert a == [a[0]] + a[1..] && b == [b[0]] + b[1..];
    }
  }

  lemma {:induction false} LeqTransitive(a: string, b: string, c: string)
    requires Leq(a, b) && Leq(b, c)
    ensures Leq(a, c)
  {
    if a != "" && a[0] == b[0] && b[0] == c[0] { LeqTransitive(a[1..], b[1..], c[1..]); }
  }

  function Insert<T>(x: T, s: seq<T>, key: T -> string): seq<T> {
    if s == [] || Leq(key(x), key(s[0])) then [x] + s else [s[0]] + Insert(x, s[1..], key)
  }

  function Sort<T>(s: seq<T>, key: T -> string): seq<T> {
    if s == [] then [] else Insert(s[0], Sort(s[1..], key), key)
  }

  predicate Sorted<T>(s: seq<T>, key: T -> string) {
    forall i, j | 0 <= i < j < |s| :: Leq(key(s[i]), key(s[j]))
  }

  lemma {:induction false} InsertSorts<T>(x: T, s: seq<T>, key: T -> string)
    requires Sorted(s, key)
    ensures Sorted(Insert(x, s, key), key) && multiset(Insert(x, s, key)) == multiset{x} + multiset(s)
  {
    if s == [] {
    } else if Leq(key(x), key(s[0])) {
      forall j | 0 <= j < |s| ensures Leq(key(x), key(s[j])) {
        if j > 0 { LeqTransitive(key(x), key(s[0]), key(s[j])); }
      }
    } else {
      LeqTotal(key(x), key(s[0]));
      var t := Insert(x, s[1..], key);
      InsertSorts(x, s[1..], key);
      assert s == [s[0]] + s[1..];
      forall j | 0 <= j < |t| ensures Leq(key(s[0]), key(t[j])) {
        assert t[j] in multiset(t);
        if t[j] != x {
          assert t[j] in multiset(s[1..]);
          var k :| 0 <= k < |s[1..]| && s[1..][k] == t[j];
          assert s[k + 1] == t[j];
        }
      }
    }
  }

  /** Sorting gives a sorted permutation. */
  lemma {:induction false} SortSorts<T>(s: seq<T>, key: T -> string)
    ensures Sorted(Sort(s, key), key) && multiset(Sort(s, key)) == multiset(s)
  {
    if s != [] {
      SortSorts(s[1..], key);
      InsertSorts(s[0], Sort(s[1..], key), key);
      assert s == [s[0]] + s[1..];
    }
  }

  /** No two different elements share a key. */
  predicate KeyDetermines<T(==)>(s: seq<T>, key: T -> string) {
    forall x, y | x in s && y in s && key(x) == key(y) :: x == y
  }

  lemma HeadIsLeast<T>(s: seq<T>, x: T, key: T -> string)
    requires Sorted(s, key) && x in s
    ensures Leq(key(s[0]), key(x))
  {
    var j :| 0 <= j < |s| && s[j] == x;
    if j == 0 { LeqTotal(key(x), key(x)); }
  }

  lemma SameElements<T>(s: seq<T>, t: seq<T>, x: T)
    requires multiset(s) == multiset(t)
    ensures x in s <==> x in t
    ensures |s| == |t|
  {
    assert x in s <==> x in multiset(s);
    assert x in t <==> x in multiset(t);
    assert |s| == |multiset(s)| && |t| == |multiset(t)|;
  }

  lemma TailMultiset<T>(s: seq<T>)
    requires s != []
    ensures multiset(s[1..]) == multiset(s) - multiset{s[0]}
  {
    assert s == [s[0]] + s[1..];
  }

  lemma {:induction false} SortedUnique<T>(s: seq<T>, t: seq<T>, key: T -> string)
    requires Sorted(s, key) && Sorted(t, key) && multiset(s) == multiset(t) && KeyDetermines(s, key)
    ensures s == t
  {
    if s != [] {
      SameElements(s, t, s[0]);
      SameElements(s, t, t[0]);
      HeadIsLeast(s, t[0], key);
      HeadIsLeast(t, s[0], key);
      LeqAntisymmetric(key(s[0]), key(t[0]));
      assert s[0] == t[0];
      TailMultiset(s);
      TailMultiset(t);
      assert Sorted(s[1..], key) && Sorted(t[1..], key) && KeyDetermines(s[1..], key);
      hide *;
      SortedUnique(s[1..], t[1..], key);
      assert s == [s[0]] + s[1..] && t == [t[0]] + t[1..];
    } else {
      assert |t| == |multiset(t)| == |multiset(s)| == 0;
    }
  }

  /** What is sorted does not depend on the order it came in. */
  lemma SortIgnoresOrder<T>(s: seq<T>, t: seq<T>, key: T -> string)
    requires KeyDetermines(s, key)
    ensures Sort(s, key) == Sort(t, key) <==> multiset(s) == multiset(t)
  {
    SortSorts(s, key);
    SortSorts(t, key);
    if multiset(s) == multiset(t) {
      forall x | x in Sort(s, key) ensures x in s { assert x in multiset(s); }
      SortedUnique(Sort(s, key), Sort(t, key), key);
    }
  }
}
