/**
 * Digit strings and the JavaScript string operations the amount code is made of:
 * BigInt(text), n.toString(), padStart, padEnd, slice and trailing-zero removal.
 */
module Digits {

  predicate IsDigit(c: char) { '0' <= c <= '9' }

  predicate AllDigits(s: string) { forall i | 0 <= i < |s| :: IsDigit(s[i]) }

  function DigitVal(c: char): (d: nat)
    requires IsDigit(c)
    ensures d < 10
  {
    c as int - '0' as int
  }

  function DigitChar(d: nat): (c: char)
    requires d < 10
    ensures IsDigit(c) && DigitVal(c) == d
  {
    "0123456789"[d]
  }

  function Pow10(k: nat): (p: nat)
    ensures p >= 1
  {
    if k == 0 then 1 else 10 * Pow10(k - 1)
  }

  /** BigInt of a digit string; the empty string reads as zero. */
  function NatOf(s: string): nat
    requires AllDigits(s)
  {
    if s == "" then 0 else 10 * NatOf(s[..|s| - 1]) + DigitVal(s[|s| - 1])
  }

  /** n.toString() for a non-negative BigInt. */
  function Show(n: nat): (s: string)
    ensures AllDigits(s) && |s| >= 1
  {
    if n < 10 then [DigitChar(n)] else Show(n / 10) + [DigitChar(n % 10)]
  }

  function Zeros(k: nat): (s: string)
    ensures |s| == k && AllDigits(s)
    ensures forall i | 0 <= i < k :: s[i] == '0'
  {
    seq(k, i => '0')
  }

  function PadEnd(s: string, n: nat): string {
    if |s| >= n then s else s + Zeros(n - |s|)
  }

  function PadStart(s: string, n: nat): string {
    if |s| >= n then s else Zeros(n - |s|) + s
  }

  lemma MoreZeros(s: string, t: string, k: nat)
    requires s == t + Zeros(k)
    ensures s + ['0'] == t + Zeros(k + 1)
  {
    assert Zeros(k + 1) == Zeros(k) + ['0'];
    hide Zeros;
  }

  /** s.replace(/0+$/, ''): the string without its trailing zeros. */
  function TrimZeros(s: string): (t: string)
    ensures |t| <= |s| && t == s[..|t|]
    ensures t == "" || t[|t| - 1] != '0'
    ensures s == t + Zeros(|s| - |t|)
  {
    if s != "" && s[|s| - 1] == '0' then
      var t := TrimZeros(s[..|s| - 1]);
      MoreZeros(s[..|s| - 1], t, |s| - 1 - |t|);
      assert s == s[..|s| - 1] + ['0'];
      t
    else s
  }

  /** The numeral has no superfluous leading zero. */
  predicate NoLeadingZero(s: string) { |s| >= 1 && (s[0] == '0' ==> |s| == 1) }

  lemma Regroup(x: nat, y: nat, z: nat)
    ensures x * (y * z) == (x * y) * z
  {}

  lemma {:induction false} Pow10Add(a: nat, b: nat)
    ensures Pow10(a + b) == Pow10(a) * Pow10(b)
  {
    if a > 0 {
      Pow10Add(a - 1, b);
      assert a - 1 + b == a + b - 1;
      Regroup(10, Pow10(a - 1), Pow10(b));
    }
  }

  lemma NatOfSnoc(s: string, c: char)
    requires AllDigits(s) && IsDigit(c)
    ensures AllDigits(s + [c]) && NatOf(s + [c]) == 10 * NatOf(s) + DigitVal(c)
  {
    assert (s + [c])[..|s|] == s;
  }

  lemma Distribute(x: nat, p: nat, y: nat, d: nat)
    ensures 10 * (x * p + y) + d == x * (10 * p) + (10 * y + d)
  {
    assert 10 * (x * p) == x * (10 * p);
  }

  lemma {:induction false} NatOfConcat(a: string, b: string)
    requires AllDigits(a) && AllDigits(b)
    ensures AllDigits(a + b)
    ensures NatOf(a + b) == NatOf(a) * Pow10(|b|) + NatOf(b)
    decreases |b|
  {
    if b == "" {
      assert a + b == a;
    } else {
      var b', c := b[..|b| - 1], b[|b| - 1];
      NatOfConcat(a, b');
      assert a + b == (a + b') + [c];
      NatOfSnoc(a + b', c);
      Distribute(NatOf(a), Pow10(|b'|), NatOf(b'), DigitVal(c));
    }
  }

  lemma {:induction false} NatOfZeros(k: nat)
    ensures NatOf(Zeros(k)) == 0
  {
    if k > 0 {
      NatOfZeros(k - 1);
      assert Zeros(k)[..k - 1] == Zeros(k - 1);
    }
  }

  /** Padding on the left keeps the value; padding on the right scales it. */
  lemma PadValues(s: string, n: nat)
    requires AllDigits(s)
    ensures AllDigits(PadStart(s, n)) && NatOf(PadStart(s, n)) == NatOf(s)
    ensures AllDigits(PadEnd(s, n)) && NatOf(PadEnd(s, n)) == NatOf(s) * Pow10(|PadEnd(s, n)| - |s|)
  {
    if |s| < n {
      NatOfZeros(n - |s|);
      NatOfConcat(s, Zeros(n - |s|));
      NatOfConcat(Zeros(n - |s|), s);
    }
  }

  lemma {:induction false} NatOfBound(s: string)
    requires AllDigits(s)
    ensures NatOf(s) < Pow10(|s|)
  {
    if s != "" { NatOfBound(s[..|s| - 1]); }
  }

  /** BigInt(n.toString()) is n. */
  lemma {:induction false} NatOfShow(n: nat)
    ensures NatOf(Show(n)) == n
  {
    if n < 10 {
      assert Show(n)[..0] == "";
    } else {
      NatOfShow(n / 10);
      assert Show(n)[..|Show(n)| - 1] == Show(n / 10);
    }
  }

  lemma {:induction false} ShowNoLeadingZero(n: nat)
    ensures NoLeadingZero(Show(n))
    ensures n > 0 ==> Show(n)[0] != '0'
  {
    if n >= 10 { ShowNoLeadingZero(n / 10); }
  }

  /** A numeral of n < 10^k has at most k digits. */
  lemma {:induction false} ShowLength(n: nat, k: nat)
    requires k >= 1 && n < Pow10(k)
    ensures |Show(n)| <= k
  {
    if n >= 10 {
      ShowLength(n / 10, k - 1);
    }
  }

  lemma DigitCharVal(c: char)
    requires IsDigit(c)
    ensures DigitChar(DigitVal(c)) == c
  {}

  lemma ShowSnoc(n: nat, c: char)
    requires n > 0 && IsDigit(c)
    ensures Show(10 * n + DigitVal(c)) == Show(n) + [c]
  {
    DigitCharVal(c);
    var v := DigitVal(c);
    TenPlus(n, v);
    hide DigitVal, DigitChar;
    assert Show(10 * n + v) == Show((10 * n + v) / 10) + [DigitChar((10 * n + v) % 10)];
  }

  lemma TenPlus(n: nat, v: nat)
    requires v < 10
    ensures (10 * n + v) / 10 == n && (10 * n + v) % 10 == v
  {}

  lemma ShowDigit(c: char)
    requires IsDigit(c)
    ensures Show(NatOf([c])) == [c]
  {
    DigitCharVal(c);
    assert [c][..0] == "";
  }

  lemma ShowAppended(s: string, c: char)
    requires AllDigits(s) && IsDigit(c) && NatOf(s) > 0 && Show(NatOf(s)) == s
    ensures AllDigits(s + [c]) && Show(NatOf(s + [c])) == s + [c]
  {
    NatOfSnoc(s, c);
    hide NatOf;
    ShowSnoc(NatOf(s), c);
  }

  /** Printing undoes reading on numerals without superfluous zeros. */
  lemma {:induction false} ShowNatOf(s: string)
    requires AllDigits(s) && NoLeadingZero(s)
    ensures Show(NatOf(s)) == s
  {
    hide NatOf, Show;
    var s', c := s[..|s| - 1], s[|s| - 1];
    assert s == s' + [c];
    if |s| == 1 {
      assert s == [c];
      ShowDigit(c);
    } else {
      ShowNatOf(s');
      LeadingDigit(s');
      ShowAppended(s', c);
    }
  }

  lemma {:induction false} LeadingDigit(s: string)
    requires AllDigits(s) && |s| >= 1 && s[0] != '0'
    ensures NatOf(s) > 0
  {
    if |s| > 1 { LeadingDigit(s[..|s| - 1]); } else { assert s[..0] == ""; }
  }

  /** Digit strings of one length are ordered by, and determined by, their values. */
  lemma {:induction false} NatOfInjective(a: string, b: string)
    requires AllDigits(a) && AllDigits(b) && |a| == |b|
    requires NatOf(a) == NatOf(b)
    ensures a == b
  {
    if a != "" {
      var n := |a| - 1;
      assert DigitVal(a[n]) == NatOf(a) % 10 && DigitVal(b[n]) == NatOf(b) % 10;
      NatOfInjective(a[..n], b[..n]);
      assert a == a[..n] + [a[n]] && b == b[..n] + [b[n]];
    }
  }
}
