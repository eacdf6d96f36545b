/**
 * compareAmounts of deposit verification: the comparison of two claimed amounts, which
 * may carry surrounding blanks and a ".uuid" tail after the number.
 */
module Deposits {
  import opened Arithmetic
  import opened Digits
  import opened Decimals

  /** The characters String.prototype.trim removes. */
  predicate IsBlank(c: char) {
    var u := c as int;
    || 9 <= u <= 13 || u == 0x20 || u == 0xA0 || u == 0x1680 || 0x2000 <= u <= 0x200A
    || u == 0x2028 || u == 0x2029 || u == 0x202F || u == 0x205F || u == 0x3000 || u == 0xFEFF
  }

  function TrimStart(s: string): string {
    if s != "" && IsBlank(s[0]) then TrimStart(s[1..]) else s
  }

  function TrimEnd(s: string): string {
    if s != "" && IsBlank(s[|s| - 1]) then TrimEnd(s[..|s| - 1]) else s
  }

  function Trim(s: string): string { TrimEnd(TrimStart(s)) }

  /** A blank or a line end, by code point. */
  predicate JsBlank(c: char) {
    c as int in {9, 10, 11, 12, 13, 32, 160, 5760, 8192, 8193, 8194, 8195, 8196, 8197, 8198, 8199, 8200, 8201, 8202, 8232, 8233, 8239, 8287, 12288, 65279}
  }

  lemma BlankIsJsBlank(c: char)
    ensures IsBlank(c) <==> JsBlank(c)
  {}

  lemma {:induction false} TrimStartKeeps(s: string) returns (i: nat)
    ensures i <= |s| && TrimStart(s) == s[i..] && (forall k | 0 <= k < i :: JsBlank(s[k])) && (i < |s| ==> !JsBlank(s[i]))
  {
    hide IsBlank, JsBlank;
    i := 0;
    if s != "" {
      BlankIsJsBlank(s[0]);
      if IsBlank(s[0]) {
        i := TrimStartKeeps(s[1..]);
        i := i + 1;
      }
    }
  }

  lemma {:induction false} TrimEndKeeps(s: string) returns (j: nat)
    ensures j <= |s| && TrimEnd(s) == s[..j] && (forall k | j <= k < |s| :: JsBlank(s[k])) && (j > 0 ==> !JsBlank(s[j - 1]))
  {
    hide IsBlank, JsBlank;
    j := |s|;
    if s != "" {
      BlankIsJsBlank(s[|s| - 1]);
      if IsBlank(s[|s| - 1]) { j := TrimEndKeeps(s[..|s| - 1]); }
    }
  }

  /** Trimming cuts off exactly the blanks at both ends. */
  lemma TrimExactly(s: string) returns (i: nat, j: nat)
    ensures i <= j <= |s| && Trim(s) == s[i..j]
    ensures (forall k | 0 <= k < i || j <= k < |s| :: JsBlank(s[k])) && (i < j ==> !JsBlank(s[i]) && !JsBlank(s[j - 1]))
  {
    hide IsBlank, JsBlank, TrimStart, TrimEnd;
    i := TrimStartKeeps(s);
    var n := TrimEndKeeps(s[i..]);
    j := i + n;
    assert s[i..][..n] == s[i..j];
  }

  /** Length of the run of digits at the start. */
  function DigitRun(s: string): (n: nat)
    ensures n <= |s| && AllDigits(s[..n])
    ensures n < |s| ==> !IsDigit(s[n])
  {
    if s == "" || !IsDigit(s[0]) then 0
    else
      var n := DigitRun(s[1..]);
      assert forall i | 0 < i < n + 1 :: s[i] == s[1..][i - 1];
      n + 1
  }

  /** The greedy match of /^([0-9]+(?:\.[0-9]+)?)/, empty when there is none. */
  function LeadingNumber(s: string): string {
    var w := DigitRun(s);
    var f := if 1 <= w < |s| && s[w] == '.' then DigitRun(s[w + 1..]) else 0;
    if f == 0 then s[..w] else s[..w + 1 + f]
  }

  datatype Split = Split(whole: nat, frac: string)

  /** splitAmount */
  function SplitAmount(text: string): (r: Split)
    ensures AllDigits(r.frac)
  {
    var num := LeadingNumber(Trim(text));
    if num == "" || !IsAmount(num) then Split(0, "")
    else
      AmountParts(num);
      Split(NatOf(Whole(num)), Frac(num))
  }

  /** BigInt(frac.padEnd(scale, '0') || '0') */
  function FracUnits(frac: string, scale: nat): nat
    requires AllDigits(frac)
  {
    PadValues(frac, scale);
    NatOf(PadEnd(frac, scale))
  }

  function CompareAmounts(a: string, b: string): int {
    var left, right := SplitAmount(a), SplitAmount(b);
    if left.whole < right.whole then -1
    else if left.whole > right.whole then 1
    else
      var scale := Max(|left.frac|, |right.frac|);
      var leftFrac, rightFrac := FracUnits(left.frac, scale), FracUnits(right.frac, scale);
      if leftFrac < rightFrac then -1 else if leftFrac > rightFrac then 1 else 0
  }

  // ---- What the two texts denote ------------------------------------------

  /** n is the longest prefix of s that is an amount; empty when no prefix is one. */
  predicate LongestAmount(n: string, s: string) {
    && n <= s && (n == "" || IsAmount(n))
    && forall k | 0 <= k <= |s| && IsAmount(s[..k]) :: k <= |n|
  }

  /** The amount a text stands for: its longest numeric prefix, and zero when it has none. */
  function Denoted(text: string): (r: string)
    ensures IsAmount(r)
  {
    var num := LeadingNumber(Trim(text));
    LeadingNumberLongest(Trim(text));
    if num == "" then MakeAmount("0", ""); "0" else num
  }

  lemma RunAtLeast(s: string, k: nat)
    requires k <= |s| && AllDigits(s[..k])
    ensures k <= DigitRun(s)
  {
    assert forall i | 0 <= i < k :: s[i] == s[..k][i] && IsDigit(s[i]);
    hide DigitRun;
  }

  lemma RunStops(s: string, p: nat)
    requires p < |s| && !IsDigit(s[p])
    ensures DigitRun(s) <= p
  {
    assert forall i | 0 <= i < DigitRun(s) :: s[i] == s[..DigitRun(s)][i] && IsDigit(s[i]);
    hide DigitRun;
  }

  lemma AmountPrefix(s: string, k: nat) returns (p: nat)
    requires k <= |s| && IsAmount(s[..k])
    ensures 1 <= p <= k && AllDigits(s[..p])
    ensures p < k ==> p + 1 < k && s[p] == '.' && AllDigits(s[p + 1..][..k - p - 1])
  {
    p := PointAt(s[..k]);
    assert s[..k][..p] == s[..p];
    if p < k { assert s[..k][p + 1..] == s[p + 1..][..k - p - 1]; }
    hide PointAt;
  }

  lemma PointOfPrefix(s: string, k: nat)
    requires k <= |s| && IsAmount(s[..k])
    ensures var w := DigitRun(s);
            1 <= w && (k <= w || (w + 1 < k && s[w] == '.' && k <= w + 1 + DigitRun(s[w + 1..])))
  {
    hide DigitRun, IsAmount;
    var p := AmountPrefix(s, k);
    RunAtLeast(s, p);
    if p < k {
      RunStops(s, p);
      RunAtLeast(s[p + 1..], k - p - 1);
    }
  }

  lemma NoLongerAmount(s: string)
    ensures forall k | 0 <= k <= |s| && IsAmount(s[..k]) :: k <= |LeadingNumber(s)|
  {
    forall k | 0 <= k <= |s| && IsAmount(s[..k]) ensures k <= |LeadingNumber(s)| {
      PointOfPrefix(s, k);
    }
    hide *;
  }

  lemma JoinAtPoint(s: string, w: nat, f: nat)
    requires w + 1 + f <= |s| && s[w] == '.'
    ensures s[..w + 1 + f] == s[..w] + "." + s[w + 1..][..f]
  {}

  lemma PrefixIsAmount(s: string, w: nat, f: nat)
    requires 1 <= w <= |s| && AllDigits(s[..w])
    requires f > 0 ==> w + 1 + f <= |s| && s[w] == '.' && AllDigits(s[w + 1..][..f])
    ensures IsAmount(if f > 0 then s[..w + 1 + f] else s[..w])
  {
    if f > 0 {
      JoinAtPoint(s, w, f);
      var x, y := s[..w], s[w + 1..][..f];
      hide *;
      MakeAmount(x, y);
    } else {
      MakeAmount(s[..w], "");
    }
  }

  lemma LeadingNumberIsAmount(s: string)
    ensures LeadingNumber(s) <= s && (LeadingNumber(s) == "" || IsAmount(LeadingNumber(s)))
  {
    var w := DigitRun(s);
    var f := if 1 <= w < |s| && s[w] == '.' then DigitRun(s[w + 1..]) else 0;
    assert LeadingNumber(s) == if f == 0 then s[..w] else s[..w + 1 + f];
    hide *;
    if w > 0 { PrefixIsAmount(s, w, f); }
  }

  lemma LeadingNumberLongest(s: string)
    ensures LongestAmount(LeadingNumber(s), s)
  {
    LeadingNumberIsAmount(s);
    NoLongerAmount(s);
    hide LeadingNumber, IsAmount;
  }

  lemma SplitDenoted(text: string, n: nat)
    requires n >= |Frac(Denoted(text))|
    ensures var d, p := Denoted(text), SplitAmount(text);
            && p.frac == Frac(d) && FracUnits(p.frac, n) < Pow10(n)
            && At(d, n) == p.whole * Pow10(n) + FracUnits(p.frac, n)
  {
    LeadingNumberLongest(Trim(text));
    MakeAmount("0", "");
    hide Trim, LeadingNumber, NatOf, Pow10, PadEnd, PointAt, At;
    AtParts(Denoted(text), n);
  }

  lemma LexicographicSign(w: nat, f: nat, w': nat, f': nat, p: nat)
    requires f < p && f' < p
    ensures Sign((w * p + f) - (w' * p + f')) == if w == w' then Sign(f - f') else Sign(w - w')
  {
    if w < w' { MulAtLeast(w' - w, p); DistributeSum(w', w, p); }
    if w > w' { MulAtLeast(w - w', p); DistributeSum(w, w', p); }
  }

  lemma CompareByParts(a: string, b: string)
    ensures var l, r := SplitAmount(a), SplitAmount(b);
            var scale := Max(|l.frac|, |r.frac|);
            CompareAmounts(a, b) ==
              if l.whole == r.whole then Sign(FracUnits(l.frac, scale) - FracUnits(r.frac, scale)) else Sign(l.whole - r.whole)
  {
    hide SplitAmount, FracUnits;
  }

  /**
   * compareAmounts is the sign of the exact difference of the two denoted amounts, for
   * every two texts, and agrees with the comparison of the settlement contracts.
   */
  lemma CompareAmountsExact(a: string, b: string, n: nat)
    requires n >= |Frac(Denoted(a))| && n >= |Frac(Denoted(b))|
    ensures CompareAmounts(a, b) == Sign(At(Denoted(a), n) - At(Denoted(b), n))
    ensures CompareAmounts(a, b) == CompareDecimal(Denoted(a), Denoted(b))
  {
    var x, y, l, r := Denoted(a), Denoted(b), SplitAmount(a), SplitAmount(b);
    var scale := Max(|Frac(x)|, |Frac(y)|);
    assert scale >= |Frac(x)| && scale >= |Frac(y)|;
    hide *;
    SplitDenoted(a, scale);
    SplitDenoted(b, scale);
    CompareByParts(a, b);
    LexicographicSign(l.whole, FracUnits(l.frac, scale), r.whole, FracUnits(r.frac, scale), Pow10(scale));
    CompareDecimalExact(x, y, scale);
    CompareDecimalExact(x, y, n);
  }
}
