/**
 * The 8-decimal amounts of run totals (toScaled, fromScaled, accumulate): every
 * amount is cut to a whole number of 10^-8 units before it is added.
 */
module ScaledAmounts {
  import opened Arithmetic
  import opened Outcomes
  import opened Digits
  import opened Decimals

  const SCALE: nat := 100_000_000

  /** toScaled: a malformed amount counts as zero, further decimals are dropped. */
  function ToScaled(v: string): nat {
    if !IsAmount(v) then 0
    else
      AmountParts(v);
      PadValues(Frac(v), 8);
      NatOf(Whole(v)) * SCALE + NatOf(PadEnd(Frac(v), 8)[..8])
  }

  /** fromScaled */
  function FromScaled(n: nat): string {
    var r := StripFraction(Show(n / SCALE) + "." + PadStart(Show(n % SCALE), 8));
    if r == "" then "0" else r
  }

  /** What a stored total reads as, in units of 10^-8. */
  function StoredUnits(total: Option<string>): nat { ToScaled(Coalesce(total, "0")) }

  function Accumulate(a: Option<string>, b: string): string {
    FromScaled(StoredUnits(a) + ToScaled(b))
  }

  lemma ScaleIsPower()
    ensures SCALE == Pow10(8)
  {
    assert Pow10(4) == 10_000 by { assert Pow10(2) == 100; }
    Pow10Add(4, 4);
  }

  /** The eight fraction digits of n % SCALE. */
  lemma FractionDigits(n: nat)
    requires n < SCALE
    ensures var f := PadStart(Show(n), 8); |f| == 8 && AllDigits(f) && NatOf(f) == n
  {
    ScaleIsPower();
    ShowLength(n, 8);
    PadValues(Show(n), 8);
    NatOfShow(n);
  }

  lemma PadTrimmed(f: string)
    requires |f| == 8
    ensures PadEnd(TrimZeros(f), 8)[..8] == f && |TrimZeros(f)| <= 8
  {
    assert PadEnd(TrimZeros(f), 8) == f;
  }

  /** toScaled undoes fromScaled, and what fromScaled prints is canonical. */
  lemma ToScaledFromScaled(n: nat)
    ensures ToScaled(FromScaled(n)) == n
    ensures IsCanonical(FromScaled(n)) && |Frac(FromScaled(n))| <= 8
  {
    var w, f := Show(n / SCALE), PadStart(Show(n % SCALE), 8);
    FractionDigits(n % SCALE);
    NatOfShow(n / SCALE);
    ShowNoLeadingZero(n / SCALE);
    StripKeeps(w, f);
    MakeAmount(w, TrimZeros(f));
    PadTrimmed(f);
    hide Show, PadStart, StripFraction, TrimZeros, NatOf, PadEnd, AllDigits;
  }

  lemma ToScaledZero()
    ensures ToScaled("0") == 0 && StoredUnits(None) == 0
  {
    MakeAmount("0", "");
    NatOfZeros(8);
    NatOfZeros(1);
    assert "0" == Zeros(1) && PadEnd("", 8)[..8] == Zeros(8);
  }

  /** accumulate adds in units of 10^-8. */
  lemma AccumulateAdds(a: Option<string>, b: string)
    ensures ToScaled(Accumulate(a, b)) == StoredUnits(a) + ToScaled(b)
  {
    hide ToScaled, FromScaled, StoredUnits;
    ToScaledFromScaled(StoredUnits(a) + ToScaled(b));
  }

  /** The digits toScaled reads are the first eight fraction digits. */
  lemma ToScaledDigits(v: string, n: nat)
    requires IsAmount(v) && n >= |Frac(v)| && n >= 8
    ensures var x := PadEnd(Frac(v), n);
            && |x| == n && AllDigits(Whole(v)) && AllDigits(x)
            && ToScaled(v) == NatOf(Whole(v)) * SCALE + NatOf(x[..8])
  {
    AmountParts(v);
    hide IsAmount, Whole, Frac, NatOf;
    assert PadEnd(Frac(v), 8)[..8] == PadEnd(Frac(v), n)[..8];
  }

  /** The exact amount is its 8-decimal cut plus the value of the digits cut off. */
  lemma ToScaledSplit(v: string, n: nat)
    requires IsAmount(v) && n >= |Frac(v)| && n >= 8
    ensures AllDigits(PadEnd(Frac(v), n)) && |PadEnd(Frac(v), n)| == n
    ensures At(v, n) == ToScaled(v) * Pow10(n - 8) + NatOf(PadEnd(Frac(v), n)[8..])
  {
    ToScaledDigits(v, n);
    var x := PadEnd(Frac(v), n);
    assert x == x[..8] + x[8..] && AllDigits(x[..8]) && AllDigits(x[8..]);
    hide *;
    AtParts(v, n);
    SplitAtEight(NatOf(Whole(v)), x[..8], x[8..]);
  }

  lemma SplitAtEight(w: nat, h: string, t: string)
    requires AllDigits(h) && AllDigits(t) && |h| == 8
    ensures AllDigits(h + t)
    ensures w * Pow10(8 + |t|) + NatOf(h + t) == (w * SCALE + NatOf(h)) * Pow10(|t|) + NatOf(t)
  {
    ScaleIsPower();
    hide *;
    NatOfConcat(h, t);
    Pow10Add(8, |t|);
    Regroup(w, Pow10(8 + |t|), SCALE, Pow10(|t|), NatOf(h), NatOf(t), NatOf(h + t));
  }

  lemma CutDigits(f: string, n: nat)
    requires AllDigits(PadEnd(f, n)) && n >= |f| && n >= 8
    ensures NatOf(PadEnd(f, n)[8..]) < Pow10(n - 8)
    ensures |f| <= 8 ==> NatOf(PadEnd(f, n)[8..]) == 0
  {
    NatOfBound(PadEnd(f, n)[8..]);
    if |f| <= 8 {
      NatOfZeros(n - 8);
      assert PadEnd(f, n)[8..] == Zeros(n - 8);
    }
  }

  lemma Regroup(w: nat, power: nat, s: nat, p: nat, h: nat, t: nat, x: nat)
    requires power == s * p && x == h * p + t
    ensures w * power + x == (w * s + h) * p + t
  {
    DistributeSum(w * s, h, p);
    assert w * (s * p) == (w * s) * p;
  }

  /** toScaled is the exact amount cut to 8 decimals: less than one 10^-8 unit is lost. */
  lemma ToScaledFloor(v: string, n: nat)
    requires IsAmount(v) && n >= |Frac(v)| && n >= 8
    ensures ToScaled(v) * Pow10(n - 8) <= At(v, n) < ToScaled(v) * Pow10(n - 8) + Pow10(n - 8)
    ensures |Frac(v)| <= 8 ==> At(v, n) == ToScaled(v) * Pow10(n - 8)
  {
    ToScaledSplit(v, n);
    CutDigits(Frac(v), n);
  }

  /** Cutting is monotone. */
  lemma ToScaledMonotone(a: string, b: string)
    requires IsAmount(a) && IsAmount(b) && CompareDecimal(a, b) <= 0
    ensures ToScaled(a) <= ToScaled(b)
  {
    var n := Max(8, Max(|Frac(a)|, |Frac(b)|));
    ToScaledFloor(a, n);
    ToScaledFloor(b, n);
    CompareDecimalExact(a, b, n);
    FloorOrder(ToScaled(a), ToScaled(b), At(a, n), At(b, n), Pow10(n - 8));
  }

  /** Cutting the parts of a sum never gives more than cutting the sum. */
  lemma ToScaledSuperadditive(a: string, b: string)
    requires IsAmount(a) && IsAmount(b)
    ensures IsAmount(AddDecimal(a, b)) && ToScaled(a) + ToScaled(b) <= ToScaled(AddDecimal(a, b))
  {
    var n := Max(8, Max(|Frac(a)|, |Frac(b)|));
    var p, r := Pow10(n - 8), AddDecimal(a, b);
    AddDecimalExact(a, b, n);
    ToScaledFloor(a, n);
    ToScaledFloor(b, n);
    ToScaledFloor(r, n);
    FloorSum(ToScaled(a), ToScaled(b), ToScaled(r), At(a, n), At(b, n), p);
  }

  lemma FloorSum(x: nat, y: nat, z: nat, u: nat, v: nat, p: nat)
    requires x * p <= u && y * p <= v && u + v < z * p + p
    ensures x + y <= z
  {
    DistributeSum(x, y, p);
    FloorOrder(x + y, z, u + v, u + v, p);
  }

  lemma FloorOrder(x: nat, y: nat, u: nat, v: nat, p: nat)
    requires x * p <= u <= v < y * p + p
    ensures x <= y
  {
    if x > y {
      MulAtLeast(x - y, p);
      DistributeSum(x, y, p);
    }
  }

  // ---- A total kept by accumulating ---------------------------------------

  /** The stored total after folding the amounts, in order, into `start`. */
  function Folded(start: Option<string>, amounts: seq<string>): Option<string> {
    if amounts == [] then start
    else Some(Accumulate(Folded(start, amounts[..|amounts| - 1]), amounts[|amounts| - 1]))
  }

  function ScaledSum(amounts: seq<string>): nat {
    if amounts == [] then 0 else ScaledSum(amounts[..|amounts| - 1]) + ToScaled(amounts[|amounts| - 1])
  }

  function ExactSum(amounts: seq<string>, n: nat): nat
    requires forall i | 0 <= i < |amounts| :: IsAmount(amounts[i])
  {
    if amounts == [] then 0 else ExactSum(amounts[..|amounts| - 1], n) + At(amounts[|amounts| - 1], n)
  }

  lemma {:induction false} FoldedIsScaledSum(start: Option<string>, amounts: seq<string>)
    ensures StoredUnits(Folded(start, amounts)) == StoredUnits(start) + ScaledSum(amounts)
  {
    if amounts != [] {
      var rest := amounts[..|amounts| - 1];
      FoldedIsScaledSum(start, rest);
      AccumulateAdds(Folded(start, rest), amounts[|amounts| - 1]);
    }
  }

  /**
   * A total of k well-formed spends is never above the exact sum and at most
   * k units of 10^-8 below it (both sides in units of 10^-n).
   */
  lemma {:induction false} FoldLoss(amounts: seq<string>, n: nat)
    requires n >= 8 && forall i | 0 <= i < |amounts| :: IsAmount(amounts[i]) && |Frac(amounts[i])| <= n
    ensures var stored := StoredUnits(Folded(None, amounts)) * Pow10(n - 8);
            stored <= ExactSum(amounts, n) <= stored + |amounts| * Pow10(n - 8)
  {
    hide *;
    ToScaledZero();
    FoldedIsScaledSum(None, amounts);
    SumLoss(amounts, n);
  }

  lemma {:induction false} SumLoss(amounts: seq<string>, n: nat)
    requires n >= 8 && forall i | 0 <= i < |amounts| :: IsAmount(amounts[i]) && |Frac(amounts[i])| <= n
    ensures var cut := ScaledSum(amounts) * Pow10(n - 8);
            cut <= ExactSum(amounts, n) <= cut + |amounts| * Pow10(n - 8)
  {
    hide ToScaled, At, IsAmount, Frac, Pow10;
    if amounts != [] {
      var rest, last, p := amounts[..|amounts| - 1], amounts[|amounts| - 1], Pow10(n - 8);
      SumLoss(rest, n);
      ToScaledFloor(last, n);
      LossStep(ScaledSum(rest), ExactSum(rest, n), |rest|, ToScaled(last), At(last, n), p);
    }
  }

  lemma LossStep(cut: nat, exact: nat, k: nat, t: nat, u: nat, p: nat)
    requires cut * p <= exact <= cut * p + k * p && t * p <= u <= t * p + p
    ensures (cut + t) * p <= exact + u <= (cut + t) * p + (k + 1) * p
  {
    DistributeSum(cut, t, p);
    DistributeSum(k, 1, p);
  }
}
