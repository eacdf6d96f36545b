/**
 * Decimal amount strings: their exact value, the canonical form, and the
 * arithmetic of the settlement contracts (addDecimal, compareDecimal, subtractDecimal).
 */
module Decimals {
  import opened Arithmetic
  import opened Digits

  /** Index of the first '.', or the length when there is none. */
  function PointAt(s: string): (k: nat)
    ensures k <= |s|
    ensures forall i | 0 <= i < k :: s[i] != '.'
    ensures k < |s| ==> s[k] == '.'
  {
    if s == "" || s[0] == '.' then 0 else 1 + PointAt(s[1..])
  }

  /** `const [whole, frac = ''] = s.split('.')`. */
  function Whole(s: string): string { s[..PointAt(s)] }

  function Frac(s: string): string {
    var p := PointAt(s);
    if p == |s| then "" else var rest := s[p + 1..]; rest[..PointAt(rest)]
  }

  /** /^[0-9]+(?:\.[0-9]+)?$/ */
  predicate IsAmount(s: string) {
    var p := PointAt(s);
    p >= 1 && AllDigits(s[..p]) && (p < |s| ==> |s| > p + 1 && AllDigits(s[p + 1..]))
  }

  /** /^(0|[1-9][0-9]*)(?:\.[0-9]+)?$/ */
  predicate IsDecimal(s: string) { IsAmount(s) && NoLeadingZero(Whole(s)) }

  /** A decimal whose fraction, if any, does not end in a zero. */
  predicate IsCanonical(s: string) {
    IsDecimal(s) && (Frac(s) != "" ==> Frac(s)[|Frac(s)| - 1] != '0')
  }

  /** BigInt(whole + frac.padEnd(n, '0')): for n >= |Frac(s)| the amount in units of 10^-n. */
  function At(s: string, n: nat): nat
    requires IsAmount(s)
  {
    AmountParts(s);
    PadValues(Frac(s), n);
    NatOfConcat(Whole(s), PadEnd(Frac(s), n));
    NatOf(Whole(s) + PadEnd(Frac(s), n))
  }

  function Undotted(t: string): string { if t != "" && t[|t| - 1] == '.' then t[..|t| - 1] else t }

  /** text.replace(/\.?0+$/, ''): the leftmost match is the run of trailing zeros with a '.' before it. */
  function StripFraction(s: string): string {
    var t := TrimZeros(s);
    if t == s then s else Undotted(t)
  }

  /** Shared tail of addDecimal and subtractDecimal: print v units of 10^-scale. */
  function Render(v: nat, scale: nat): string {
    var text := PadStart(Show(v), scale + 1);
    if scale == 0 then text
    else
      var r := StripFraction(text[..|text| - scale] + "." + text[|text| - scale..]);
      if r == "" then "0" else r
  }

  function Max(a: nat, b: nat): nat { if a >= b then a else b }

  function AddDecimal(a: string, b: string): string
    requires IsAmount(a) && IsAmount(b)
  {
    var scale := Max(|Frac(a)|, |Frac(b)|);
    Render(At(a, scale) + At(b, scale), scale)
  }

  function CompareDecimal(a: string, b: string): int
    requires IsAmount(a) && IsAmount(b)
  {
    var scale := Max(|Frac(a)|, |Frac(b)|);
    var av, bv := At(a, scale), At(b, scale);
    if av < bv then -1 else if av > bv then 1 else 0
  }

  function SubtractDecimal(a: string, b: string): string
    requires IsAmount(a) && IsAmount(b)
  {
    var scale := Max(|Frac(a)|, |Frac(b)|);
    Render(PositivePart(At(a, scale), At(b, scale)), scale)
  }

  function PositivePart(av: nat, bv: nat): nat { if av > bv then av - bv else 0 }

  function Sign(x: int): int { if x < 0 then -1 else if x > 0 then 1 else 0 }

  // ---- Shape of amounts ---------------------------------------------------

  lemma {:induction false} PointOfDigits(w: string, x: string)
    requires AllDigits(w)
    ensures PointAt(w + "." + x) == |w|
    ensures PointAt(w) == |w|
  {
    if w != "" {
      PointOfDigits(w[1..], x);
      assert (w + "." + x)[1..] == w[1..] + "." + x;
    }
  }

  lemma AmountParts(s: string)
    requires IsAmount(s)
    ensures AllDigits(Whole(s)) && |Whole(s)| >= 1 && AllDigits(Frac(s))
    ensures s == if Frac(s) == "" then Whole(s) else Whole(s) + "." + Frac(s)
  {
    var p := PointAt(s);
    if p < |s| {
      PointOfDigits(s[p + 1..], "");
      assert s == s[..p] + "." + s[p + 1..];
    }
  }

  lemma MakeAmount(w: string, f: string)
    requires AllDigits(w) && |w| >= 1 && AllDigits(f)
    ensures var s := if f == "" then w else w + "." + f;
            IsAmount(s) && Whole(s) == w && Frac(s) == f
  {
    PointOfDigits(w, f);
    PointOfDigits(f, "");
    var s := w + "." + f;
    assert s[|w| + 1..] == f && s[..|w|] == w;
  }

  lemma AtParts(s: string, n: nat)
    requires IsAmount(s) && n >= |Frac(s)|
    ensures AllDigits(Whole(s)) && AllDigits(PadEnd(Frac(s), n))
    ensures At(s, n) == NatOf(Whole(s)) * Pow10(n) + NatOf(PadEnd(Frac(s), n))
    ensures NatOf(PadEnd(Frac(s), n)) < Pow10(n)
  {
    AmountParts(s);
    PadValues(Frac(s), n);
    var w, f := Whole(s), PadEnd(Frac(s), n);
    assert |f| == n && AllDigits(w) && AllDigits(f) && AllDigits(w + f);
    assert At(s, n) == NatOf(w + f);
    hide *;
    NatOfConcat(w, f);
    NatOfBound(f);
  }

  /** One amount at a finer scale. */
  lemma AtShift(s: string, n: nat, k: nat)
    requires IsAmount(s) && n >= |Frac(s)|
    ensures At(s, n + k) == At(s, n) * Pow10(k)
  {
    hide *;
    AtText(s, n);
    AtText(s, n + k);
    PadFurther(Whole(s), Frac(s), n, k);
    var x := Whole(s) + PadEnd(Frac(s), n);
    NatOfConcat(x, Zeros(k));
    NatOfZeros(k);
  }

  lemma AtText(s: string, n: nat)
    requires IsAmount(s)
    ensures AllDigits(Whole(s) + PadEnd(Frac(s), n)) && At(s, n) == NatOf(Whole(s) + PadEnd(Frac(s), n))
  {
    AmountParts(s);
    PadValues(Frac(s), n);
    hide Whole, Frac, NatOf;
  }

  lemma PadFurther(w: string, f: string, n: nat, k: nat)
    requires n >= |f|
    ensures w + PadEnd(f, n + k) == w + PadEnd(f, n) + Zeros(k)
  {}

  // ---- Printing -----------------------------------------------------------

  lemma ZeroTail(t: string, k: nat)
    ensures var s := t + Zeros(k);
            && |s| == |t| + k && s[..|t|] == t && (t != "" ==> s[|t| - 1] == t[|t| - 1])
            && forall i | |t| <= i < |s| :: s[i] == '0'
  {}

  /** Zeros put at the end are what is trimmed. */
  lemma TrimUnique(t: string, k: nat)
    requires t != "" ==> t[|t| - 1] != '0'
    ensures TrimZeros(t + Zeros(k)) == t
  {
    hide *;
    var s, u := t + Zeros(k), TrimZeros(t + Zeros(k));
    ZeroTail(t, k);
    ZeroTail(u, |s| - |u|);
    assert |t| <= |u| <= |t|;
  }

  lemma TrimAfter(p: string, f: string)
    requires p != "" && p[|p| - 1] != '0'
    ensures TrimZeros(p + f) == p + TrimZeros(f)
  {
    hide *;
    var t := TrimZeros(f);
    assert p + f == (p + t) + Zeros(|f| - |t|);
    TrimUnique(p + t, |f| - |t|);
  }

  lemma UndottedParts(p: string, t: string)
    ensures Undotted(p + ".") == p
    ensures t != "" && t[|t| - 1] != '.' ==> Undotted(p + t) == p + t
  {
    assert (p + ".")[|p|] == '.' && (p + ".")[..|p|] == p;
    assert t != "" ==> (p + t)[|p + t| - 1] == t[|t| - 1];
  }

  lemma TrimmedEnd(f: string)
    requires AllDigits(f)
    ensures var t := TrimZeros(f); t != "" ==> t[|t| - 1] != '.'
  {
    var t := TrimZeros(f);
    hide TrimZeros;
    assert t != "" ==> IsDigit(f[|t| - 1]) && t[|t| - 1] == f[|t| - 1];
  }

  lemma StripCases(s: string)
    ensures var z := TrimZeros(s);
            (Undotted(z) == z ==> StripFraction(s) == z) && (z != s ==> StripFraction(s) == Undotted(z))
  {
    hide TrimZeros, Undotted;
  }

  /** Stripping the zeros of a fraction leaves the whole part alone. */
  lemma StripKeeps(w: string, f: string)
    requires AllDigits(f) && f != ""
    ensures StripFraction(w + "." + f) == if TrimZeros(f) == "" then w else w + "." + TrimZeros(f)
  {
    hide *;
    var p, t := w + ".", TrimZeros(f);
    TrimAfter(p, f);
    TrimmedEnd(f);
    StripCases(p + f);
    UndottedParts(w, t);
    UndottedParts(p, t);
    assert t == "" ==> p + t == p && |p + f| > |p|;
  }

  lemma AtOfTrimmed(r: string, w: string, f: string, n: nat)
    requires AllDigits(w) && AllDigits(f) && IsAmount(r)
    requires Whole(r) == w && Frac(r) == TrimZeros(f) && n >= |f|
    ensures AllDigits(w + f) && At(r, n) == NatOf(w + f) * Pow10(n - |f|)
  {
    var x := w + f;
    assert PadEnd(TrimZeros(f), n) == f + Zeros(n - |f|) by {
      assert f == TrimZeros(f) + Zeros(|f| - |TrimZeros(f)|);
    }
    assert w + PadEnd(TrimZeros(f), n) == x + Zeros(n - |f|);
    assert AllDigits(x) && At(r, n) == NatOf(x + Zeros(n - |f|));
    hide *;
    NatOfConcat(x, Zeros(n - |f|));
    NatOfZeros(n - |f|);
  }

  /** The two parts of a padded numeral: a proper whole part and `scale` fraction digits. */
  lemma RenderText(v: nat, scale: nat)
    ensures var text := PadStart(Show(v), scale + 1);
            && AllDigits(text) && |text| > scale && NatOf(text) == v
            && NoLeadingZero(text[..|text| - scale])
  {
    NatOfShow(v);
    ShowNoLeadingZero(v);
    PadValues(Show(v), scale + 1);
  }

  /** Render(v, scale) is the canonical numeral of v * 10^-scale. */
  lemma RenderExact(v: nat, scale: nat, n: nat)
    requires n >= scale
    ensures var r := Render(v, scale);
            && IsCanonical(r) && IsAmount(r) && |Frac(r)| <= scale
            && At(r, n) == v * Pow10(n - scale)
  {
    hide Show, PadStart, NatOf, Render, At, Whole, Frac, IsAmount, TrimZeros, Pow10;
    RenderText(v, scale);
    var text := PadStart(Show(v), scale + 1);
    var w, f := text[..|text| - scale], text[|text| - scale..];
    assert text == w + f;
    RenderParts(v, w, f);
    AtOfTrimmed(Render(v, scale), w, f, n);
  }

  lemma RenderParts(v: nat, w: string, f: string)
    requires AllDigits(w) && NoLeadingZero(w) && AllDigits(f)
    requires PadStart(Show(v), |f| + 1) == w + f
    ensures var r := Render(v, |f|);
            IsAmount(r) && Whole(r) == w && Frac(r) == TrimZeros(f)
  {
    var text := w + f;
    assert text[..|text| - |f|] == w && text[|text| - |f|..] == f;
    if f == "" {
      assert text == w;
    } else {
      StripKeeps(w, f);
    }
    MakeAmount(w, TrimZeros(f));
  }

  /** Two canonical amounts of one value are one string. */
  lemma CanonicalUnique(a: string, b: string, n: nat)
    requires IsCanonical(a) && IsCanonical(b)
    requires n >= |Frac(a)| && n >= |Frac(b)| && At(a, n) == At(b, n)
    ensures a == b
  {
    AmountParts(a);
    AmountParts(b);
    assert NoLeadingZero(Whole(a)) && NoLeadingZero(Whole(b)) && IsAmount(a) && IsAmount(b);
    hide Whole, Frac, At, IsAmount, IsDecimal, AllDigits, NatOf, PadEnd, Pow10, NoLeadingZero;
    AtParts(a, n);
    AtParts(b, n);
    PartsUnique(Whole(a), Frac(a), Whole(b), Frac(b), n);
  }

  lemma PartsUnique(wa: string, fa: string, wb: string, fb: string, n: nat)
    requires AllDigits(wa) && NoLeadingZero(wa) && AllDigits(wb) && NoLeadingZero(wb)
    requires AllDigits(fa) && AllDigits(fb) && |fa| <= n && |fb| <= n
    requires (fa != "" ==> fa[|fa| - 1] != '0') && (fb != "" ==> fb[|fb| - 1] != '0')
    requires NatOf(wa) * Pow10(n) + NatOf(PadEnd(fa, n)) == NatOf(wb) * Pow10(n) + NatOf(PadEnd(fb, n))
    ensures wa == wb && fa == fb
  {
    var xa, xb := PadEnd(fa, n), PadEnd(fb, n);
    assert AllDigits(xa) && AllDigits(xb) && |xa| == n && |xb| == n;
    hide *;
    assert NatOf(wa) == NatOf(wb) && NatOf(xa) == NatOf(xb) by {
      NatOfBound(xa);
      NatOfBound(xb);
      SplitUnique(NatOf(wa), NatOf(xa), NatOf(wb), NatOf(xb), Pow10(n));
    }
    assert wa == wb by { ShowNatOf(wa); ShowNatOf(wb); }
    NatOfInjective(xa, xb);
    assert fa == fb by { PadTrim(fa, n); PadTrim(fb, n); }
  }

  lemma PadTrim(f: string, n: nat)
    requires |f| <= n && (f != "" ==> f[|f| - 1] != '0')
    ensures TrimZeros(PadEnd(f, n)) == f
  {
    assert PadEnd(f, n) == f + Zeros(n - |f|);
    hide *;
    TrimUnique(f, n - |f|);
  }

  // ---- The arithmetic is exact --------------------------------------------

  /** The scale the three operations work at. */
  lemma CommonScale(a: string, b: string, n: nat) returns (scale: nat)
    requires IsAmount(a) && IsAmount(b) && n >= |Frac(a)| && n >= |Frac(b)|
    ensures n >= scale >= |Frac(a)| && scale >= |Frac(b)|
    ensures AddDecimal(a, b) == Render(At(a, scale) + At(b, scale), scale)
    ensures SubtractDecimal(a, b) == Render(PositivePart(At(a, scale), At(b, scale)), scale)
    ensures CompareDecimal(a, b) == Sign(At(a, scale) - At(b, scale))
  {
    hide Render, At, IsAmount, Frac, PositivePart;
    scale := Max(|Frac(a)|, |Frac(b)|);
  }

  lemma SignPositive(av: nat, bv: nat, x: nat, y: nat, p: nat)
    requires (av - bv) * p == x - y && Sign(av - bv) == Sign(x - y)
    ensures PositivePart(av, bv) * p == PositivePart(x, y)
  {
    if av <= bv { assert PositivePart(av, bv) * p == 0; }
  }

  /** addDecimal prints the exact sum, in canonical form, at every scale that holds both amounts. */
  lemma AddDecimalExact(a: string, b: string, n: nat)
    requires IsAmount(a) && IsAmount(b) && n >= |Frac(a)| && n >= |Frac(b)|
    ensures var r := AddDecimal(a, b);
            IsCanonical(r) && IsAmount(r) && |Frac(r)| <= n && At(r, n) == At(a, n) + At(b, n)
  {
    hide *;
    var scale := CommonScale(a, b, n);
    RescaleBoth(a, b, scale, n);
    RenderExact(At(a, scale) + At(b, scale), scale, n);
  }

  lemma RescaleBoth(a: string, b: string, scale: nat, n: nat)
    requires IsAmount(a) && IsAmount(b) && n >= scale >= |Frac(a)| && scale >= |Frac(b)|
    ensures (At(a, scale) + At(b, scale)) * Pow10(n - scale) == At(a, n) + At(b, n)
    ensures (At(a, scale) - At(b, scale)) * Pow10(n - scale) == At(a, n) - At(b, n)
    ensures Sign(At(a, scale) - At(b, scale)) == Sign(At(a, n) - At(b, n))
  {
    hide *;
    AtShift(a, scale, n - scale);
    AtShift(b, scale, n - scale);
    DistributeSum(At(a, scale), At(b, scale), Pow10(n - scale));
    SignScaled(At(a, scale), At(b, scale), Pow10(n - scale));
  }

  lemma SignScaled(x: int, y: int, p: int)
    requires p >= 1
    ensures Sign(x * p - y * p) == Sign(x - y)
  {
    DistributeSum(x, y, p);
    if x > y { MulAtLeast(x - y, p); }
    if x < y { MulAtLeast(y - x, p); DistributeSum(y, x, p); }
  }

  /** compareDecimal is the sign of the exact difference. */
  lemma CompareDecimalExact(a: string, b: string, n: nat)
    requires IsAmount(a) && IsAmount(b) && n >= |Frac(a)| && n >= |Frac(b)|
    ensures CompareDecimal(a, b) == Sign(At(a, n) - At(b, n))
  {
    hide *;
    var scale := CommonScale(a, b, n);
    RescaleBoth(a, b, scale, n);
  }

  /** subtractDecimal prints the exact difference cut off at zero, in canonical form. */
  lemma SubtractDecimalExact(a: string, b: string, n: nat)
    requires IsAmount(a) && IsAmount(b) && n >= |Frac(a)| && n >= |Frac(b)|
    ensures var r := SubtractDecimal(a, b);
            && IsCanonical(r) && IsAmount(r) && |Frac(r)| <= n
            && At(r, n) == PositivePart(At(a, n), At(b, n))
  {
    hide *;
    var scale := CommonScale(a, b, n);
    var diff := PositivePart(At(a, scale), At(b, scale));
    RescaleBoth(a, b, scale, n);
    RenderExact(diff, scale, n);
    SignPositive(At(a, scale), At(b, scale), At(a, n), At(b, n), Pow10(n - scale));
  }

  // ---- Laws between the operations ----------------------------------------

  /** A scale that holds three amounts. */
  function SharedScale(a: string, b: string, c: string): (n: nat)
    ensures n >= |Frac(a)| && n >= |Frac(b)| && n >= |Frac(c)|
  {
    Max(|Frac(a)|, Max(|Frac(b)|, |Frac(c)|))
  }

  lemma CanonicalIsAmount(a: string)
    requires IsCanonical(a)
    ensures IsAmount(a)
  {}

  lemma AddDecimalCommutes(a: string, b: string)
    requires IsAmount(a) && IsAmount(b)
    ensures AddDecimal(a, b) == AddDecimal(b, a)
  {
    hide *;
    var n := SharedScale(a, b, b);
    AddDecimalExact(a, b, n);
    AddDecimalExact(b, a, n);
    CanonicalUnique(AddDecimal(a, b), AddDecimal(b, a), n);
  }

  /** The order of additions does not show in the printed result. */
  lemma AddDecimalAssociates(a: string, b: string, c: string)
    requires IsAmount(a) && IsAmount(b) && IsAmount(c)
    ensures IsAmount(AddDecimal(a, b)) && IsAmount(AddDecimal(b, c))
    ensures AddDecimal(AddDecimal(a, b), c) == AddDecimal(a, AddDecimal(b, c))
  {
    hide *;
    var n := SharedScale(a, b, c);
    AddDecimalExact(a, b, n);
    AddDecimalExact(b, c, n);
    var ab, bc := AddDecimal(a, b), AddDecimal(b, c);
    AddDecimalExact(ab, c, n);
    AddDecimalExact(a, bc, n);
    CanonicalUnique(AddDecimal(ab, c), AddDecimal(a, bc), n);
  }

  /** Subtraction undoes addition. */
  lemma SubtractUndoesAdd(a: string, b: string)
    requires IsCanonical(a) && IsAmount(b)
    ensures IsAmount(AddDecimal(a, b)) && SubtractDecimal(AddDecimal(a, b), b) == a
  {
    hide *;
    CanonicalIsAmount(a);
    var n := SharedScale(a, b, b);
    AddDecimalExact(a, b, n);
    SubtractDecimalExact(AddDecimal(a, b), b, n);
    PositiveSum(At(a, n), At(b, n));
    CanonicalUnique(SubtractDecimal(AddDecimal(a, b), b), a, n);
  }

  lemma PositiveSum(x: nat, y: nat)
    ensures PositivePart(x + y, y) == x
  {}

  lemma SignZero(x: int)
    ensures Sign(x) == 0 <==> x == 0
  {}

  /** On canonical amounts, comparing equal is being the same string. */
  lemma CompareIsIdentity(a: string, b: string)
    requires IsCanonical(a) && IsCanonical(b)
    ensures CompareDecimal(a, b) == 0 <==> a == b
  {
    hide *;
    CanonicalIsAmount(a);
    CanonicalIsAmount(b);
    var n := SharedScale(a, b, b);
    CompareDecimalExact(a, b, n);
    SignZero(At(a, n) - At(b, n));
    if CompareDecimal(a, b) == 0 { CanonicalUnique(a, b, n); }
  }
}
