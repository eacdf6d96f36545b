/**
 * The display amounts of the wallet extension: printer and parser. The number of
 * decimal places is a parameter that defaults to Minima's 44; the theorems hold for any.
 */
module MinimaAmounts {
  import opened Arithmetic
  import opened Digits
  import opened Decimals

  const MINIMA_DECIMALS: nat := 44

  /** formatMinimaAmount on a base-unit digit string; anything BigInt rejects prints as "0". */
  function FormatMinimaAmount(baseUnits: string, decimals: nat, places: nat := MINIMA_DECIMALS): string {
    if AllDigits(baseUnits) then Print(NatOf(baseUnits), places, decimals) else "0"
  }

  function Div(a: nat, b: nat): nat
    requires b >= 1
  {
    a / b
  }

  function Mod(a: nat, b: nat): (r: nat)
    requires b >= 1
    ensures r < b && a == Div(a, b) * b + r
  {
    a % b
  }

  /** The largest multiple of p that is at most v. */
  function RoundedDown(v: nat, p: nat): (r: nat)
    requires p >= 1
    ensures r <= v < r + p
  {
    var m := Mod(v, p);
    Div(v, p) * p
  }

  function Print(value: nat, places: nat, decimals: nat): string {
    var scale := Pow10(places);
    var whole := Show(Div(value, scale));
    var fractional := PadStart(Show(Mod(value, scale)), places);
    var trimmed := TrimZeros(if decimals <= |fractional| then fractional[..decimals] else fractional);
    if trimmed == "" then whole else whole + "." + trimmed
  }

  /** parseMinimaAmount; anything BigInt rejects reads as "0". */
  function ParseMinimaAmount(displayAmount: string, places: nat := MINIMA_DECIMALS): string {
    var whole, fractional := Whole(displayAmount), Frac(displayAmount);
    if !AllDigits(whole) then "0"
    else if fractional == "" then Show(NatOf(whole) * Pow10(places))
    else
      var padded := PadEnd(fractional, places)[..places];
      if !AllDigits(padded) then "0" else Show(NatOf(whole) * Pow10(places) + NatOf(padded))
  }

  /** The fraction digits the printer works on. */
  lemma FractionText(v: nat, places: nat)
    requires places >= 1
    ensures var f := PadStart(Show(Mod(v, Pow10(places))), places);
            |f| == places && AllDigits(f) && NatOf(f) == Mod(v, Pow10(places))
  {
    ShowLength(Mod(v, Pow10(places)), places);
    PadValues(Show(Mod(v, Pow10(places))), places);
    NatOfShow(Mod(v, Pow10(places)));
  }

  /** Reading an amount that has no more decimals than there are places. */
  lemma ParseValue(s: string, places: nat)
    requires IsAmount(s) && |Frac(s)| <= places
    ensures ParseMinimaAmount(s, places) == Show(At(s, places))
  {
    AmountParts(s);
    AtParts(s, places);
    hide IsAmount, At, Whole, Frac, NatOf, Show, Pow10;
    if Frac(s) == "" {
      PaddedZeros(places);
    } else {
      FullPad(Frac(s), places);
    }
  }

  lemma PaddedZeros(places: nat)
    ensures NatOf(PadEnd("", places)) == 0
  {
    NatOfZeros(places);
    assert PadEnd("", places) == Zeros(places);
  }

  lemma FullPad(f: string, places: nat)
    requires |f| <= places && AllDigits(f)
    ensures PadEnd(f, places)[..places] == PadEnd(f, places) && AllDigits(PadEnd(f, places))
  {
    assert PadEnd(f, places)[..places] == PadEnd(f, places);
  }

  /** A whole part and trimmed fraction digits make a canonical amount. */
  lemma CanonicalParts(w: string, t: string)
    requires AllDigits(w) && NoLeadingZero(w) && AllDigits(t) && (t != "" ==> t[|t| - 1] != '0')
    ensures var r := if t == "" then w else w + "." + t;
            IsCanonical(r) && IsAmount(r) && Whole(r) == w && Frac(r) == t
  {
    MakeAmount(w, t);
    hide IsAmount, Whole, Frac;
  }

  lemma PrintParts(v: nat, places: nat, d: nat)
    requires 1 <= places && d <= places
    ensures var f := PadStart(Show(Mod(v, Pow10(places))), places);
            var r := Print(v, places, d);
            && |f| == places && AllDigits(f[..d]) && AllDigits(Show(Div(v, Pow10(places))))
            && IsCanonical(r) && IsAmount(r) && |Frac(r)| <= places
            && Whole(r) == Show(Div(v, Pow10(places))) && Frac(r) == TrimZeros(f[..d])
  {
    FractionText(v, places);
    ShowNoLeadingZero(Div(v, Pow10(places)));
    var w, f := Show(Div(v, Pow10(places))), PadStart(Show(Mod(v, Pow10(places))), places)[..d];
    var t := TrimZeros(f);
    assert Print(v, places, d) == if t == "" then w else w + "." + t;
    assert AllDigits(t) && |t| <= |f| <= places;
    hide *;
    CanonicalParts(w, t);
  }

  lemma SplitDigits(digits: string, d: nat)
    requires AllDigits(digits) && d <= |digits|
    ensures AllDigits(digits[..d]) && AllDigits(digits[d..])
    ensures NatOf(digits) == NatOf(digits[..d]) * Pow10(|digits| - d) + NatOf(digits[d..])
    ensures NatOf(digits[d..]) < Pow10(|digits| - d)
  {
    assert digits == digits[..d] + digits[d..];
    NatOfConcat(digits[..d], digits[d..]);
    NatOfBound(digits[d..]);
  }

  /** The digits of a printed amount, as numbers. */
  lemma PrintDigits(v: nat, places: nat, d: nat)
    requires 1 <= places && d <= places
    ensures var scale := Pow10(places);
            var w, f := Show(Div(v, scale)), PadStart(Show(Mod(v, scale)), places);
            && |f| == places && AllDigits(f) && AllDigits(w + f[..d])
            && NatOf(w + f[..d]) == Div(v, Pow10(places - d))
  {
    hide Show, PadStart, NatOf, Div, Mod;
    var p, scale := Pow10(places - d), Pow10(places);
    var w, digits := Show(Div(v, scale)), PadStart(Show(Mod(v, scale)), places);
    FractionText(v, places);
    SplitDigits(digits, d);
    NatOfShow(Div(v, scale));
    NatOfConcat(w, digits[..d]);
    assert scale == Pow10(d) * p by { Pow10Add(d, places - d); }
    RoundDown(v, scale, Pow10(d), p, NatOf(digits[..d]), NatOf(digits[d..]));
  }

  /** The printed amount is the value rounded down to d decimals. */
  lemma PrintValue(v: nat, places: nat, d: nat)
    requires 1 <= places && d <= places
    ensures var p, r := Pow10(places - d), Print(v, places, d);
            IsCanonical(r) && IsAmount(r) && |Frac(r)| <= places && At(r, places) == RoundedDown(v, p)
  {
    assert RoundedDown(v, Pow10(places - d)) == Div(v, Pow10(places - d)) * Pow10(places - d);
    hide *;
    PrintParts(v, places, d);
    PrintDigits(v, places, d);
    var scale := Pow10(places);
    AtOfTrimmed(Print(v, places, d), Show(Div(v, scale)), PadStart(Show(Mod(v, scale)), places)[..d], places);
  }

  lemma RoundDown(v: nat, scale: nat, a: nat, p: nat, f: nat, rest: nat)
    requires scale >= 1 && scale == a * p && rest < p && Mod(v, scale) == f * p + rest
    ensures Div(v, p) == (Div(v, scale)) * a + f
  {
    var q := Div(v, scale);
    assert q * (a * p) == (q * a) * p;
    DistributeSum(q * a, f, p);
    QuotientUnique(v, q * a + f, rest, p);
  }

  lemma QuotientUnique(v: nat, q: nat, r: nat, p: nat)
    requires r < p && v == q * p + r
    ensures Div(v, p) == q
  {
    SplitUnique(q, r, Div(v, p), Mod(v, p), p);
  }

  /**
   * Parsing what was printed with d decimals gives v rounded down to a multiple
   * of 10^(places-d); with all decimals it gives v back.
   */
  lemma ParseFormat(v: nat, d: nat, places: nat)
    requires 1 <= places && d <= places
    ensures var p := Pow10(places - d);
            ParseMinimaAmount(FormatMinimaAmount(Show(v), d, places), places) == Show(RoundedDown(v, p))
    ensures d == places ==> ParseMinimaAmount(FormatMinimaAmount(Show(v), d, places), places) == Show(v)
  {
    assert FormatMinimaAmount(Show(v), d, places) == Print(v, places, d) by { NatOfShow(v); }
    assert d == places ==> Pow10(places - d) == 1;
    hide *;
    PrintValue(v, places, d);
    ParseValue(Print(v, places, d), places);
    DivByOne(v);
  }

  lemma DivByOne(v: nat)
    ensures RoundedDown(v, 1) == v
  {}

  /** Printing with all decimals undoes parsing on canonical amounts that fit the places. */
  lemma FormatParse(s: string, places: nat)
    requires 1 <= places && IsCanonical(s) && |Frac(s)| <= places
    ensures FormatMinimaAmount(ParseMinimaAmount(s, places), places, places) == s
  {
    var v := At(s, places);
    assert FormatMinimaAmount(Show(v), places, places) == Print(v, places, places) by { NatOfShow(v); }
    assert Pow10(places - places) == 1;
    hide *;
    ParseValue(s, places);
    PrintValue(v, places, places);
    DivByOne(v);
    CanonicalUnique(Print(v, places, places), s, places);
  }

  /** By default one displayed unit is 10^44 base units, and back. */
  lemma WholeUnits(n: nat)
    ensures ParseMinimaAmount(Show(n)) == Show(n * Pow10(44))
    ensures FormatMinimaAmount(Show(n * Pow10(44)), 44) == Show(n)
  {
    MakeAmount(Show(n), "");
    NatOfShow(n);
    ShowNoLeadingZero(n);
    hide Pow10, Show, Print;
    FormatParse(Show(n), 44);
  }
}
