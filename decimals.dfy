/**
 * What Python's `float()` makes of the strings the field patterns capture: a
 * run of decimal digits, or for BMI a run of digits and dots. Values are exact
 * real numbers; the rounding to a binary double is not modelled.
 */
module Decimals {
  import opened Wrappers
  import opened UnicodeChars

  predicate AllDigits(s: string) {
    forall k :: 0 <= k < |s| ==> IsDigit(s[k])
  }

  /** Every character is a digit or a dot, as in a `[\d.]+` capture. */
  predicate DigitsAndDots(s: string) {
    forall k :: 0 <= k < |s| ==> IsDigit(s[k]) || s[k] == '.'
  }

  /** The number a string of decimal digits spells in base ten (0 for the empty string). */
  function DigitsValue(s: string): nat
    requires AllDigits(s)
  {
    if s == [] then 0 else DigitsValue(s[..|s| - 1]) * 10 + DigitValue(s[|s| - 1])
  }

  function Pow10(n: nat): (p: nat)
    ensures p >= 1
  {
    if n == 0 then 1 else 10 * Pow10(n - 1)
  }

  /** The shortest ASCII spelling of `n` in base ten. */
  function NatToDigits(n: nat): (s: string)
    ensures |s| > 0 && AllDigits(s)
  {
    if n < 10 then [AsciiDigit(n)] else NatToDigits(n / 10) + [AsciiDigit(n % 10)]
  }

  /** Reading back the spelling of a number gives the number. */
  lemma {:induction false} DigitsValueOfNatToDigits(n: nat)
    ensures DigitsValue(NatToDigits(n)) == n
  {
    if n >= 10 {
      var s := NatToDigits(n);
      assert s[..|s| - 1] == NatToDigits(n / 10);
      DigitsValueOfNatToDigits(n / 10);
    }
  }

  lemma AllDigitsAppend(s: string, t: string)
    requires AllDigits(s) && AllDigits(t)
    ensures AllDigits(s + t)
  {
    forall k | 0 <= k < |s + t| ensures IsDigit((s + t)[k]) {
      if k < |s| { assert (s + t)[k] == s[k]; } else { assert (s + t)[k] == t[k - |s|]; }
    }
  }

  lemma ShiftArithmetic(v: int, p: int, w: int, d: int)
    ensures (v * p + w) * 10 + d == v * (10 * p) + (w * 10 + d)
  {
  }

  /** Appending digits shifts the value: the digits of `t` are the low-order ones. */
  lemma {:induction false} DigitsValueAppend(s: string, t: string)
    requires AllDigits(s) && AllDigits(t)
    ensures AllDigits(s + t)
    ensures DigitsValue(s + t) == DigitsValue(s) * Pow10(|t|) + DigitsValue(t)
    decreases |t|
  {
    AllDigitsAppend(s, t);
    if t == [] {
      assert s + t == s;
    } else {
      var t' := t[..|t| - 1];
      var st := s + t;
      assert st[..|st| - 1] == s + t';
      assert st[|st| - 1] == t[|t| - 1];
      DigitsValueAppend(s, t');
      var d := DigitValue(t[|t| - 1]);
      assert DigitsValue(st) == DigitsValue(s + t') * 10 + d;
      assert DigitsValue(t) == DigitsValue(t') * 10 + d;
      assert Pow10(|t|) == 10 * Pow10(|t'|);
      ShiftArithmetic(DigitsValue(s), Pow10(|t'|), DigitsValue(t'), d);
    }
  }

  /** The index of the first '.' in `s` at or after `i`, or `|s|` when there is none. */
  function DotIndex(s: string, i: nat): (d: nat)
    requires i <= |s|
    ensures i <= d <= |s|
    ensures d < |s| ==> s[d] == '.'
    ensures forall k :: i <= k < d ==> s[k] != '.'
    decreases |s| - i
  {
    if i == |s| || s[i] == '.' then i else DotIndex(s, i + 1)
  }

  /** The value of the digits `whole`, a point, and the digits `frac`. */
  function PointValue(whole: string, frac: string): real
    requires AllDigits(whole) && AllDigits(frac)
  {
    DigitsValue(whole) as real + DigitsValue(frac) as real / Pow10(|frac|) as real
  }

  /**
   * `float(s)` for a string of digits and dots: the number it spells, or None
   * where `float` raises ValueError. That happens exactly for the empty
   * string, for a lone '.', and for two or more dots.
   */
  function ParseDecimal(s: string): (r: Option<real>)
    requires DigitsAndDots(s)
    ensures r.None? <==> s == [] || s == "." || multiset(s)['.'] >= 2
    ensures '.' !in s && s != [] ==> r == Some(DigitsValue(s) as real)
  {
    var d := DotIndex(s, 0);
    if d == |s| then
      assert multiset(s)['.'] == 0;
      if s == [] then None else Some(DigitsValue(s) as real)
    else
      var whole, frac := s[..d], s[d + 1..];
      assert s == whole + ['.'] + frac;
      assert multiset(s)['.'] == multiset(whole)['.'] + 1 + multiset(frac)['.'];
      assert multiset(whole)['.'] == 0;
      if '.' in frac || s == "." then None
      else Some(PointValue(whole, frac))
  }

  lemma DotsAround(whole: string, frac: string)
    requires AllDigits(whole) && AllDigits(frac)
    ensures DigitsAndDots(whole + "." + frac)
    ensures DotIndex(whole + "." + frac, 0) == |whole|
    ensures '.' !in whole && '.' !in frac
  {
    var s := whole + "." + frac;
    DigitIsNotSpace('.');
    forall k | 0 <= k < |s| ensures IsDigit(s[k]) || s[k] == '.' {
      if k < |whole| { assert s[k] == whole[k]; }
      else if k > |whole| { assert s[k] == frac[k - |whole| - 1]; }
    }
    assert s[|whole|] == '.';
  }

  /** The value of `whole.frac`: the whole part plus the fraction scaled by the number of fraction digits. */
  lemma ParseDecimalPoint(whole: string, frac: string)
    requires AllDigits(whole) && AllDigits(frac) && whole + frac != []
    ensures DigitsAndDots(whole + "." + frac)
    ensures ParseDecimal(whole + "." + frac) == Some(PointValue(whole, frac))
  {
    var s := whole + "." + frac;
    DotsAround(whole, frac);
    assert s[..|whole|] == whole;
    assert s[|whole| + 1..] == frac;
    assert |s| > 1;
  }

  /** A trailing '.' does not change the value: `float("24.") == float("24")`. */
  lemma ParseDecimalTrailingDot(whole: string)
    requires AllDigits(whole) && whole != []
    ensures DigitsAndDots(whole) && DigitsAndDots(whole + ".")
    ensures ParseDecimal(whole + ".") == ParseDecimal(whole)
  {
    ParseDecimalPoint(whole, "");
    assert whole + "." + "" == whole + ".";
    DigitIsNotSpace('.');
    assert '.' !in whole;
  }

  lemma ScaleFraction(x: real, p: real)
    requires p > 0.0
    ensures (x * 10.0) / (p * 10.0) == x / p
  {
    var q := x / p;
    assert q * p == x;
    assert q * (p * 10.0) == x * 10.0;
  }

  lemma PointValueTrailingZero(whole: string, frac: string)
    requires AllDigits(whole) && AllDigits(frac)
    ensures AllDigits(frac + "0")
    ensures PointValue(whole, frac + "0") == PointValue(whole, frac)
  {
    AsciiDigits('0');
    assert AllDigits("0");
    DigitsValueAppend(frac, "0");
    assert DigitsValue("0") == 0;
    assert Pow10(|frac + "0"|) == Pow10(|frac|) * 10;
    ScaleFraction(DigitsValue(frac) as real, Pow10(|frac|) as real);
  }

  /** A trailing zero in the fraction does not change the value: `float("24.50") == float("24.5")`. */
  lemma ParseDecimalTrailingZero(whole: string, frac: string)
    requires AllDigits(whole) && AllDigits(frac) && whole + frac != []
    ensures DigitsAndDots(whole + "." + frac) && DigitsAndDots(whole + "." + frac + "0")
    ensures ParseDecimal(whole + "." + frac + "0") == ParseDecimal(whole + "." + frac)
  {
    PointValueTrailingZero(whole, frac);
    ParseDecimalPoint(whole, frac);
    ParseDecimalPoint(whole, frac + "0");
    assert whole + "." + (frac + "0") == whole + "." + frac + "0";
  }
}
