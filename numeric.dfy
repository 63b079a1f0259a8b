/**
 * Turning cell text into a number: the regular-expression filter `re.sub(r"[^\d.-]", "", s)`
 * and Python's `float()` on the strings that filter can produce. Amounts are exact reals.
 */
module Numeric {

  import opened Wrappers

  predicate IsDigit(ch: char)
  {
    '0' <= ch <= '9'
  }

  /** The characters the filter keeps: ASCII digits, '.' and '-'. */
  predicate IsNumericChar(ch: char)
  {
    IsDigit(ch) || ch == '.' || ch == '-'
  }

  predicate AllDigits(s: string)
  {
    forall i :: 0 <= i < |s| ==> IsDigit(s[i])
  }

  predicate AllNumeric(s: string)
  {
    forall i :: 0 <= i < |s| ==> IsNumericChar(s[i])
  }

  /** `re.sub(r"[^\d.-]", "", s)`: drop every character that is not a digit, '.' or '-'. */
  function KeepNumeric(s: string): (r: string)
    ensures AllNumeric(r)
    ensures |r| <= |s|
    ensures forall ch :: ch in r ==> ch in s
  {
    if s == [] then []
    else (if IsNumericChar(s[0]) then [s[0]] else []) + KeepNumeric(s[1..])
  }

  /** The filter works character by character, so it distributes over concatenation. */
  lemma {:induction false} KeepNumericAppend(a: string, b: string)
    ensures KeepNumeric(a + b) == KeepNumeric(a) + KeepNumeric(b)
    decreases |a|
  {
    if a == [] {
      assert a + b == b;
    } else {
      var head := if IsNumericChar(a[0]) then [a[0]] else [];
      assert (a + b)[0] == a[0];
      assert (a + b)[1..] == a[1..] + b;
      assert KeepNumeric(a + b) == head + KeepNumeric(a[1..] + b);
      assert KeepNumeric(a) == head + KeepNumeric(a[1..]);
      KeepNumericAppend(a[1..], b);
      assert head + (KeepNumeric(a[1..]) + KeepNumeric(b)) == (head + KeepNumeric(a[1..])) + KeepNumeric(b);
    }
  }

  /** A string that only has kept characters passes the filter unchanged. */
  lemma {:induction false} KeepNumericOfNumeric(s: string)
    requires AllNumeric(s)
    ensures KeepNumeric(s) == s
    decreases |s|
  {
    if s != [] {
      KeepNumericOfNumeric(s[1..]);
    }
  }

  /** Filtering twice is filtering once. */
  lemma KeepNumericIdempotent(s: string)
    ensures KeepNumeric(KeepNumeric(s)) == KeepNumeric(s)
  {
    KeepNumericOfNumeric(KeepNumeric(s));
  }

  function DigitValue(ch: char): nat
    requires IsDigit(ch)
  {
    ch as int - '0' as int
  }

  function DigitChar(d: nat): (ch: char)
    requires d < 10
    ensures IsDigit(ch) && DigitValue(ch) == d
  {
    ('0' as int + d) as char
  }

  /** The value of a string of decimal digits, most significant first. */
  function DigitsValue(s: string): nat
    requires AllDigits(s)
  {
    if s == [] then 0 else 10 * DigitsValue(s[..|s| - 1]) + DigitValue(s[|s| - 1])
  }

  /** The longest prefix of digits. */
  function TakeDigits(s: string): (r: string)
    ensures |r| <= |s| && r == s[..|r|]
    ensures AllDigits(r)
    ensures |r| < |s| ==> !IsDigit(s[|r|])
  {
    if s != [] && IsDigit(s[0]) then [s[0]] + TakeDigits(s[1..]) else []
  }

  /**
   * The value of the digits after a decimal point: the first weighs a tenth, and each
   * following digit a tenth of the one before it.
   */
  function FractionValue(frac: string): (r: real)
    requires AllDigits(frac)
  {
    if frac == [] then 0.0 else (DigitValue(frac[0]) as real + FractionValue(frac[1..])) / 10.0
  }

  lemma {:induction false} FractionBounds(frac: string)
    requires AllDigits(frac)
    ensures 0.0 <= FractionValue(frac) < 1.0
  {
    if frac != [] { FractionBounds(frac[1..]); }
  }

  /** The value of the decimal `whole.frac`. */
  function DecimalValue(whole: string, frac: string): (r: real)
    requires AllDigits(whole) && AllDigits(frac)
    ensures r >= 0.0
  {
    FractionBounds(frac);
    DigitsValue(whole) as real + FractionValue(frac)
  }

  /**
   * `float(s)` for a string without its sign: `D+`, `D+.`, `D+.D+` or `.D+`
   * (exponents, "inf", "nan", '+' and '_' cannot survive the filter).
   */
  function ParseUnsigned(s: string): (r: Option<real>)
    ensures r.Some? ==> r.value >= 0.0
  {
    var whole := TakeDigits(s);
    var rest := s[|whole|..];
    if rest == [] then
      if whole == [] then None else Some(DigitsValue(whole) as real)
    else if rest[0] == '.' && AllDigits(rest[1..]) && (whole != [] || |rest| > 1) then
      Some(DecimalValue(whole, rest[1..]))
    else None
  }

  /**
   * `float(s)` on a string of digits, '.' and '-': an optional leading minus and an unsigned
   * decimal; `None` where Python raises ValueError.
   */
  function ParseFloat(s: string): Option<real>
    requires AllNumeric(s)
  {
    if |s| > 0 && s[0] == '-' then
      match ParseUnsigned(s[1..])
      case Some(v) => Some(-v)
      case None => None
    else ParseUnsigned(s)
  }

  /** A string without a single digit is never a number ("", ".", "-", "--", "-.-"). */
  lemma ParseFloatNeedsDigit(s: string)
    requires AllNumeric(s)
    requires forall i :: 0 <= i < |s| ==> !IsDigit(s[i])
    ensures ParseFloat(s) == None
  {
    assert TakeDigits(s) == [];
    if |s| > 0 && s[0] == '-' {
      var t := s[1..];
      assert forall i :: 0 <= i < |t| ==> !IsDigit(t[i]) by {
        forall i | 0 <= i < |t| ensures !IsDigit(t[i]) { assert t[i] == s[i + 1]; }
      }
      assert TakeDigits(t) == [];
      assert |t| > 1 ==> !IsDigit(t[1]);
    } else {
      assert |s| > 1 ==> !IsDigit(s[1]);
    }
  }

  /** The decimal rendering of a natural number. */
  function NatToDigits(n: nat): (r: string)
    ensures r != [] && AllDigits(r)
  {
    if n < 10 then [DigitChar(n)] else NatToDigits(n / 10) + [DigitChar(n % 10)]
  }

  lemma {:induction false} DigitsValueOfNatToDigits(n: nat)
    ensures DigitsValue(NatToDigits(n)) == n
    decreases n
  {
    var r := NatToDigits(n);
    if n >= 10 {
      DigitsValueOfNatToDigits(n / 10);
      assert r[..|r| - 1] == NatToDigits(n / 10);
    }
  }

  lemma {:induction false} TakeDigitsOfDigits(s: string)
    requires AllDigits(s)
    ensures TakeDigits(s) == s
    decreases |s|
  {
    if s != [] {
      TakeDigitsOfDigits(s[1..]);
    }
  }

  /** A whole number written out in decimal parses back to itself. */
  lemma ParseFloatOfNat(n: nat)
    ensures AllNumeric(NatToDigits(n))
    ensures ParseFloat(NatToDigits(n)) == Some(n as real)
  {
    var s := NatToDigits(n);
    TakeDigitsOfDigits(s);
    DigitsValueOfNatToDigits(n);
  }

  /** A negative whole number written out with a leading minus parses back to itself. */
  lemma ParseFloatOfNegatedNat(n: nat)
    ensures AllNumeric("-" + NatToDigits(n))
    ensures ParseFloat("-" + NatToDigits(n)) == Some(-(n as real))
  {
    var s := NatToDigits(n);
    assert ("-" + s)[1..] == s;
    TakeDigitsOfDigits(s);
    DigitsValueOfNatToDigits(n);
  }

  /** `w.f` with a non-empty whole part and an all-digit fraction: `w + f / 10^|f|`. */
  lemma ParseUnsignedOfDecimal(w: string, f: string)
    requires w != [] && AllDigits(w) && AllDigits(f)
    ensures ParseUnsigned(w + ("." + f)) == Some(DecimalValue(w, f))
  {
    var s := w + ("." + f);
    TakeDigitsPrefix(w, "." + f);
    var rest := s[|w|..];
    assert rest == "." + f;
    assert rest[1..] == f;
  }

  /** The same through `float()`: a string that starts with a digit has no sign. */
  lemma ParseFloatOfDecimal(w: string, f: string)
    requires w != [] && AllDigits(w) && AllDigits(f)
    ensures AllNumeric(w + "." + f)
    ensures ParseFloat(w + "." + f) == Some(DecimalValue(w, f))
  {
    assert w + "." + f == w + ("." + f);
    ParseUnsignedOfDecimal(w, f);
    assert (w + "." + f)[0] == w[0];
  }

  /** Two fractional digits `c1 c2` are worth `(10 * c1 + c2) / 100`. */
  lemma FractionValueOfPair(c1: nat, c2: nat)
    requires c1 < 10 && c2 < 10
    ensures AllDigits([DigitChar(c1), DigitChar(c2)])
    ensures FractionValue([DigitChar(c1), DigitChar(c2)]) == (10 * c1 + c2) as real / 100.0
  {
    var f := [DigitChar(c1), DigitChar(c2)];
    assert f[1..] == [DigitChar(c2)];
    assert f[1..][1..] == [];
    assert FractionValue(f[1..]) == c2 as real / 10.0;
  }

  /** `d.cc` with two fractional digits parses to `d + cc/100`. */
  lemma ParseFloatOfCents(d: nat, c1: nat, c2: nat)
    requires c1 < 10 && c2 < 10
    ensures AllNumeric(NatToDigits(d) + "." + [DigitChar(c1), DigitChar(c2)])
    ensures ParseFloat(NatToDigits(d) + "." + [DigitChar(c1), DigitChar(c2)])
         == Some(d as real + (10 * c1 + c2) as real / 100.0)
  {
    var w, f := NatToDigits(d), [DigitChar(c1), DigitChar(c2)];
    FractionValueOfPair(c1, c2);
    ParseFloatOfDecimal(w, f);
    DigitsValueOfNatToDigits(d);
  }

  /** The digit prefix of `w + t` is `w` when `w` is all digits and `t` starts with a non-digit. */
  lemma {:induction false} TakeDigitsPrefix(w: string, t: string)
    requires AllDigits(w)
    requires t != [] && !IsDigit(t[0])
    ensures TakeDigits(w + t) == w
    decreases |w|
  {
    if w == [] {
      assert w + t == t;
    } else {
      assert (w + t)[1..] == w[1..] + t;
      TakeDigitsPrefix(w[1..], t);
    }
  }
}
