/**
 * Number conversions of the two runtimes the sources run on.  Floating point is
 * modelled by exact reals: the decimal literal `d` denotes the real number it
 * writes, not its nearest binary double.
 *
 *  - Python `float(s)`: surrounding whitespace, an optional sign, a decimal
 *    mantissa and an optional exponent, the whole string;
 *  - Python `int(s)` on a string and `int(x)` on a float (truncation);
 *  - Python `round(x)` (ties to even);
 *  - JavaScript `parseFloat(s)` (the longest decimal prefix after leading
 *    whitespace), `Number(s)` (the whole trimmed string, empty meaning 0) and
 *    `Math.round(x)` (ties towards positive infinity).
 */
module Numeric {
  import opened Wrappers
  import opened Text

  // ---------------------------------------------------------------------------
  // Digits and powers of ten
  // ---------------------------------------------------------------------------

  predicate AllDigits(s: string) {
    forall i :: 0 <= i < |s| ==> IsDigit(s[i])
  }

  function Pow10(n: nat): (r: nat)
    ensures r >= 1
  {
    if n == 0 then 1 else 10 * Pow10(n - 1)
  }

  lemma {:induction false} Pow10Add(a: nat, b: nat)
    ensures Pow10(a + b) == Pow10(a) * Pow10(b)
  {
    if b > 0 {
      Pow10Add(a, b - 1);
      assert Pow10(a + b) == 10 * Pow10(a + b - 1);
    }
  }

  lemma {:induction false} Pow10Monotone(a: nat, b: nat)
    requires a <= b
    ensures Pow10(a) <= Pow10(b)
  {
    if a < b {
      Pow10Monotone(a, b - 1);
    }
  }

  /** Digits with thousands dots. */
  predicate DigitsAndDots(w: string) {
    forall i :: 0 <= i < |w| ==> IsDigit(w[i]) || w[i] == '.'
  }

  /** Dropping the dots from digits and dots leaves only digits. */
  lemma {:induction false} DeleteDotsDigits(w: string)
    requires DigitsAndDots(w)
    ensures AllDigits(DeleteChar(w, '.'))
  {
    if w != [] {
      assert forall i :: 0 <= i < |w[1..]| ==> w[1..][i] == w[i + 1];
      DeleteDotsDigits(w[1..]);
    }
  }

  /** The digits of a dot-grouped number, without the dots. */
  function Undotted(w: string): (r: string)
    requires DigitsAndDots(w)
    ensures AllDigits(r) && |r| <= |w|
  {
    DeleteDotsDigits(w);
    DeleteChar(w, '.')
  }

  lemma AllDigitsAppend(a: string, b: string)
    requires AllDigits(a) && AllDigits(b)
    ensures AllDigits(a + b)
  {
    assert forall i :: 0 <= i < |a + b| ==> (a + b)[i] == if i < |a| then a[i] else b[i - |a|];
  }

  /** The number written by a string of decimal digits (most significant first). */
  function DigitsValue(ds: string): nat
    requires AllDigits(ds)
  {
    if ds == [] then 0
    else DigitsValue(ds[..|ds| - 1]) * 10 + (ds[|ds| - 1] as int - '0' as int)
  }

  /** A string of `n` digits writes a number below `10^n`. */
  lemma {:induction false} DigitsValueBound(ds: string)
    requires AllDigits(ds)
    ensures DigitsValue(ds) < Pow10(|ds|)
  {
    if ds != [] {
      DigitsValueBound(ds[..|ds| - 1]);
    }
  }

  /** Reading back the decimal digits of a natural number gives the number. */
  lemma {:induction false} DigitsValueOfNatToString(n: nat)
    ensures AllDigits(NatToString(n))
    ensures DigitsValue(NatToString(n)) == n
    decreases n
  {
    if n >= 10 {
      DigitsValueOfNatToString(n / 10);
      var s := NatToString(n);
      assert s[..|s| - 1] == NatToString(n / 10);
    }
  }

  /** The number of digits of `n` places it between two consecutive powers of ten. */
  lemma {:induction false} NatToStringLength(n: nat)
    ensures n < Pow10(|NatToString(n)|)
    ensures n >= 1 ==> Pow10(|NatToString(n)| - 1) <= n
    decreases n
  {
    if n >= 10 {
      NatToStringLength(n / 10);
    }
  }

  /** Multiplying by `10^e`, or dividing by `10^-e` when the exponent is negative. */
  function ScaleExp(x: real, e: int): real {
    if e >= 0 then x * Pow10(e) as real else x / Pow10(-e) as real
  }

  // ---------------------------------------------------------------------------
  // Decimal literals
  // ---------------------------------------------------------------------------

  /** Index of the first exponent marker `e` or `E`, or `|s|`. */
  function ExponentIndex(s: string): (i: nat)
    ensures i <= |s|
    ensures i < |s| ==> s[i] == 'e' || s[i] == 'E'
    ensures forall k :: 0 <= k < i ==> s[k] != 'e' && s[k] != 'E'
  {
    if s == [] then 0 else if s[0] == 'e' || s[0] == 'E' then 0 else 1 + ExponentIndex(s[1..])
  }

  /** An optionally signed, non-empty run of digits, as an integer (`int(s)` without whitespace). */
  function SignedInteger(s: string): (r: Option<int>)
    ensures r.Some? ==> s != []
  {
    if s != [] && (s[0] == '+' || s[0] == '-') then
      var body := s[1..];
      if body != [] && AllDigits(body) then
        var v: int := DigitsValue(body);
        Some(if s[0] == '-' then -v else v)
      else None
    else if s != [] && AllDigits(s) then Some(DigitsValue(s))
    else None
  }

  /**
   * A mantissa `digits`, `digits.`, `digits.digits` or `.digits` (no sign, no
   * exponent) as a real.
   */
  function Mantissa(m: string): (r: Option<real>)
    ensures r.Some? ==> r.value >= 0.0
  {
    var j := IndexOf(m, '.');
    var whole := m[..j];
    var frac := if j < |m| then m[j + 1..] else "";
    if AllDigits(whole) && AllDigits(frac) && |whole| + |frac| > 0 then
      Some(DigitsValue(whole + frac) as real / Pow10(|frac|) as real)
    else None
  }

  /** An unsigned decimal literal: a mantissa and an optional exponent. */
  function UnsignedDecimal(s: string): (r: Option<real>)
    ensures r.Some? ==> r.value >= 0.0
  {
    var i := ExponentIndex(s);
    match Mantissa(s[..i])
    case None => None
    case Some(m) =>
      if i == |s| then Some(m)
      else
        match SignedInteger(s[i + 1..])
        case None => None
        case Some(e) => Some(ScaleExp(m, e))
  }

  /** A decimal literal with an optional leading `+` or `-`. */
  function SignedDecimal(s: string): Option<real> {
    if s != [] && (s[0] == '+' || s[0] == '-') then
      match UnsignedDecimal(s[1..])
      case None => None
      case Some(v) => Some(if s[0] == '-' then -v else v)
    else UnsignedDecimal(s)
  }

  predicate IsDecimal(s: string) {
    SignedDecimal(s).Some?
  }

  /** One and two digits. */
  lemma DigitsValueShort(p: string)
    requires AllDigits(p) && 1 <= |p| <= 2
    ensures |p| == 1 ==> DigitsValue(p) == p[0] as int - '0' as int
    ensures |p| == 2 ==> DigitsValue(p) == 10 * (p[0] as int - '0' as int) + (p[1] as int - '0' as int)
  {
    if |p| == 2 {
      assert p[..1] == [p[0]];
      assert DigitsValue(p[..1]) == p[0] as int - '0' as int;
    }
  }

  lemma ExponentIndexAbsent(s: string)
    requires forall i :: 0 <= i < |s| ==> s[i] != 'e' && s[i] != 'E'
    ensures ExponentIndex(s) == |s|
  {
  }

  /** Without a sign, a signed literal is an unsigned one. */
  lemma SignedDecimalUnsigned(s: string)
    requires s != [] && s[0] != '+' && s[0] != '-'
    ensures SignedDecimal(s) == UnsignedDecimal(s)
  {
  }

  /** A minus sign before an unsigned literal negates it. */
  lemma SignedDecimalNegative(u: string, v: real)
    requires UnsignedDecimal(u) == Some(v)
    ensures SignedDecimal("-" + u) == Some(-v)
  {
    var s := "-" + u;
    assert s[1..] == u;
  }

  /** Without an exponent marker, a literal is its mantissa. */
  lemma UnsignedDecimalNoExponent(s: string)
    requires ExponentIndex(s) == |s|
    ensures UnsignedDecimal(s) == Mantissa(s)
  {
    assert s[..|s|] == s;
  }

  /** `whole.frac` is the mantissa it writes. */
  lemma MantissaOfPoint(whole: string, frac: string)
    requires AllDigits(whole) && AllDigits(frac) && whole != []
    ensures Mantissa(whole + "." + frac) == Some(DigitsValue(whole + frac) as real / Pow10(|frac|) as real)
  {
    var m := whole + "." + frac;
    var j := IndexOf(m, '.');
    assert j == |whole| by {
      assert m[|whole|] == '.';
      assert forall k :: 0 <= k < |whole| ==> m[k] == whole[k];
    }
    assert m[..j] == whole;
    assert m[j + 1..] == frac;
  }

  /** A digit string is the mantissa it writes. */
  lemma MantissaOfDigits(ds: string)
    requires AllDigits(ds) && ds != []
    ensures Mantissa(ds) == Some(DigitsValue(ds) as real)
  {
    MantissaWithoutPoint(ds);
    SomeOverOne(Mantissa(ds), DigitsValue(ds) as real, Pow10(0));
  }

  lemma SomeOverOne(o: Option<real>, v: real, p: nat)
    requires p == 1 && o == Some(v / p as real)
    ensures o == Some(v)
  {
  }

  lemma MantissaWithoutPoint(ds: string)
    requires AllDigits(ds) && ds != []
    ensures Mantissa(ds) == Some(DigitsValue(ds) as real / Pow10(0) as real)
  {
    NoMarkerInDigits(ds);
    assert ds[..|ds|] == ds;
    assert ds + "" == ds;
  }

  /** `whole.frac` is a signed decimal literal denoting the value it writes. */
  lemma SignedDecimalOfPointNumber(whole: string, frac: string)
    requires AllDigits(whole) && AllDigits(frac) && whole != []
    ensures SignedDecimal(whole + "." + frac) == Some(DigitsValue(whole + frac) as real / Pow10(|frac|) as real)
  {
    var s := whole + "." + frac;
    assert forall i :: 0 <= i < |s| ==> s[i] == '.' || IsDigit(s[i]) by {
      forall i | 0 <= i < |s|
        ensures s[i] == '.' || IsDigit(s[i])
      {
        if i < |whole| {
          assert s[i] == whole[i];
        } else if i > |whole| {
          assert s[i] == frac[i - |whole| - 1];
        }
      }
    }
    ExponentIndexAbsent(s);
    SignedDecimalUnsigned(s);
    UnsignedDecimalNoExponent(s);
    MantissaOfPoint(whole, frac);
  }

  /** `float` of a string without surrounding whitespace reads the literal itself. */
  lemma PyFloatNoSpace(s: string)
    requires s != [] && !IsSpace(s[0]) && !IsSpace(s[|s| - 1])
    ensures PyFloat(s) == SignedDecimal(s)
  {
    StripNoSpace(s);
  }

  /** A Python decimal literal made of digits, a point and digits denotes the expected value. */
  lemma PyFloatOfPointNumber(whole: string, frac: string)
    requires AllDigits(whole) && AllDigits(frac) && whole != []
    ensures PyFloat(whole + "." + frac) == Some(DigitsValue(whole + frac) as real / Pow10(|frac|) as real)
  {
    var s := whole + "." + frac;
    assert s[0] == whole[0];
    assert s[|s| - 1] == '.' || s[|s| - 1] == frac[|frac| - 1];
    PyFloatNoSpace(s);
    SignedDecimalOfPointNumber(whole, frac);
  }

  /** A string of digits is a decimal literal denoting the number it writes. */
  lemma {:induction false} UnsignedDecimalOfDigits(ds: string)
    requires ds != [] && AllDigits(ds)
    ensures UnsignedDecimal(ds) == Some(DigitsValue(ds) as real)
  {
    NoMarkerInDigits(ds);
    UnsignedDecimalNoExponent(ds);
    MantissaOfDigits(ds);
  }

  lemma NoMarkerInDigits(ds: string)
    requires AllDigits(ds)
    ensures ExponentIndex(ds) == |ds|
    ensures IndexOf(ds, '.') == |ds|
  {
  }

  // ---------------------------------------------------------------------------
  // Python
  // ---------------------------------------------------------------------------

  /**
   * Python `float(s)` on a string: `None` where Python raises `ValueError`.
   * The special spellings `inf`/`nan` and digit-group underscores are outside
   * this model and also give `None`.
   */
  function PyFloat(s: string): Option<real> {
    SignedDecimal(Strip(s))
  }

  /** `str(n)` of a natural number is read back by `float` as the same number. */
  lemma PyFloatOfNatToString(n: nat)
    ensures PyFloat(NatToString(n)) == Some(n as real)
  {
    var s := NatToString(n);
    DigitsValueOfNatToString(n);
    assert !IsSpace(s[0]) && !IsSpace(s[|s| - 1]);
    StripNoSpace(s);
    UnsignedDecimalOfDigits(s);
  }

  /** Python `int(s)` on a string: surrounding whitespace, an optional sign, digits. */
  function PyIntOfString(s: string): Option<int> {
    SignedInteger(Strip(s))
  }

  /** Python `int(x)` on a float: truncation towards zero. */
  function Trunc(x: real): (r: int)
    ensures x >= 0.0 ==> 0.0 <= r as real <= x < r as real + 1.0
    ensures x < 0.0 ==> r as real - 1.0 < x <= r as real <= 0.0
  {
    if x >= 0.0 then x.Floor else -((-x).Floor)
  }

  /** Python `round(x)`: the nearest integer, and the even one of two equally near. */
  function RoundHalfEven(x: real): (r: int)
    ensures -0.5 <= r as real - x <= 0.5
    ensures (r as real - x == 0.5 || x - r as real == 0.5) ==> r % 2 == 0
  {
    var f := x.Floor;
    var d := x - f as real;
    if d < 0.5 then f
    else if d > 0.5 then f + 1
    else if f % 2 == 0 then f
    else f + 1
  }

  /** Any integer within one half of `x`, and even on a tie, is `round(x)`. */
  lemma RoundHalfEvenUnique(x: real, n: int)
    requires -0.5 <= n as real - x <= 0.5
    requires (n as real - x == 0.5 || x - n as real == 0.5) ==> n % 2 == 0
    ensures RoundHalfEven(x) == n
  {
  }

  // ---------------------------------------------------------------------------
  // JavaScript
  // ---------------------------------------------------------------------------

  /**
   * The length of the longest prefix of `t[..k]` that satisfies `ok`, or 0
   * when no non-empty prefix does.
   */
  function LongestPrefix(t: string, k: nat, ok: string -> bool): (n: nat)
    requires k <= |t|
    ensures n <= k
    ensures n > 0 ==> ok(t[..n])
    ensures forall j :: n < j <= k ==> !ok(t[..j])
    decreases k
  {
    if k == 0 then 0
    else if ok(t[..k]) then k
    else LongestPrefix(t, k - 1, ok)
  }

  /**
   * JavaScript `parseFloat(s)`: leading whitespace is skipped and the longest
   * decimal prefix is read; `None` stands for `NaN`.  `Infinity` is outside
   * this model.
   */
  function JsParseFloat(s: string): (r: Option<real>)
    ensures SignedDecimal(TrimStart(s)).Some? ==> r == SignedDecimal(TrimStart(s))
  {
    var t := TrimStart(s);
    var n := LongestPrefix(t, |t|, IsDecimal);
    assert t[..|t|] == t;
    if n == 0 then None else SignedDecimal(t[..n])
  }

  /**
   * JavaScript `Number(s)` on a string: the whole trimmed string must be a
   * decimal literal; the empty string is 0; `None` stands for `NaN`.
   * Hexadecimal and `Infinity` spellings are outside this model.
   */
  function JsNumber(s: string): (r: Option<real>)
    ensures IsBlank(s) ==> r == Some(0.0)
  {
    var t := Strip(s);
    if t == [] then Some(0.0) else SignedDecimal(t)
  }

  /** The characters a decimal literal can contain. */
  predicate IsDecimalChar(c: char) {
    IsDigit(c) || c == '+' || c == '-' || c == '.' || c == 'e' || c == 'E'
  }

  /** A mantissa is digits and at most a point, starting with either. */
  lemma MantissaChars(m: string)
    requires Mantissa(m).Some?
    ensures m != [] && (IsDigit(m[0]) || m[0] == '.')
    ensures forall i :: 0 <= i < |m| ==> IsDigit(m[i]) || m[i] == '.'
  {
    var j := IndexOf(m, '.');
    var whole := m[..j];
    var frac := if j < |m| then m[j + 1..] else "";
    forall i | 0 <= i < |m|
      ensures IsDigit(m[i]) || m[i] == '.'
    {
      if i < j {
        assert m[i] == whole[i];
      } else if i > j {
        assert m[i] == frac[i - j - 1];
      }
    }
  }

  /** A literal starts with a digit, a point or a sign, and holds only literal characters. */
  lemma DecimalChars(s: string)
    requires IsDecimal(s)
    ensures s != [] && (IsDigit(s[0]) || s[0] == '+' || s[0] == '-' || s[0] == '.')
    ensures forall i :: 0 <= i < |s| ==> IsDecimalChar(s[i])
  {
    if s[0] == '+' || s[0] == '-' {
      UnsignedDecimalChars(s[1..]);
      assert forall i :: 1 <= i < |s| ==> s[i] == s[1..][i - 1];
    } else {
      UnsignedDecimalChars(s);
    }
  }

  lemma UnsignedDecimalChars(s: string)
    requires UnsignedDecimal(s).Some?
    ensures s != [] && (IsDigit(s[0]) || s[0] == '.')
    ensures forall i :: 0 <= i < |s| ==> IsDecimalChar(s[i])
  {
    var i := ExponentIndex(s);
    assert Mantissa(s[..i]).Some?;
    MantissaChars(s[..i]);
    if i < |s| {
      assert SignedInteger(s[i + 1..]).Some?;
      SignedIntegerChars(s[i + 1..]);
    }
    forall k | 0 <= k < |s|
      ensures IsDecimalChar(s[k])
    {
      if k < i {
        assert s[k] == s[..i][k];
      } else if k > i {
        assert s[k] == s[i + 1..][k - i - 1];
      }
    }
  }

  /** An integer literal is digits after an optional sign. */
  lemma SignedIntegerChars(e: string)
    requires SignedInteger(e).Some?
    ensures forall k :: 0 <= k < |e| ==> IsDecimalChar(e[k])
  {
    if e[0] == '+' || e[0] == '-' {
      assert forall k :: 1 <= k < |e| ==> e[k] == e[1..][k - 1];
    }
  }

  /** `parseFloat` of text whose first character cannot start a number is `NaN`. */
  lemma JsParseFloatNoNumber(s: string)
    requires s != [] && !IsSpace(s[0]) && !IsDigit(s[0]) && s[0] != '+' && s[0] != '-' && s[0] != '.'
    ensures JsParseFloat(s) == None
  {
    var t := TrimStart(s);
    assert t == s;
    forall j | 0 < j <= |t|
      ensures !IsDecimal(t[..j])
    {
      assert t[..j][0] == s[0];
      if IsDecimal(t[..j]) {
        DecimalChars(t[..j]);
      }
    }
    assert LongestPrefix(t, |t|, IsDecimal) == 0;
  }

  /** `parseFloat` reads a decimal number up to the first character no literal contains. */
  lemma JsParseFloatPrefix(s: string, n: nat)
    requires 0 < n <= |s| && IsDecimal(s[..n]) && !IsSpace(s[0])
    requires n < |s| ==> !IsDecimalChar(s[n])
    ensures JsParseFloat(s) == SignedDecimal(s[..n])
  {
    var t := TrimStart(s);
    assert t == s;
    forall j | n < j <= |t|
      ensures !IsDecimal(t[..j])
    {
      assert t[..j][n] == s[n];
      if IsDecimal(t[..j]) {
        DecimalChars(t[..j]);
      }
    }
    var m := LongestPrefix(t, |t|, IsDecimal);
    assert m == n;
  }

  /** Truthiness of a nullable number, the same in JavaScript and Python: present and non-zero (NaN is not modelled). */
  predicate Truthy(v: Option<real>) {
    v.Some? && v.value != 0.0
  }

  /** JavaScript `v || 0` for a nullable number. */
  function OrZero(v: Option<real>): (r: real)
    ensures Truthy(v) ==> r == v.value
    ensures !Truthy(v) ==> r == 0.0
  {
    if v.Some? then v.value else 0.0
  }

  /** JavaScript `Math.round(x)`: the nearest integer, ties going up. */
  function JsRound(x: real): (r: int)
    ensures r as real - 0.5 <= x < r as real + 0.5
  {
    (x + 0.5).Floor
  }

  /** The number of decimal digits of the integer part of `|x|` (`len(str(int(abs(x))))`). */
  function IntegerDigits(x: real): (n: nat)
    ensures n >= 1
  {
    var a := if x >= 0.0 then x else -x;
    |NatToString(a.Floor)|
  }
}
