/** JavaScript numbers as exact reals, and the two string-to-number conversions the app uses:
    `parseFloat` (longest decimal prefix) and `Number(string)` (whole trimmed string). */
module Numbers {
  import opened Wrappers
  import opened Text

  /** A JavaScript number: NaN or a finite value (binary rounding is not modelled). */
  datatype Num = NaN | Fin(r: real)

  /** Truthiness of a number: NaN and 0 are falsy. */
  predicate NumTruthy(n: Num) {
    n.Fin? && n.r != 0.0
  }

  /** `x || 0` on a number, which is also `isNaN(x) ? 0 : x`. */
  function OrZero(n: Num): (r: real)
    ensures NumTruthy(n) ==> r == n.r
    ensures !NumTruthy(n) ==> r == 0.0
  {
    if n.Fin? then n.r else 0.0
  }

  predicate IsDigit(c: char) {
    '0' <= c <= '9'
  }

  predicate AllDigits(s: string) {
    forall k :: 0 <= k < |s| ==> IsDigit(s[k])
  }

  function DigitValue(c: char): (d: nat)
    requires IsDigit(c)
    ensures d < 10
  {
    (c as int) - ('0' as int)
  }

  function DigitChar(d: nat): (c: char)
    requires d < 10
    ensures IsDigit(c) && DigitValue(c) == d
  {
    ((('0' as int) + d) as char)
  }

  /** The value of a string of decimal digits, most significant first. */
  function DigitsValue(s: string): nat
    requires AllDigits(s)
  {
    if s == [] then 0 else DigitsValue(s[..|s| - 1]) * 10 + DigitValue(s[|s| - 1])
  }

  function Pow10(k: nat): (p: nat)
    ensures p >= 1
  {
    if k == 0 then 1 else 10 * Pow10(k - 1)
  }

  /** The canonical decimal rendering of a natural number (`String(n)` for a non-negative integer). */
  function DecimalString(n: nat): (r: string)
    ensures r != [] && AllDigits(r)
    ensures DigitsValue(r) == n
    ensures r[0] == '0' ==> n == 0
  {
    if n < 10 then [DigitChar(n)]
    else
      var p := DecimalString(n / 10);
      assert (p + [DigitChar(n % 10)])[..|p|] == p;
      p + [DigitChar(n % 10)]
  }

  /** End of the run of digits that starts at `i`. */
  function DigitRun(s: string, i: nat): (j: nat)
    requires i <= |s|
    ensures i <= j <= |s| && AllDigits(s[i..j])
    ensures j == |s| || !IsDigit(s[j])
    decreases |s| - i
  {
    if i < |s| && IsDigit(s[i]) then
      var j := DigitRun(s, i + 1);
      assert forall k :: 0 <= k < j - i ==> s[i..j][k] == s[i + k];
      j
    else i
  }

  /** `10^e` for a possibly negative exponent. */
  function Scale(e: int): (x: real)
    ensures x > 0.0
  {
    if e >= 0 then Pow10(e) as real else 1.0 / (Pow10(-e) as real)
  }

  /** The optional exponent part `[eE][+-]?digits` starting at `i`: its value and where it ends
      (an `e` not followed by digits is not part of the literal). */
  function ScanExponent(s: string, i: nat): (r: (int, nat))
    requires i <= |s|
    ensures i <= r.1 <= |s|
    ensures r.1 == i ==> r.0 == 0
  {
    if i < |s| && (s[i] == 'e' || s[i] == 'E') then
      var signLen := if i + 1 < |s| && (s[i + 1] == '+' || s[i + 1] == '-') then 1 else 0;
      var d := DigitRun(s, i + 1 + signLen);
      if d == i + 1 + signLen then (0, i)
      else
        var v: int := DigitsValue(s[i + 1 + signLen..d]);
        (if signLen == 1 && s[i + 1] == '-' then -v else v, d)
    else (0, i)
  }

  /** Where the sign, whole-part and fraction-part of a decimal literal at the start of `s` end. */
  function SignLength(s: string): nat {
    if |s| > 0 && (s[0] == '+' || s[0] == '-') then 1 else 0
  }

  /** Whether `s` starts with a decimal literal: a sign, then a digit or a point followed by a digit. */
  predicate StartsWithLiteral(s: string) {
    var k := SignLength(s);
    (k < |s| && IsDigit(s[k])) || (k + 1 < |s| && s[k] == '.' && IsDigit(s[k + 1]))
  }

  /** End of the whole-number digits of the literal at the start of `s`. */
  function WholeEnd(s: string): (a: nat)
    ensures SignLength(s) <= a <= |s|
  {
    DigitRun(s, SignLength(s))
  }

  predicate HasPoint(s: string) {
    WholeEnd(s) < |s| && s[WholeEnd(s)] == '.'
  }

  /** End of the fraction digits (just after the point when there are none). */
  function FractionEnd(s: string): (b: nat)
    ensures WholeEnd(s) <= b <= |s|
    ensures !HasPoint(s) ==> b == WholeEnd(s)
    ensures HasPoint(s) ==> WholeEnd(s) + 1 <= b
  {
    if HasPoint(s) then DigitRun(s, WholeEnd(s) + 1) else WholeEnd(s)
  }

  /** The unsigned value of the digits before the exponent. */
  function Mantissa(s: string): real
  {
    var k, a, b := SignLength(s), WholeEnd(s), FractionEnd(s);
    var whole := DigitsValue(s[k..a]) as real;
    if HasPoint(s) then whole + DigitsValue(s[a + 1..b]) as real / (Pow10(b - (a + 1)) as real) else whole
  }

  /** The longest decimal literal at the start of `s` (`[+-]? digits [. digits] [e[+-]digits]`),
      as its value and its length; None when `s` does not start with one. */
  function ScanDecimal(s: string): (r: Option<(real, nat)>)
    ensures r.Some? <==> StartsWithLiteral(s)
    ensures r.Some? ==> 0 < r.value.1 <= |s|
  {
    if WholeEnd(s) == SignLength(s) && FractionEnd(s) <= WholeEnd(s) + 1 then None
    else
      var exp := ScanExponent(s, FractionEnd(s));
      var magnitude := Mantissa(s) * Scale(exp.0);
      Some((if SignLength(s) == 1 && s[0] == '-' then -magnitude else magnitude, exp.1))
  }

  /** `parseFloat(s)`: leading whitespace skipped, then the longest decimal prefix; NaN without one. */
  function ParseFloat(s: string): (n: Num)
    ensures n.Fin? <==> StartsWithLiteral(TrimStart(s))
  {
    match ScanDecimal(TrimStart(s))
    case None => NaN
    case Some(p) => Fin(p.0)
  }

  /** `Number(s)` for a string: the trimmed string must be one decimal literal, with nothing
      after it; blank gives 0. */
  function StringToNumber(s: string): (n: Num)
    ensures AllSpace(s) ==> n == Fin(0.0)
    ensures n.Fin? && !AllSpace(s) ==> StartsWithLiteral(Trim(s))
    ensures n.Fin? && !AllSpace(s) ==> ParseFloat(Trim(s)) == n
    ensures !AllSpace(s) && ParseFloat(Trim(s)).NaN? ==> n.NaN?
    ensures !AllSpace(s) ==>
      (n.Fin? <==> ScanDecimal(Trim(s)).Some? && ScanDecimal(Trim(s)).value.1 == |Trim(s)|)
  {
    var t := Trim(s);
    if t == [] then Fin(0.0)
    else
      NoLeadingSpace(t);
      match ScanDecimal(t)
      case Some(p) => if p.1 == |t| then Fin(p.0) else NaN
      case None => NaN
  }

  /** Leading whitespace does not change what `parseFloat` reads. */
  lemma ParseFloatSkipsSpace(ws: string, s: string)
    requires AllSpace(ws)
    ensures ParseFloat(ws + s) == ParseFloat(s)
  {
    TrimStartSkips(ws, s);
  }

  lemma {:induction false} TrimStartSkips(ws: string, s: string)
    requires AllSpace(ws)
    ensures TrimStart(ws + s) == TrimStart(s)
  {
    SkipThroughSpaces(ws, s, 0);
    var n := LeadingSpaces(s);
    assert (ws + s)[|ws| + n..] == s[n..];
  }

  /** Inside `ws` the scan runs on into `s`. */
  lemma {:induction false} SkipThroughSpaces(ws: string, s: string, i: nat)
    requires AllSpace(ws) && i <= |ws|
    ensures SkipSpaces(ws + s, i) == |ws| + SkipSpaces(s, 0)
    decreases |ws| - i
  {
    if i < |ws| {
      assert (ws + s)[i] == ws[i];
      SkipThroughSpaces(ws, s, i + 1);
    } else {
      SkipInSuffix(ws, s, 0);
    }
  }

  /** Past `ws` the scan is the scan of `s`, shifted. */
  lemma {:induction false} SkipInSuffix(ws: string, s: string, m: nat)
    requires m <= |s|
    ensures SkipSpaces(ws + s, |ws| + m) == |ws| + SkipSpaces(s, m)
    decreases |s| - m
  {
    if m < |s| {
      assert (ws + s)[|ws| + m] == s[m];
      SkipInSuffix(ws, s, m + 1);
    }
  }

  /** A canonical decimal rendering of a natural number reads back as that number, both through
      `parseFloat` and through `Number(...)`. */
  lemma {:induction false} ParseDecimalString(n: nat)
    ensures ParseFloat(DecimalString(n)) == Fin(n as real)
    ensures StringToNumber(DecimalString(n)) == Fin(n as real)
  {
    var s := DecimalString(n);
    NoLeadingSpace(s);
    TrimOfTrimmed(s);
    ScanDigits(s);
  }

  /** A string starting with a non-space character is its own `trimStart`. */
  lemma {:induction false} NoLeadingSpace(s: string)
    requires s != [] && !IsSpace(s[0])
    ensures TrimStart(s) == s
  {
    assert LeadingSpaces(s) == 0;
    assert s[0..] == s;
  }

  /** A non-empty digit string is read whole as one literal. */
  lemma {:induction false} ScanDigits(s: string)
    requires s != [] && AllDigits(s)
    ensures ScanDecimal(s) == Some((DigitsValue(s) as real, |s|))
  {
    DigitRunTo(s, 0, |s|);
    assert FractionEnd(s) == |s|;
    assert s[0..|s|] == s;
    ScanWithoutExponent(s);
  }

  /** The digit run from `i` ends at the first non-digit `j`. */
  lemma {:induction false} DigitRunTo(s: string, i: nat, j: nat)
    requires i <= j <= |s| && (j == |s| || !IsDigit(s[j]))
    requires forall k :: i <= k < j ==> IsDigit(s[k])
    ensures DigitRun(s, i) == j
    decreases j - i
  {
    if i < j { DigitRunTo(s, i + 1, j); }
  }

  /** An unsigned literal with no exponent part is read as its mantissa. */
  lemma {:induction false} ScanWithoutExponent(s: string)
    requires StartsWithLiteral(s) && SignLength(s) == 0
    requires FractionEnd(s) == |s| || (s[FractionEnd(s)] != 'e' && s[FractionEnd(s)] != 'E')
    ensures ScanDecimal(s) == Some((Mantissa(s), FractionEnd(s)))
  {
    assert ScanExponent(s, FractionEnd(s)) == (0, FractionEnd(s));
    assert Scale(0) == 1.0;
  }

  /** The value of a two-digit string. */
  lemma {:induction false} TwoDigitValue(a: char, b: char)
    requires IsDigit(a) && IsDigit(b)
    ensures DigitsValue([a, b]) == 10 * DigitValue(a) + DigitValue(b)
  {
    assert [a][..0] == [];
    assert DigitsValue([a]) == DigitValue(a);
    assert [a, b][..1] == [a];
  }

  /** Blank and non-numeric text has no value; "0" is zero. */
  lemma ParseFloatBlank()
    ensures ParseFloat("0") == Fin(0.0)
    ensures ParseFloat("") == NaN
    ensures ParseFloat("abc") == NaN
  {
    ParseFloatZero();
    ParseFloatEmpty();
    ParseFloatLetters();
  }

  lemma ParseFloatZero()
    ensures ParseFloat("0") == Fin(0.0)
  {
    assert DecimalString(0) == "0";
    ParseDecimalString(0);
  }

  lemma ParseFloatEmpty()
    ensures ParseFloat("") == NaN
  {
    assert TrimStart("") == "";
  }

  lemma ParseFloatLetters()
    ensures ParseFloat("abc") == NaN
  {
    NoLeadingSpace("abc");
    assert !StartsWithLiteral("abc");
  }

  /** An amount field read the way every form in the app reads it: `parseFloat(text || '0')`, with
      NaN replaced by 0 (`isNaN(x) ? 0 : x` and `x || 0` agree here). Blank text is 0. */
  function ParseAmount(text: string): (a: real)
    ensures text == "" ==> a == 0.0
    ensures text != "" && ParseFloat(text).Fin? ==> a == ParseFloat(text).r
    ensures text != "" && ParseFloat(text).NaN? ==> a == 0.0
  {
    ParseFloatBlank();
    OrZero(ParseFloat(if text == "" then "0" else text))
  }

  /** `parseFloat` reads a point-separated fraction. */
  lemma {:induction false} ParseFloatFraction()
    ensures ParseFloat("12.50") == Fin(12.5)
  {
    var s := "12.50";
    NoLeadingSpace(s);
    DigitRunTo(s, 0, 2);
    DigitRunTo(s, 3, 5);
    assert Mantissa(s) == 12.5 by {
      assert s[0..2] == ['1', '2'] && s[3..5] == ['5', '0'];
      TwoDigitValue('1', '2');
      TwoDigitValue('5', '0');
      assert Pow10(2) == 100;
    }
    ScanWithoutExponent(s);
  }

  /** A comma is not a decimal separator: `parseFloat` stops before it and `Number` rejects it. */
  lemma {:induction false} CommaIsNotADecimalSeparator()
    ensures ParseFloat("12,50") == Fin(12.0)
    ensures StringToNumber("12,50") == NaN
  {
    var s := "12,50";
    NoLeadingSpace(s);
    TrimOfTrimmed(s);
    DigitRunTo(s, 0, 2);
    assert Mantissa(s) == 12.0 by {
      assert s[0..2] == ['1', '2'];
      TwoDigitValue('1', '2');
    }
    ScanWithoutExponent(s);
  }
}
