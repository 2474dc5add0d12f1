/**
 * The global `parseFloat` of ECMA-262 (section 19.2.4 of the 2023 edition,
 * with the StrDecimalLiteral grammar of section 7.1.4.1), computed over exact
 * rationals: leading StrWhiteSpaceChar code points are skipped, then the
 * longest prefix that is a StrDecimalLiteral is read, and NaN is the answer
 * when no prefix is one.
 */
module JsNumbers {
  import opened Strings

  /** A JS number as this model needs it: NaN, a signed infinity or an exact finite value. */
  datatype NumberValue = NaN | Infinity(negative: bool) | Finite(value: real)

  /** StrWhiteSpaceChar: the WhiteSpace and LineTerminator code points. */
  predicate IsStrWhiteSpace(c: char) {
    c == '\t' || c == '\U{B}' || c == '\U{C}' || c == ' ' || c == '\U{A0}' || c == '\U{FEFF}'
    || c == '\n' || c == '\r' || c == '\U{2028}' || c == '\U{2029}'
    || c == '\U{1680}' || ('\U{2000}' <= c <= '\U{200A}') || c == '\U{202F}' || c == '\U{205F}'
    || c == '\U{3000}'
  }

  /** `s` with its leading StrWhiteSpaceChar code points removed. */
  function TrimStart(s: string): (r: string)
    ensures |r| <= |s| && r == s[|s| - |r|..]
    ensures |r| == 0 || !IsStrWhiteSpace(r[0])
  {
    if |s| > 0 && IsStrWhiteSpace(s[0]) then TrimStart(s[1..]) else s
  }

  /** What `TrimStart` removes is white space only. */
  lemma {:induction false} TrimStartRemovesWhiteSpace(s: string)
    ensures forall i :: 0 <= i < |s| - |TrimStart(s)| ==> IsStrWhiteSpace(s[i])
  {
    if |s| > 0 && IsStrWhiteSpace(s[0]) {
      TrimStartRemovesWhiteSpace(s[1..]);
      forall i | 1 <= i < |s| - |TrimStart(s)|
        ensures IsStrWhiteSpace(s[i])
      {
        assert s[i] == s[1..][i - 1];
      }
    }
  }

  /** The characters a numeral can start with are not white space. */
  lemma NumeralCharNotWhiteSpace(c: char)
    requires IsDigit(c) || c == '.' || c == ',' || c == '-' || c == '+'
    ensures !IsStrWhiteSpace(c)
  {
  }

  /** Text that does not start with white space is not trimmed. */
  lemma NothingToTrim(s: string)
    requires |s| == 0 || !IsStrWhiteSpace(s[0])
    ensures TrimStart(s) == s
  {
  }

  /** The length of the run of decimal digits that `s` starts with. */
  function LeadingDigits(s: string): (n: nat)
    ensures n <= |s| && AllDigits(s[..n])
    ensures n == |s| || !IsDigit(s[n])
  {
    if |s| > 0 && IsDigit(s[0]) then
      var n := 1 + LeadingDigits(s[1..]);
      assert s[..n] == [s[0]] + s[1..][..n - 1];
      n
    else 0
  }

  /** The value of the numeral `i.f`. */
  function DecimalValue(i: string, f: string): (r: real)
    requires AllDigits(i) && AllDigits(f)
    ensures r >= 0.0
  {
    var whole := DigitsValue(i) as real;
    var fraction := DigitsValue(f) as real / Pow10(|f|) as real;
    assert fraction >= 0.0;
    whole + fraction
  }

  /** The factor `10^e`. */
  function Scale(e: int): (r: real)
    ensures r > 0.0
  {
    if e >= 0 then Pow10(e) as real else 1.0 / Pow10(-e) as real
  }

  /**
   * The exponent of the ExponentPart that `t` starts with, or 0 when `t` does
   * not start with one (an `e` with no digits after it is not part of the numeral).
   */
  function Exponent(t: string): int {
    if |t| > 0 && (t[0] == 'e' || t[0] == 'E') then
      var start := if |t| > 1 && (t[1] == '-' || t[1] == '+') then 2 else 1;
      var n := LeadingDigits(t[start..]);
      var magnitude: int := DigitsValue(t[start..][..n]);
      if start == 2 && t[1] == '-' then -magnitude else magnitude
    else 0
  }

  /** `t` starts with a digit, or with a period followed by a digit. */
  predicate StartsDecimal(t: string) {
    (|t| > 0 && IsDigit(t[0])) || (|t| > 1 && t[0] == '.' && IsDigit(t[1]))
  }

  /** `t` starts with a StrUnsignedDecimalLiteral. */
  predicate StartsNumeral(t: string) {
    StartsWith(t, "Infinity") || StartsDecimal(t)
  }

  /** A nonnegative mantissa scaled by a power of ten: `mantissa × 10^e`. */
  function Scaled(mantissa: real, e: int): (r: real)
    requires mantissa >= 0.0
    ensures r >= 0.0
  {
    var scale := Scale(e);
    assert mantissa * scale >= 0.0;
    mantissa * scale
  }

  /**
   * The longest prefix of `t` of the forms `digits`, `digits.digits?` or
   * `.digits`, each with an optional exponent, evaluated.
   */
  function ParseDecimal(t: string): (r: NumberValue)
    ensures r.NaN? <==> !StartsDecimal(t)
    ensures !r.Infinity?
    ensures r.Finite? ==> r.value >= 0.0
  {
    var n := LeadingDigits(t);
    assert n > 0 <==> |t| > 0 && IsDigit(t[0]) by {
      if n > 0 {
        assert t[0] == t[..n][0];
      }
    }
    var rest := t[n..];
    if |rest| > 0 && rest[0] == '.' then
      var m := LeadingDigits(rest[1..]);
      assert m > 0 <==> |rest| > 1 && IsDigit(rest[1]) by {
        if m > 0 {
          assert rest[1] == rest[1..][..m][0];
        }
      }
      if n == 0 && m == 0 then NaN
      else Finite(Scaled(DecimalValue(t[..n], rest[1..][..m]), Exponent(rest[1..][m..])))
    else if n == 0 then NaN
    else Finite(Scaled(DigitsValue(t[..n]) as real, Exponent(rest)))
  }

  /** The longest StrUnsignedDecimalLiteral prefix of `t`, evaluated. */
  function ParseUnsigned(t: string): (r: NumberValue)
    ensures r.NaN? <==> !StartsNumeral(t)
    ensures r.Infinity? ==> !r.negative
    ensures r.Finite? ==> r.value >= 0.0
  {
    if StartsWith(t, "Infinity") then Infinity(false) else ParseDecimal(t)
  }

  function Negate(v: NumberValue): NumberValue {
    match v
    case NaN => NaN
    case Infinity(negative) => Infinity(!negative)
    case Finite(x) => Finite(-x)
  }

  /** The text after an optional leading sign. */
  function Unsigned(t: string): string {
    if |t| > 0 && (t[0] == '-' || t[0] == '+') then t[1..] else t
  }

  /** `parseFloat(s)`. */
  function ParseFloat(s: string): (r: NumberValue)
    ensures r.NaN? <==> !StartsNumeral(Unsigned(TrimStart(s)))
  {
    var t := TrimStart(s);
    if |t| > 0 && t[0] == '-' then Negate(ParseUnsigned(t[1..]))
    else if |t| > 0 && t[0] == '+' then ParseUnsigned(t[1..])
    else ParseUnsigned(t)
  }

  /** A maximal digit run is the one `LeadingDigits` measures. */
  lemma {:induction false} LeadingDigitsUnique(s: string, k: nat)
    requires k <= |s| && AllDigits(s[..k])
    requires k == |s| || !IsDigit(s[k])
    ensures LeadingDigits(s) == k
  {
    if k > 0 {
      assert s[0] == s[..k][0];
      assert s[1..][..k - 1] == s[1..k];
      LeadingDigitsUnique(s[1..], k - 1);
    }
  }

  /** The digit run at the front of `i + tail`, when `tail` does not continue it. */
  lemma {:induction false} LeadingDigitsOfAppend(i: string, tail: string)
    requires AllDigits(i)
    requires |tail| == 0 || !IsDigit(tail[0])
    ensures LeadingDigits(i + tail) == |i|
    ensures (i + tail)[..|i|] == i && (i + tail)[|i|..] == tail
  {
    var s := i + tail;
    assert s[..|i|] == i;
    LeadingDigitsUnique(s, |i|);
  }

  /** Text that starts with a digit or a period is read without trimming or sign. */
  lemma {:induction false} ParseFloatOfDecimalStart(s: string)
    requires |s| > 0 && (IsDigit(s[0]) || s[0] == '.')
    ensures ParseFloat(s) == ParseDecimal(s)
  {
    NumeralCharNotWhiteSpace(s[0]);
    NothingToTrim(s);
    assert !StartsWith(s, "Infinity") by {
      assert s[0] != "Infinity"[0];
    }
    assert Unsigned(s) == s;
  }

  lemma {:induction false} ParseDecimalInteger(i: string, tail: string)
    requires |i| > 0 && AllDigits(i)
    requires |tail| == 0 || (!IsDigit(tail[0]) && tail[0] != '.' && tail[0] != 'e' && tail[0] != 'E')
    ensures ParseDecimal(i + tail) == Finite(DigitsValue(i) as real)
  {
    var t := i + tail;
    LeadingDigitsOfAppend(i, tail);
    assert LeadingDigits(t) == |i|;
    assert t[|i|..] == tail;
    assert t[..|i|] == i;
    assert Exponent(tail) == 0;
    assert Scale(0) == 1.0;
    assert Scaled(DigitsValue(i) as real, 0) == DigitsValue(i) as real;
  }

  /** A string of digits followed by a non-numeric tail reads as that integer. */
  lemma {:induction false} ParseFloatInteger(i: string, tail: string)
    requires |i| > 0 && AllDigits(i)
    requires |tail| == 0 || (!IsDigit(tail[0]) && tail[0] != '.' && tail[0] != 'e' && tail[0] != 'E')
    ensures ParseFloat(i + tail) == Finite(DigitsValue(i) as real)
  {
    assert (i + tail)[0] == i[0];
    ParseFloatOfDecimalStart(i + tail);
    ParseDecimalInteger(i, tail);
  }

  lemma {:induction false} ParseDecimalFraction(i: string, f: string, tail: string)
    requires AllDigits(i) && AllDigits(f)
    requires |tail| == 0 || (!IsDigit(tail[0]) && tail[0] != 'e' && tail[0] != 'E')
    ensures ParseDecimal(i + ("." + f + tail)) == if |i| + |f| == 0 then NaN else Finite(DecimalValue(i, f))
  {
    var rest := "." + f + tail;
    var t := i + rest;
    LeadingDigitsOfAppend(i, rest);
    assert rest[1..] == f + tail;
    LeadingDigitsOfAppend(f, tail);
    assert Exponent(tail) == 0;
    if |i| + |f| > 0 {
      UnscaledValue(DecimalValue(i, f));
      assert ParseDecimal(t) == Finite(Scaled(DecimalValue(i, f), Exponent(tail)));
    } else {
      assert ParseDecimal(t) == NaN;
    }
  }

  lemma UnscaledValue(x: real)
    requires x >= 0.0
    ensures Scaled(x, 0) == x
  {
  }

  /**
   * The numeral `i.f` followed by a tail that does not continue it reads as
   * `DecimalValue(i, f)`, and as NaN when it has no digits at all.
   */
  lemma {:induction false} ParseFloatDecimal(i: string, f: string, tail: string)
    requires AllDigits(i) && AllDigits(f)
    requires |tail| == 0 || (!IsDigit(tail[0]) && tail[0] != 'e' && tail[0] != 'E')
    ensures ParseFloat(i + "." + f + tail) == if |i| + |f| == 0 then NaN else Finite(DecimalValue(i, f))
  {
    var s := i + ("." + f + tail);
    assert i + "." + f + tail == s;
    assert s[0] == (if |i| > 0 then i[0] else '.');
    ParseFloatOfDecimalStart(s);
    ParseDecimalFraction(i, f, tail);
  }

  lemma {:induction false} ParseDecimalExponent(i: string, k: string)
    requires |i| > 0 && AllDigits(i)
    requires |k| > 0 && AllDigits(k)
    ensures ParseDecimal(i + ("e" + k)) == Finite(Scaled(DigitsValue(i) as real, DigitsValue(k)))
  {
    var rest := "e" + k;
    var t := i + rest;
    LeadingDigitsOfAppend(i, rest);
    assert t[|i|..] == rest && t[..|i|] == i;
    ExponentOfDigits(k);
    assert rest[0] != '.';
    assert ParseDecimal(t) == Finite(Scaled(DigitsValue(i) as real, DigitsValue(k)));
  }

  lemma {:induction false} ExponentOfDigits(k: string)
    requires |k| > 0 && AllDigits(k)
    ensures Exponent("e" + k) == DigitsValue(k)
  {
    var rest := "e" + k;
    assert rest[1] == k[0];
    assert rest[1..] == k;
    LeadingDigitsUnique(k, |k|);
    assert k[..|k|] == k;
  }

  /** A digit string with an exponent, `i` followed by `e` and the digits `k`, reads as `i × 10^k`. */
  lemma {:induction false} ParseFloatExponent(i: string, k: string)
    requires |i| > 0 && AllDigits(i)
    requires |k| > 0 && AllDigits(k)
    ensures ParseFloat(i + "e" + k) == Finite(Scaled(DigitsValue(i) as real, DigitsValue(k)))
  {
    var s := i + ("e" + k);
    assert i + "e" + k == s;
    assert s[0] == i[0];
    ParseFloatOfDecimalStart(s);
    ParseDecimalExponent(i, k);
  }

  lemma TrimStartOfWhiteSpace(ws: string, s: string)
    requires forall i :: 0 <= i < |ws| ==> IsStrWhiteSpace(ws[i])
    ensures TrimStart(ws + s) == TrimStart(s)
  {
    var x := ws + s;
    assert forall i :: 0 <= i < |ws| ==> IsStrWhiteSpace(x[i]) by {
      forall i | 0 <= i < |ws|
        ensures IsStrWhiteSpace(x[i])
      {
        assert x[i] == ws[i];
      }
    }
    TrimStartSkips(x, |ws|);
    assert x[|ws|..] == s;
  }

  /** Trimming skips any run of white space at the front of `x`. */
  lemma {:induction false} TrimStartSkips(x: string, k: nat)
    requires k <= |x|
    requires forall i :: 0 <= i < k ==> IsStrWhiteSpace(x[i])
    ensures TrimStart(x) == TrimStart(x[k..])
  {
    if k > 0 {
      TrimStartSkips(x, k - 1);
      TrimStartAt(x, k - 1);
    } else {
      assert x[0..] == x;
    }
  }

  /** White space in front is dropped one character at a time. */
  lemma TrimStartAt(x: string, j: nat)
    requires j < |x| && IsStrWhiteSpace(x[j])
    ensures TrimStart(x[j..]) == TrimStart(x[j + 1..])
  {
    var y := x[j..];
    assert y[0] == x[j];
    assert y[1..] == x[j + 1..];
  }

  /** Leading white space is ignored. */
  lemma {:induction false} ParseFloatLeadingWhiteSpace(ws: string, s: string)
    requires forall i :: 0 <= i < |ws| ==> IsStrWhiteSpace(ws[i])
    ensures ParseFloat(ws + s) == ParseFloat(s)
  {
    TrimStartOfWhiteSpace(ws, s);
  }

  /** A leading minus sign negates the value that follows it. */
  lemma {:induction false} ParseFloatMinus(s: string)
    requires |s| == 0 || (!IsStrWhiteSpace(s[0]) && s[0] != '-' && s[0] != '+')
    ensures ParseFloat("-" + s) == Negate(ParseFloat(s))
  {
    var t := "-" + s;
    NumeralCharNotWhiteSpace('-');
    NothingToTrim(t);
    assert t[1..] == s;
    NothingToTrim(s);
    assert ParseFloat(t) == Negate(ParseUnsigned(s));
  }

  predicate IsDigitOrSeparator(c: char) {
    IsDigit(c) || c == '.' || c == ','
  }

  /** Every code point of `s` is a decimal digit, a period or a comma. */
  predicate DigitsAndSeparators(s: string) {
    forall i :: 0 <= i < |s| ==> IsDigitOrSeparator(s[i])
  }

  /** Text that starts with a comma (or is empty) has no numeric prefix. */
  lemma {:induction false} ParseFloatOfCommaStart(s: string)
    requires |s| == 0 || s[0] == ','
    ensures ParseFloat(s).NaN?
  {
    if |s| > 0 {
      NumeralCharNotWhiteSpace(s[0]);
      NothingToTrim(s);
      assert Unsigned(s) == s;
      assert !StartsDecimal(s);
      assert !StartsWith(s, "Infinity") by {
        assert s[0] != "Infinity"[0];
      }
    }
  }

  /**
   * Text made only of digits, periods and commas never reads as negative or
   * infinite: at worst it is NaN. Only its first code point matters.
   */
  lemma {:induction false} ParseFloatOfPlainText(s: string)
    requires |s| == 0 || IsDigitOrSeparator(s[0])
    ensures ParseFloat(s).NaN? || (ParseFloat(s).Finite? && ParseFloat(s).value >= 0.0)
  {
    if |s| > 0 && s[0] != ',' {
      ParseFloatOfDecimalStart(s);
    } else {
      ParseFloatOfCommaStart(s);
    }
  }
}
