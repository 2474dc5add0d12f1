/**
 * The two `parseAmount` helpers that turn a stored `totalAmount` string into the
 * number the screens add up. Both strip everything but the characters of a
 * numeral and end in `parseFloat`; they differ in how they treat commas and
 * periods. A value that is not a string becomes 0, and so does text without a
 * numeric prefix.
 */
module Amounts {
  import opened Wrappers
  import opened Seqs
  import opened Strings
  import opened JsNumbers

  /** `isNaN(parsed) ? 0 : parsed`, for a parse that cannot be infinite. */
  function AmountOf(v: NumberValue): real
    requires !v.Infinity?
  {
    if v.NaN? then 0.0 else v.value
  }

  /** Reads `text`, whose first code point is a digit, a separator or absent, as an amount. */
  function ParsePlain(text: string): (r: real)
    requires |text| == 0 || IsDigitOrSeparator(text[0])
    ensures r >= 0.0
  {
    ParseFloatOfPlainText(text);
    AmountOf(ParseFloat(text))
  }

  /** No digit, period or comma: text the cleaning step deletes entirely. */
  predicate NoNumeralChars(s: string) {
    forall i :: 0 <= i < |s| ==> !IsDigitOrSeparator(s[i])
  }

  // ---------------------------------------------------------------------------
  // The Home screen's parseAmount
  // ---------------------------------------------------------------------------

  /** `s.replace(/[^\d.,]/g, '')`. */
  function HomeClean(s: string): (r: string)
    ensures DigitsAndSeparators(r)
  {
    Filter(s, IsDigitOrSeparator)
  }

  /**
   * The separator rewriting: with both separators, the later-starting kind is
   * the decimal point and the other kind is deleted (a decimal comma also
   * becomes a period); with only commas, the first comma becomes a period;
   * otherwise the text is left alone.
   */
  function HomeNormalize(c: string): string {
    if ',' in c && '.' in c then
      if IndexOf(c, ',') > IndexOf(c, '.') then ReplaceFirst(RemoveAll(c, '.'), ',', '.')
      else RemoveAll(c, ',')
    else if ',' in c then ReplaceFirst(c, ',', '.')
    else c
  }

  /** `parseAmount` of the Home screen; `None` stands for a value that is not a string. */
  function HomeParseAmount(v: Option<string>): (r: real)
    ensures r >= 0.0
    ensures v.None? ==> r == 0.0
  {
    match v
    case None => 0.0
    case Some(s) =>
      var c := HomeClean(s);
      HomeNormalizeFirst(c);
      ParsePlain(HomeNormalize(c))
  }

  lemma HomeNormalizeFirst(c: string)
    requires DigitsAndSeparators(c)
    ensures |HomeNormalize(c)| == 0 || IsDigitOrSeparator(HomeNormalize(c)[0])
  {
    var t := HomeNormalize(c);
    if ',' in c && '.' in c {
      RemoveAllKeeps(c, '.', IsDigitOrSeparator);
      RemoveAllKeeps(c, ',', IsDigitOrSeparator);
    }
  }

  // The reference reading of cleaned text.

  /** The separator other than `d`. */
  function OtherSeparator(d: char): char {
    if d == ',' then '.' else ','
  }

  lemma OnlyDigitsLeft(u: string)
    requires DigitsAndSeparators(u) && ',' !in u && '.' !in u
    ensures AllDigits(u)
  {
    forall i | 0 <= i < |u|
      ensures IsDigit(u[i])
    {
      assert u[i] in u;
    }
  }

  /**
   * The amount written in `u`, which holds digits and the separator `d` only:
   * the digits before the first `d` are the integer part and the digit run
   * right after it is the fraction.
   */
  function SeparatedValue(u: string, d: char): real
    requires DigitsAndSeparators(u)
    requires d == ',' || d == '.'
    requires OtherSeparator(d) !in u
  {
    var k := IndexOf(u, d);
    if k < 0 then
      OnlyDigitsLeft(u);
      DigitsValue(u) as real
    else
      var f := u[k + 1..];
      var n := LeadingDigits(f);
      OnlyDigitsLeft(u[..k]);
      DecimalValue(u[..k], f[..n])
  }

  /**
   * The amount the cleaned text `c` denotes when `d` is its decimal separator:
   * the other separator is a thousands separator and is ignored.
   */
  function ValueWithSeparator(c: string, d: char): real
    requires DigitsAndSeparators(c)
    requires d == ',' || d == '.'
  {
    var u := RemoveAll(c, OtherSeparator(d));
    RemoveAllKeeps(c, OtherSeparator(d), IsDigitOrSeparator);
    SeparatedValue(u, d)
  }

  /**
   * The decimal separator the Home screen assumes for cleaned text: a comma
   * exactly when there is a comma and either no period or the first period
   * precedes the first comma; a period otherwise.
   */
  function HomeDecimalSeparator(c: string): char {
    if ',' in c && ('.' !in c || IndexOf(c, '.') < IndexOf(c, ',')) then ',' else '.'
  }

  /** The digits of `f` up to its first separator, and what follows them. */
  lemma {:induction false} FractionRun(f: string)
    requires DigitsAndSeparators(f)
    ensures var n := LeadingDigits(f); f == f[..n] + f[n..]
    ensures var n := LeadingDigits(f); |f[n..]| == 0 || (!IsDigit(f[n..][0]) && f[n..][0] != 'e' && f[n..][0] != 'E')
  {
    var n := LeadingDigits(f);
    if n < |f| {
      assert f[n..][0] == f[n];
      assert IsDigitOrSeparator(f[n]);
    }
  }

  lemma {:induction false} DecimalTextFloat(i: string, f: string)
    requires AllDigits(i) && DigitsAndSeparators(f)
    ensures var run := f[..LeadingDigits(f)];
      ParseFloat(i + "." + f) == if |i| + |run| == 0 then NaN else Finite(DecimalValue(i, run))
  {
    var n := LeadingDigits(f);
    FractionRun(f);
    assert i + "." + f == i + "." + f[..n] + f[n..];
    ParseFloatDecimal(i, f[..n], f[n..]);
  }

  /** Reading a numeral split at its first separator into integer digits and the rest. */
  lemma {:induction false} AmountOfDecimalText(i: string, f: string)
    requires AllDigits(i) && DigitsAndSeparators(f)
    ensures |i + "." + f| > 0 && IsDigitOrSeparator((i + "." + f)[0])
    ensures ParsePlain(i + "." + f) == DecimalValue(i, f[..LeadingDigits(f)])
  {
    assert (i + "." + f)[0] == (if |i| > 0 then i[0] else '.');
    DecimalTextFloat(i, f);
  }

  lemma {:induction false} AmountOfDigitText(u: string)
    requires AllDigits(u)
    ensures ParsePlain(u) == DigitsValue(u) as real
  {
    if |u| > 0 {
      assert u + "" == u;
      ParseFloatInteger(u, "");
    } else {
      ParseFloatOfCommaStart(u);
    }
  }

  /** Turning the first `d` into a period and reading gives the separated value. */
  lemma {:induction false} ParseAtFirstSeparator(u: string, d: char)
    requires DigitsAndSeparators(u)
    requires d == ',' || d == '.'
    requires OtherSeparator(d) !in u
    requires d in u
    ensures var t := ReplaceFirst(u, d, '.'); (|t| == 0 || IsDigitOrSeparator(t[0])) && ParsePlain(t) == SeparatedValue(u, d)
  {
    var k := IndexOf(u, d);
    OnlyDigitsLeft(u[..k]);
    assert ReplaceFirst(u, d, '.') == u[..k] + "." + u[k + 1..];
    AmountOfDecimalText(u[..k], u[k + 1..]);
  }

  /** The Home screen reads cleaned text with the separator `HomeDecimalSeparator` picks. */
  lemma HomeParseAmountValue(s: string)
    ensures HomeParseAmount(Some(s)) == ValueWithSeparator(HomeClean(s), HomeDecimalSeparator(HomeClean(s)))
  {
    var c := HomeClean(s);
    if ',' in c && '.' in c {
      NormalizedBoth(c);
    } else {
      NormalizedOneKind(c);
    }
  }

  /** With both separators, the rewriting reads the later-starting kind as the decimal point. */
  lemma NormalizedBoth(c: string)
    requires DigitsAndSeparators(c) && ',' in c && '.' in c
    ensures |HomeNormalize(c)| == 0 || IsDigitOrSeparator(HomeNormalize(c)[0])
    ensures ParsePlain(HomeNormalize(c)) == ValueWithSeparator(c, HomeDecimalSeparator(c))
  {
    HomeNormalizeFirst(c);
    if IndexOf(c, ',') > IndexOf(c, '.') {
      NormalizedDecimalComma(c);
    } else {
      NormalizedDecimalPeriod(c);
    }
  }

  lemma NormalizedDecimalComma(c: string)
    requires DigitsAndSeparators(c) && ',' in c && '.' in c && IndexOf(c, ',') > IndexOf(c, '.')
    ensures HomeDecimalSeparator(c) == ','
    ensures var t := HomeNormalize(c); (|t| == 0 || IsDigitOrSeparator(t[0])) && ParsePlain(t) == ValueWithSeparator(c, ',')
  {
    var u := RemoveAll(c, '.');
    RemoveAllKeeps(c, '.', IsDigitOrSeparator);
    RemoveAllKeepsOther(c, '.', ',');
    assert HomeNormalize(c) == ReplaceFirst(u, ',', '.');
    ParseAtFirstSeparator(u, ',');
  }

  lemma NormalizedDecimalPeriod(c: string)
    requires DigitsAndSeparators(c) && ',' in c && '.' in c && IndexOf(c, ',') <= IndexOf(c, '.')
    ensures HomeDecimalSeparator(c) == '.'
    ensures var t := HomeNormalize(c); (|t| == 0 || IsDigitOrSeparator(t[0])) && ParsePlain(t) == ValueWithSeparator(c, '.')
  {
    var u := RemoveAll(c, ',');
    RemoveAllKeeps(c, ',', IsDigitOrSeparator);
    RemoveAllKeepsOther(c, ',', '.');
    ReplaceFirstSelf(u, '.');
    assert HomeNormalize(c) == u;
    ParseAtFirstSeparator(u, '.');
  }

  /** With at most one kind of separator, its first occurrence is the decimal point. */
  lemma NormalizedOneKind(c: string)
    requires DigitsAndSeparators(c) && !(',' in c && '.' in c)
    ensures |HomeNormalize(c)| == 0 || IsDigitOrSeparator(HomeNormalize(c)[0])
    ensures ParsePlain(HomeNormalize(c)) == ValueWithSeparator(c, HomeDecimalSeparator(c))
  {
    HomeNormalizeFirst(c);
    if ',' in c {
      NormalizedCommasOnly(c);
    } else if '.' in c {
      NormalizedPeriodsOnly(c);
    } else {
      NormalizedDigitsOnly(c);
    }
  }

  lemma NormalizedCommasOnly(c: string)
    requires DigitsAndSeparators(c) && ',' in c && '.' !in c
    ensures HomeDecimalSeparator(c) == ','
    ensures var t := HomeNormalize(c); (|t| == 0 || IsDigitOrSeparator(t[0])) && ParsePlain(t) == ValueWithSeparator(c, ',')
  {
    assert HomeNormalize(c) == ReplaceFirst(c, ',', '.');
    ParseAtFirstSeparator(c, ',');
    ValueWithoutOther(c, ',');
  }

  lemma NormalizedPeriodsOnly(c: string)
    requires DigitsAndSeparators(c) && '.' in c && ',' !in c
    ensures HomeDecimalSeparator(c) == '.'
    ensures var t := HomeNormalize(c); (|t| == 0 || IsDigitOrSeparator(t[0])) && ParsePlain(t) == ValueWithSeparator(c, '.')
  {
    ReplaceFirstSelf(c, '.');
    assert HomeNormalize(c) == c;
    ParseAtFirstSeparator(c, '.');
    ValueWithoutOther(c, '.');
  }

  lemma NormalizedDigitsOnly(c: string)
    requires DigitsAndSeparators(c) && '.' !in c && ',' !in c
    ensures HomeDecimalSeparator(c) == '.'
    ensures var t := HomeNormalize(c); (|t| == 0 || IsDigitOrSeparator(t[0])) && ParsePlain(t) == ValueWithSeparator(c, '.')
  {
    assert HomeNormalize(c) == c;
    OnlyDigitsLeft(c);
    AmountOfDigitText(c);
    ValueWithoutOther(c, '.');
  }

  /** Text without the other separator has nothing for `ValueWithSeparator` to delete. */
  lemma ValueWithoutOther(c: string, d: char)
    requires DigitsAndSeparators(c) && (d == ',' || d == '.') && OtherSeparator(d) !in c
    ensures ValueWithSeparator(c, d) == SeparatedValue(c, d)
  {
    RemoveAllAbsent(c, OtherSeparator(d));
  }

  // ---------------------------------------------------------------------------
  // The Report screen's parseAmount
  // ---------------------------------------------------------------------------

  predicate IsDigitOrPeriod(c: char) {
    IsDigit(c) || c == '.'
  }

  /** `s.replace(/[^0-9.]/g, '')`. */
  function ReportClean(s: string): (r: string)
    ensures DigitsAndPeriods(r)
  {
    Filter(s, IsDigitOrPeriod)
  }

  /** With more than one period, every period but the last is deleted. */
  function ReportNormalize(c: string): string {
    var parts := Split(c, '.');
    if |parts| > 2 then Concat(parts[..|parts| - 1]) + "." + parts[|parts| - 1] else c
  }

  /** `parseAmount` of the Report screen; `None` stands for a value that is not a string. */
  function ReportParseAmount(v: Option<string>): (r: real)
    ensures r >= 0.0
    ensures v.None? ==> r == 0.0
  {
    match v
    case None => 0.0
    case Some(s) =>
      var c := ReportClean(s);
      ReportNormalizeReads(c);
      ParsePlain(ReportNormalize(c))
  }

  /** All of `u` is digits and periods. */
  predicate DigitsAndPeriods(u: string) {
    forall i :: 0 <= i < |u| ==> IsDigitOrPeriod(u[i])
  }

  lemma DigitsOnly(u: string)
    requires DigitsAndPeriods(u) && '.' !in u
    ensures AllDigits(u)
  {
    forall i | 0 <= i < |u|
      ensures IsDigit(u[i])
    {
      assert u[i] in u;
    }
  }

  lemma PeriodsDropped(u: string)
    requires DigitsAndPeriods(u)
    ensures AllDigits(RemoveAll(u, '.'))
  {
    forall i | 0 <= i < |u|
      ensures u[i] == '.' || IsDigit(u[i])
    {
      assert IsDigitOrPeriod(u[i]);
    }
    RemoveAllKeeps(u, '.', IsDigit);
  }

  /**
   * The reference reading of text made of digits and periods: the last period
   * is the decimal point and the earlier ones are ignored.
   */
  function ReportValue(c: string): real
    requires DigitsAndPeriods(c)
  {
    var last := LastIndexOf(c, '.');
    if last < 0 then
      DigitsOnly(c);
      DigitsValue(c) as real
    else
      assert DigitsAndPeriods(c[..last]);
      assert DigitsAndPeriods(c[last + 1..]);
      PeriodsDropped(c[..last]);
      DigitsOnly(c[last + 1..]);
      DecimalValue(RemoveAll(c[..last], '.'), c[last + 1..])
  }

  /** With a period present, normalizing keeps only the last period. */
  lemma ReportNormalizeText(c: string)
    requires '.' in c
    ensures var last := LastIndexOf(c, '.');
      ReportNormalize(c) == RemoveAll(c[..last], '.') + "." + c[last + 1..]
  {
    var last := LastIndexOf(c, '.');
    SplitAtLastIndex(c, '.');
    if |Split(c, '.')| > 2 {
      ConcatSplit(c[..last], '.');
    } else {
      OnePeriodKept(c);
    }
  }

  /** With a single period the text is left as it is. */
  lemma OnePeriodKept(c: string)
    requires '.' in c && |Split(c, '.')| <= 2
    ensures var last := LastIndexOf(c, '.');
      ReportNormalize(c) == c == RemoveAll(c[..last], '.') + "." + c[last + 1..]
  {
    var last := LastIndexOf(c, '.');
    var head := c[..last];
    SplitAtLastIndex(c, '.');
    SplitLength(head, '.');
    if '.' in head {
      CountPresent(head, '.');
    }
    RemoveAllAbsent(head, '.');
    AroundIndex(c, last);
  }

  /** The Report screen reads cleaned text as `ReportValue` does. */
  lemma ReportNormalizeReads(c: string)
    requires DigitsAndPeriods(c)
    ensures |ReportNormalize(c)| == 0 || IsDigitOrSeparator(ReportNormalize(c)[0])
    ensures ParsePlain(ReportNormalize(c)) == ReportValue(c)
  {
    if '.' in c {
      ReadsAtLastPeriod(c);
    } else {
      ReadsWithoutPeriod(c);
    }
  }

  lemma ReadsWithoutPeriod(c: string)
    requires DigitsAndPeriods(c) && '.' !in c
    ensures ReportNormalize(c) == c && AllDigits(c)
    ensures ParsePlain(c) == ReportValue(c)
  {
    assert Split(c, '.') == [c];
    DigitsOnly(c);
    AmountOfDigitText(c);
  }

  lemma ReadsAtLastPeriod(c: string)
    requires DigitsAndPeriods(c) && '.' in c
    ensures |ReportNormalize(c)| == 0 || IsDigitOrSeparator(ReportNormalize(c)[0])
    ensures ParsePlain(ReportNormalize(c)) == ReportValue(c)
  {
    var last := LastIndexOf(c, '.');
    var i, f := RemoveAll(c[..last], '.'), c[last + 1..];
    AroundLastPeriod(c);
    ReportNormalizeText(c);
    AmountOfDecimalText(i, f);
  }

  /** Around the last period: the integer digits once the other periods go, and the fraction digits. */
  lemma AroundLastPeriod(c: string)
    requires DigitsAndPeriods(c) && '.' in c
    ensures var last := LastIndexOf(c, '.'); var i, f := RemoveAll(c[..last], '.'), c[last + 1..];
      && AllDigits(i) && DigitsAndSeparators(f) && f[..LeadingDigits(f)] == f
      && ReportValue(c) == DecimalValue(i, f)
  {
    var last := LastIndexOf(c, '.');
    FractionAfterLast(c);
    assert DigitsAndPeriods(c[..last]);
    PeriodsDropped(c[..last]);
  }

  /** The digits after the last period form one run. */
  lemma FractionAfterLast(c: string)
    requires DigitsAndPeriods(c) && '.' in c
    ensures var f := c[LastIndexOf(c, '.') + 1..];
      AllDigits(f) && DigitsAndSeparators(f) && f[..LeadingDigits(f)] == f
  {
    var last := LastIndexOf(c, '.');
    var f := c[last + 1..];
    SuffixDigitsAndPeriods(c, last + 1);
    DigitsOnly(f);
    LeadingDigitsUnique(f, |f|);
    assert f[..|f|] == f;
  }

  lemma SuffixDigitsAndPeriods(c: string, j: int)
    requires DigitsAndPeriods(c) && 0 <= j <= |c|
    ensures DigitsAndPeriods(c[j..])
  {
    forall k | 0 <= k < |c| - j
      ensures IsDigitOrPeriod(c[j..][k])
    {
      assert c[j..][k] == c[j + k];
    }
  }

  // ---------------------------------------------------------------------------
  // Numerals with thousands separators
  // ---------------------------------------------------------------------------

  /** Digit groups such as ["1", "234", "567"]. */
  predicate DigitGroups(groups: seq<string>) {
    |groups| > 0 && forall i :: 0 <= i < |groups| ==> AllDigits(groups[i])
  }

  predicate IsSeparator(c: char) {
    c == ',' || c == '.'
  }

  /** The groups joined by the thousands separator `o`, then `d` and the fraction `f`. */
  function Grouped(groups: seq<string>, o: char, d: char, f: string): string {
    Join(groups, [o]) + [d] + f
  }

  lemma DigitsExclude(u: string, c: char)
    requires AllDigits(u) && !IsDigit(c)
    ensures c !in u
  {
    forall k | 0 <= k < |u|
      ensures u[k] != c
    {
      assert IsDigit(u[k]);
    }
  }

  lemma GroupsExclude(groups: seq<string>, c: char)
    requires DigitGroups(groups) && !IsDigit(c)
    ensures forall i :: 0 <= i < |groups| ==> c !in groups[i]
  {
    forall i | 0 <= i < |groups|
      ensures c !in groups[i]
    {
      DigitsExclude(groups[i], c);
    }
  }

  /** A joined numeral holds only digits and separators; `d` first appears after the groups. */
  lemma {:induction false} GroupedChars(groups: seq<string>, o: char, d: char, f: string)
    requires DigitGroups(groups) && AllDigits(f)
    requires IsSeparator(o) && IsSeparator(d) && o != d
    ensures DigitsAndSeparators(Grouped(groups, o, d, f))
    ensures IndexOf(Grouped(groups, o, d, f), d) == |Join(groups, [o])|
    ensures RemoveAll(Grouped(groups, o, d, f), o) == Concat(groups) + [d] + f
  {
    var j := Join(groups, [o]);
    var s := Grouped(groups, o, d, f);
    JoinDigitsOrSeparator(groups, o);
    forall i | 0 <= i < |s|
      ensures IsDigitOrSeparator(s[i])
    {
      if i < |j| {
        assert s[i] == j[i];
      } else if i > |j| {
        assert s[i] == f[i - |j| - 1];
      }
    }
    JoinWithoutOther(groups, o, d);
    assert s[..|j|] == j;
    IndexOfAt(s, d, |j|);
    GroupsExclude(groups, o);
    RemoveSeparatorOfJoin(groups, o);
    DigitsExclude(f, o);
    RemoveAllAppend(j + [d], f, o);
    RemoveAllAppend(j, [d], o);
    RemoveAllAbsent([d], o);
    RemoveAllAbsent(f, o);
  }

  /** A period-first or comma-first grouped numeral makes the Home screen pick `d`. */
  lemma {:induction false} HomeSeparatorOfGrouped(groups: seq<string>, o: char, d: char, f: string)
    requires DigitGroups(groups) && AllDigits(f)
    requires IsSeparator(o) && IsSeparator(d) && o != d
    ensures HomeDecimalSeparator(Grouped(groups, o, d, f)) == d
  {
    var j := Join(groups, [o]);
    var s := Grouped(groups, o, d, f);
    GroupedChars(groups, o, d, f);
    assert s[|j|] == d;
    if o in s {
      var k := IndexOf(s, o);
      assert k < |j| by {
        forall i | |j| < i < |s|
          ensures s[i] != o
        {
          assert s[i] == f[i - |j| - 1];
        }
      }
    }
  }

  /** Digits, `d`, digits: the separated value is the decimal value. */
  lemma {:induction false} SeparatedValueOfDecimal(i: string, d: char, f: string)
    requires AllDigits(i) && AllDigits(f) && IsSeparator(d)
    ensures DigitsAndSeparators(i + [d] + f) && OtherSeparator(d) !in i + [d] + f
    ensures SeparatedValue(i + [d] + f, d) == DecimalValue(i, f)
  {
    var u := i + [d] + f;
    DigitsExclude(i, d);
    assert u[..|i|] == i;
    IndexOfAt(u, d, |i|);
    assert u[|i| + 1..] == f;
    LeadingDigitsUnique(f, |f|);
    assert f[..|f|] == f;
    forall k | 0 <= k < |u|
      ensures IsDigitOrSeparator(u[k]) && u[k] != OtherSeparator(d)
    {
      if k < |i| {
        assert u[k] == i[k];
      } else if k > |i| {
        assert u[k] == f[k - |i| - 1];
      }
    }
  }

  /**
   * The Home screen reads a grouped numeral in either convention as its value:
   * "1,234.50" and "1.234,50" both read as 1234.5.
   */
  lemma {:induction false} HomeReadsGroupedNumeral(groups: seq<string>, o: char, d: char, f: string)
    requires DigitGroups(groups) && AllDigits(f)
    requires IsSeparator(o) && IsSeparator(d) && o != d
    ensures AllDigits(Concat(groups))
    ensures HomeParseAmount(Some(Grouped(groups, o, d, f))) == DecimalValue(Concat(groups), f)
  {
    var s := Grouped(groups, o, d, f);
    GroupedChars(groups, o, d, f);
    FilterAll(s, IsDigitOrSeparator);
    HomeSeparatorOfGrouped(groups, o, d, f);
    HomeParseAmountValue(s);
    ConcatDigits(groups);
    SeparatedValueOfDecimal(Concat(groups), d, f);
  }

  /** Digit groups joined by one separator hold digits and that separator only. */
  lemma {:induction false} JoinedGroupsChars(groups: seq<string>, o: char)
    requires DigitGroups(groups) && IsSeparator(o)
    ensures DigitsAndSeparators(Join(groups, [o]))
    ensures OtherSeparator(o) !in Join(groups, [o])
  {
    var c := Join(groups, [o]);
    JoinDigitsOrSeparator(groups, o);
    forall i | 0 <= i < |c|
      ensures IsDigitOrSeparator(c[i])
    {
    }
    JoinWithoutOther(groups, o, OtherSeparator(o));
  }

  /** In "g0,g1,...", the first comma ends `g0` and the digit run after it is `g1`. */
  lemma {:induction false} SecondGroupRun(groups: seq<string>)
    requires DigitGroups(groups) && |groups| >= 2
    ensures var c := Join(groups, [',']); var k := |groups[0]|;
      && IndexOf(c, ',') == k
      && c[..k] == groups[0]
      && LeadingDigits(c[k + 1..]) == |groups[1]|
      && c[k + 1..][..|groups[1]|] == groups[1]
  {
    var c := Join(groups, [',']);
    var k := |groups[0]|;
    var rest := Join(groups[1..], [',']);
    JoinFront(groups, [',']);
    DigitsExclude(groups[0], ',');
    assert c[..k] == groups[0];
    IndexOfAt(c, ',', k);
    assert c[k + 1..] == rest;
    var g1 := groups[1];
    var tail := if |groups| == 2 then "" else "," + Join(groups[2..], [',']);
    if |groups| > 2 {
      JoinFront(groups[1..], [',']);
      assert groups[1..][1..] == groups[2..];
    }
    assert rest == g1 + tail;
    LeadingDigitsOfAppend(g1, tail);
  }

  /**
   * Commas alone are read as a decimal comma followed by the next group only:
   * "100,000" reads as 100 and "1,234,567" as 1.234.
   */
  lemma {:induction false} HomeReadsCommaGroups(groups: seq<string>)
    requires DigitGroups(groups) && |groups| >= 2
    ensures HomeParseAmount(Some(Join(groups, [',']))) == DecimalValue(groups[0], groups[1])
  {
    var c := Join(groups, [',']);
    JoinedGroupsChars(groups, ',');
    FilterAll(c, IsDigitOrSeparator);
    HomeParseAmountValue(c);
    RemoveAllAbsent(c, '.');
    SecondGroupRun(groups);
  }

  /** Only the digits, periods and commas of the input matter. */
  lemma {:induction false} ReadsCleanedText(s: string)
    ensures HomeParseAmount(Some(s)) == HomeParseAmount(Some(HomeClean(s)))
    ensures ReportParseAmount(Some(s)) == ReportParseAmount(Some(ReportClean(s)))
  {
    FilterAll(HomeClean(s), IsDigitOrSeparator);
    var r := ReportClean(s);
    FilterAll(r, IsDigitOrPeriod);
  }

  /** With digits and separators only, the Report screen's cleaning deletes the commas. */
  lemma {:induction false} ReportCleanOfSeparated(c: string)
    requires DigitsAndSeparators(c)
    ensures ReportClean(c) == RemoveAll(c, ',')
  {
    if |c| > 0 {
      ReportCleanOfSeparated(c[..|c| - 1]);
      assert IsDigitOrSeparator(c[|c| - 1]);
    }
  }

  /** Digits, one period, digits: the Report screen's reference value is the decimal value. */
  lemma {:induction false} ReportValueOfDecimal(i: string, f: string)
    requires AllDigits(i) && AllDigits(f)
    ensures DigitsAndPeriods(i + "." + f)
    ensures ReportValue(i + "." + f) == DecimalValue(i, f)
  {
    var u := i + "." + f;
    forall k | 0 <= k < |u|
      ensures IsDigitOrPeriod(u[k])
    {
      if k < |i| {
        assert u[k] == i[k];
      } else if k > |i| {
        assert u[k] == f[k - |i| - 1];
      }
    }
    DigitsExclude(f, '.');
    DigitsExclude(i, '.');
    assert u[|i| + 1..] == f;
    LastIndexOfAt(u, '.', |i|);
    assert u[..|i|] == i;
    RemoveAllAbsent(i, '.');
  }

  /** The Report screen reads a comma-grouped numeral with a decimal point as the Home screen does. */
  lemma {:induction false} ReportReadsCommaGroupedNumeral(groups: seq<string>, f: string)
    requires DigitGroups(groups) && AllDigits(f)
    ensures AllDigits(Concat(groups))
    ensures ReportParseAmount(Some(Grouped(groups, ',', '.', f))) == DecimalValue(Concat(groups), f)
    ensures ReportParseAmount(Some(Grouped(groups, ',', '.', f))) == HomeParseAmount(Some(Grouped(groups, ',', '.', f)))
  {
    var s := Grouped(groups, ',', '.', f);
    GroupedChars(groups, ',', '.', f);
    ReportCleanOfSeparated(s);
    ConcatDigits(groups);
    ReportValueOfDecimal(Concat(groups), f);
    assert Concat(groups) + ['.'] + f == Concat(groups) + "." + f;
    ReportNormalizeReads(Concat(groups) + "." + f);
    HomeReadsGroupedNumeral(groups, ',', '.', f);
  }

  /** Commas alone are thousands separators to the Report screen: "100,000" reads as 100000. */
  lemma {:induction false} ReportReadsCommaGroups(groups: seq<string>)
    requires DigitGroups(groups)
    ensures AllDigits(Concat(groups))
    ensures ReportParseAmount(Some(Join(groups, [',']))) == DigitsValue(Concat(groups)) as real
  {
    var c := Join(groups, [',']);
    JoinDigitsOrSeparator(groups, ',');
    assert DigitsAndSeparators(c) by {
      forall i | 0 <= i < |c|
        ensures IsDigitOrSeparator(c[i])
      {
      }
    }
    ReportCleanOfSeparated(c);
    GroupsExclude(groups, ',');
    RemoveSeparatorOfJoin(groups, ',');
    ConcatDigits(groups);
    var u := Concat(groups);
    DigitsExclude(u, '.');
    assert DigitsAndPeriods(u);
    ReportNormalizeReads(u);
  }

  /**
   * Periods alone: every period but the last is a thousands separator to the
   * Report screen, so "1.234.567" reads as 1234.567.
   */
  lemma {:induction false} ReportReadsPeriodGroups(groups: seq<string>)
    requires DigitGroups(groups) && |groups| >= 2
    ensures AllDigits(Concat(groups[..|groups| - 1]))
    ensures ReportParseAmount(Some(Join(groups, ['.']))) == DecimalValue(Concat(groups[..|groups| - 1]), groups[|groups| - 1])
  {
    var init := groups[..|groups| - 1];
    var last := groups[|groups| - 1];
    var j := Join(init, ['.']);
    var c := Join(groups, ['.']);
    assert c == j + ['.'] + last;
    assert DigitGroups(init);
    JoinDigitsOrSeparator(init, '.');
    forall k | 0 <= k < |c|
      ensures IsDigitOrPeriod(c[k])
    {
      if k < |j| {
        assert c[k] == j[k];
      } else if k > |j| {
        assert c[k] == last[k - |j| - 1];
      }
    }
    FilterAll(c, IsDigitOrPeriod);
    DigitsExclude(last, '.');
    assert c[|j| + 1..] == last;
    LastIndexOfAt(c, '.', |j|);
    assert c[..|j|] == j;
    GroupsExclude(init, '.');
    RemoveSeparatorOfJoin(init, '.');
    ConcatDigits(init);
    ReportNormalizeReads(c);
  }

  /** Clean-up deletes surrounding text with no digit, period or comma, such as a currency code. */
  lemma CleanOfSurroundingText(p: string, x: string, q: string)
    requires NoNumeralChars(p) && NoNumeralChars(q) && DigitsAndSeparators(x)
    ensures HomeClean(p + x + q) == x
    ensures ReportClean(p + x + q) == RemoveAll(x, ',')
  {
    HomeCleanAround(p, x, q);
    ReportCleanAround(p, x, q);
    ReportCleanOfSeparated(x);
  }

  lemma HomeCleanAround(p: string, x: string, q: string)
    requires NoNumeralChars(p) && NoNumeralChars(q) && DigitsAndSeparators(x)
    ensures HomeClean(p + x + q) == x
  {
    FilterNone(p, IsDigitOrSeparator);
    FilterAll(x, IsDigitOrSeparator);
    FilterNone(q, IsDigitOrSeparator);
    calc {
      Filter(p + x + q, IsDigitOrSeparator);
      { FilterAppend(p + x, q, IsDigitOrSeparator); }
      Filter(p + x, IsDigitOrSeparator) + [];
      { FilterAppend(p, x, IsDigitOrSeparator); }
      [] + x + [];
      x;
    }
  }

  lemma ReportCleanAround(p: string, x: string, q: string)
    requires NoNumeralChars(p) && NoNumeralChars(q)
    ensures ReportClean(p + x + q) == ReportClean(x)
  {
    forall i | 0 <= i < |p|
      ensures !IsDigitOrPeriod(p[i])
    {
      assert !IsDigitOrSeparator(p[i]);
    }
    forall i | 0 <= i < |q|
      ensures !IsDigitOrPeriod(q[i])
    {
      assert !IsDigitOrSeparator(q[i]);
    }
    FilterNone(p, IsDigitOrPeriod);
    FilterNone(q, IsDigitOrPeriod);
    calc {
      Filter(p + x + q, IsDigitOrPeriod);
      { FilterAppend(p + x, q, IsDigitOrPeriod); }
      Filter(p + x, IsDigitOrPeriod) + [];
      { FilterAppend(p, x, IsDigitOrPeriod); }
      [] + Filter(x, IsDigitOrPeriod) + [];
      Filter(x, IsDigitOrPeriod);
    }
  }

  /** Comma-grouped digits amid text without numeral characters, as the Home screen reads them. */
  lemma {:induction false} HomeReadsCommaGroupsAmid(p: string, groups: seq<string>, q: string)
    requires NoNumeralChars(p) && NoNumeralChars(q)
    requires DigitGroups(groups) && |groups| >= 2
    ensures HomeParseAmount(Some(p + Join(groups, [',']) + q)) == DecimalValue(groups[0], groups[1])
  {
    var x := Join(groups, [',']);
    JoinedGroupsChars(groups, ',');
    CleanOfSurroundingText(p, x, q);
    ReadsCleanedText(p + x + q);
    HomeReadsCommaGroups(groups);
  }

  /** Comma-grouped digits amid text without numeral characters, as the Report screen reads them. */
  lemma {:induction false} ReportReadsCommaGroupsAmid(p: string, groups: seq<string>, q: string)
    requires NoNumeralChars(p) && NoNumeralChars(q)
    requires DigitGroups(groups)
    ensures AllDigits(Concat(groups))
    ensures ReportParseAmount(Some(p + Join(groups, [',']) + q)) == DigitsValue(Concat(groups)) as real
  {
    var x := Join(groups, [',']);
    JoinedGroupsChars(groups, ',');
    CleanOfSurroundingText(p, x, q);
    ReportCleanOfSeparated(x);
    ReadsCleanedText(p + x + q);
    ReadsCleanedText(x);
    ReportReadsCommaGroups(groups);
  }

  lemma CurrencyExampleText(groups: seq<string>)
    requires groups == ["150", "000"]
    ensures "" + Join(groups, [',']) + " VND" == "150,000 VND"
  {
    assert groups[..1] == ["150"];
    assert Join(groups, [',']) == "150,000";
  }

  lemma CurrencyCodeIsNoise()
    ensures NoNumeralChars("") && NoNumeralChars(" VND")
  {
  }

  lemma CurrencyExampleHome(groups: seq<string>)
    requires groups == ["150", "000"]
    ensures DigitGroups(groups) && |groups| >= 2
    ensures DecimalValue(groups[0], groups[1]) == 150.0
  {
    assert "150"[..2] == "15" && "15"[..1] == "1" && "1"[..0] == "";
    assert "000"[..2] == "00" && "00"[..1] == "0" && "0"[..0] == "";
  }

  lemma CurrencyExampleReport(groups: seq<string>)
    requires groups == ["150", "000"]
    ensures DigitGroups(groups)
    ensures AllDigits(Concat(groups)) && DigitsValue(Concat(groups)) == 150000
  {
    ConcatOfTwo("150", "000");
    assert "150" + "000" == "150000";
    CurrencyExampleDigits();
  }

  /** Two strings joined with `join('')`. */
  lemma ConcatOfTwo(a: string, b: string)
    ensures Concat([a, b]) == a + b
  {
    assert [a, b][..1] == [a];
    assert [a][..0] == [];
    assert Concat([a]) == Concat([]) + a;
    assert [] + a == a;
    assert Concat([a, b]) == Concat([a]) + b;
  }

  lemma CurrencyExampleDigits()
    ensures AllDigits("150000") && DigitsValue("150000") == 150000
  {
    assert "150000"[..5] == "15000" && "15000"[..4] == "1500" && "1500"[..3] == "150";
    assert "150"[..2] == "15" && "15"[..1] == "1" && "1"[..0] == "";
  }

  /** The two screens read "150,000 VND" differently: 150 on the Home screen, 150000 in the report. */
  lemma ThousandsWithCurrency()
    ensures HomeParseAmount(Some("150,000 VND")) == 150.0
    ensures ReportParseAmount(Some("150,000 VND")) == 150000.0
  {
    var groups := ["150", "000"];
    CurrencyExampleText(groups);
    CurrencyCodeIsNoise();
    CurrencyExampleHome(groups);
    CurrencyExampleReport(groups);
    HomeReadsCommaGroupsAmid("", groups, " VND");
    ReportReadsCommaGroupsAmid("", groups, " VND");
  }

  lemma DecimalCommaText(groups: seq<string>)
    requires groups == ["1", "234"]
    ensures DigitGroups(groups) && Grouped(groups, '.', ',', "50") == "1.234,50"
  {
    assert groups[..1] == ["1"];
    assert Join(groups, ['.']) == "1.234";
  }

  lemma DecimalCommaHomeValue(groups: seq<string>)
    requires groups == ["1", "234"]
    ensures AllDigits(Concat(groups)) && DecimalValue(Concat(groups), "50") == 1234.5
  {
    ConcatOfTwo("1", "234");
    assert "1" + "234" == "1234";
    DecimalCommaDigits();
  }

  lemma DecimalCommaDigits()
    ensures AllDigits("1234") && DigitsValue("1234") == 1234
    ensures AllDigits("50") && DigitsValue("50") == 50 && Pow10(|"50"|) == 100
  {
    assert "1234"[..3] == "123" && "123"[..2] == "12" && "12"[..1] == "1" && "1"[..0] == "";
    assert "50"[..1] == "5" && "5"[..0] == "";
    assert Pow10(2) == 100;
  }

  lemma DecimalCommaPieces()
    ensures "1.234,50" == ("1.234" + ",") + "50" && "1.234" + "50" == "1.23450"
    ensures DigitsAndPeriods("1.234") && DigitsAndPeriods("50")
  {
  }

  /** The Report screen's cleaning deletes a comma between digits and periods. */
  lemma CleanDropsComma(a: string, b: string)
    requires DigitsAndPeriods(a) && DigitsAndPeriods(b)
    ensures ReportClean((a + ",") + b) == a + b
  {
    var p := IsDigitOrPeriod;
    var x := Filter(a + ",", p);
    FilterAppend(a + ",", b, p);
    FilterAppend(a, ",", p);
    FilterAll(a, p);
    FilterAll(b, p);
    assert Filter(",", p) == [] by {
      assert ","[..0] == [];
    }
    assert x == a + [];
    AppendEmpty(a);
    assert ReportClean((a + ",") + b) == x + b;
  }

  lemma AppendEmpty(a: string)
    ensures a + [] == a
  {
  }

  lemma DecimalCommaReportText()
    ensures ReportClean("1.234,50") == "1.23450"
  {
    DecimalCommaPieces();
    CleanDropsComma("1.234", "50");
  }

  lemma DecimalCommaReportValue()
    ensures AllDigits("1") && AllDigits("23450") && DecimalValue("1", "23450") == 1.2345
  {
    assert "1"[..0] == "";
    assert "23450"[..4] == "2345" && "2345"[..3] == "234" && "234"[..2] == "23" && "23"[..1] == "2" && "2"[..0] == "";
    assert DigitsValue("23450") == 23450;
    assert Pow10(5) == 100000;
  }

  lemma DecimalCommaHome()
    ensures HomeParseAmount(Some("1.234,50")) == 1234.5
  {
    var groups := ["1", "234"];
    DecimalCommaText(groups);
    DecimalCommaHomeValue(groups);
    HomeReadsGroupedNumeral(groups, '.', ',', "50");
  }

  lemma DecimalCommaReport()
    ensures ReportParseAmount(Some("1.234,50")) == 1.2345
  {
    var c := "1.23450";
    DecimalCommaReportText();
    DecimalCommaReportValue();
    ReportValueOfDecimal("1", "23450");
    assert "1" + "." + "23450" == c;
    ReportNormalizeReads(c);
  }

  /**
   * The two screens disagree on a European-style amount: "1.234,50" is
   * 1234.5 on the Home screen, which reads the comma after the period as the
   * decimal separator, and 1.2345 in the report, which deletes the comma.
   */
  lemma DecimalCommaDisagreement()
    ensures HomeParseAmount(Some("1.234,50")) == 1234.5
    ensures ReportParseAmount(Some("1.234,50")) == 1.2345
  {
    DecimalCommaHome();
    DecimalCommaReport();
  }
}
