/**
 * The `formatDate` helper that the Home and Scanner screens share: a date
 * becomes "year-MM-DD" with the month and day padded to two digits and the
 * year written as it is.
 */
module Dates {
  import opened Wrappers
  import opened Strings

  /**
   * What `new Date(x)` holds, read through the local-time getters: the full
   * year, `getMonth() + 1` and `getDate()`; or an invalid date, whose getters
   * all return NaN.
   */
  datatype JsDate = Valid(year: int, month: int, day: int) | InvalidDate

  /** `'' + n` padded with a leading "0" when it is shorter than two characters. */
  function Pad2(n: int): (r: string)
    ensures |r| >= 2
  {
    var s := IntToString(n);
    if |s| < 2 then "0" + s else s
  }

  /** `formatDate(date)`; `None` stands for a falsy argument. */
  function FormatDate(date: Option<JsDate>): (r: string)
    ensures date.None? <==> r == ""
  {
    match date
    case None => ""
    case Some(InvalidDate) => Join(["NaN", "NaN", "NaN"], "-")
    case Some(Valid(y, m, d)) => Join([IntToString(y), Pad2(m), Pad2(d)], "-")
  }

  /** A day of the calendar: a month from 1 to 12 and a day from 1 to 31. */
  predicate IsCalendarDay(m: int, d: int) {
    1 <= m <= 12 && 1 <= d <= 31
  }

  /** Reads "year-MM-DD" back: three all-digit fields separated by '-'. */
  function ParseDate(s: string): Option<JsDate> {
    var parts := Split(s, '-');
    if |parts| == 3 && AllDigits(parts[0]) && AllDigits(parts[1]) && AllDigits(parts[2]) then
      Some(Valid(DigitsValue(parts[0]), DigitsValue(parts[1]), DigitsValue(parts[2])))
    else None
  }

  /** A month or day number is written with exactly two digits that read back as it. */
  lemma Pad2Digits(n: int)
    requires 1 <= n <= 31
    ensures |Pad2(n)| == 2 && AllDigits(Pad2(n)) && DigitsValue(Pad2(n)) == n
  {
    var s := IntToString(n);
    DigitsValueOfNatToString(n);
    if n < 10 {
      assert s == [('0' as int + n) as char];
      var r := "0" + s;
      assert r[..1] == "0";
    } else {
      assert NatToString(n / 10) == [('0' as int + n / 10) as char];
    }
  }

  /** A formatted date of a non-negative year reads back as the same date. */
  lemma FormatDateRoundTrip(y: int, m: int, d: int)
    requires y >= 0 && IsCalendarDay(m, d)
    ensures ParseDate(FormatDate(Some(Valid(y, m, d)))) == Some(Valid(y, m, d))
  {
    var parts := [IntToString(y), Pad2(m), Pad2(d)];
    Pad2Digits(m);
    Pad2Digits(d);
    DigitsValueOfNatToString(y);
    assert forall i :: 0 <= i < 3 ==> AllDigits(parts[i]);
    forall i | 0 <= i < 3
      ensures '-' !in parts[i]
    {
      assert AllDigits(parts[i]);
    }
    SplitOfJoin(parts, '-');
  }

  /** Years 1000 to 9999 give the ten-character "YYYY-MM-DD" form. */
  lemma FormatDateOfFourDigitYear(y: int, m: int, d: int)
    requires 1000 <= y <= 9999 && IsCalendarDay(m, d)
    ensures var r := FormatDate(Some(Valid(y, m, d)));
      |r| == 10 && r[4] == '-' && r[7] == '-'
  {
    Pad2Digits(m);
    Pad2Digits(d);
    FourDigits(y);
    var parts := [IntToString(y), Pad2(m), Pad2(d)];
    assert parts[..2][..1] == [IntToString(y)];
    assert Join(parts[..2], "-") == IntToString(y) + "-" + Pad2(m);
    assert Join(parts, "-") == IntToString(y) + "-" + Pad2(m) + "-" + Pad2(d);
  }

  lemma FourDigits(y: int)
    requires 1000 <= y <= 9999
    ensures |IntToString(y)| == 4
  {
    assert (y / 10) / 10 == y / 100 && (y / 100) / 10 == y / 1000;
    assert 1 <= y / 1000 <= 9;
    assert |NatToString(y / 1000)| == 1;
    assert |NatToString(y / 100)| == 2;
    assert |NatToString(y / 10)| == 3;
  }
}
