/**
 * The shared date-range helpers (utils/date-range.js): zero padding, `YYYY-MM-DD` rendering of a
 * `Date`, the shape test for such strings, and the month, year and custom (`YYYY-MM`) ranges
 * the report pages query with.
 */
module DateRange {
  import opened Wrappers
  import opened Strings
  import opened Calendar

  /** `String(n).padStart(2, '0')` for a non-negative number. */
  function Pad2(n: nat): string
  {
    var s := NatToString(n);
    if |s| < 2 then "0" + s else s
  }

  /** A padded number has at least two digits and still reads as the number. */
  lemma Pad2Spec(n: nat)
    ensures |Pad2(n)| >= 2 && AllDigits(Pad2(n)) && ParseNat(Pad2(n)) == n
    ensures n < 10 ==> Pad2(n) == ['0', DigitChar(n)]
    ensures n >= 10 ==> Pad2(n) == NatToString(n)
  {
    ParseNatToString(n);
    if n < 10 {
      var r := Pad2(n);
      assert r[..1] == "0";
    }
  }

  /**
   * `formatDate`: the empty string for anything that is not a valid `Date` (None here), and
   * otherwise the unpadded full year, the 1-based month and the day, joined by '-'.
   */
  function FormatDate(d: Option<Date>): (r: string)
    requires d.Some? ==> Valid(d.value)
    ensures r == "" <==> d.None?
  {
    match d
    case None => ""
    case Some(x) => IntToString(x.year) + "-" + Pad2(x.month + 1) + "-" + Pad2(x.day)
  }

  /** `isValidDateStr`: a string of exactly four digits, '-', two digits, '-', two digits. */
  predicate IsValidDateStr(s: Option<string>)
  {
    s.Some? && |s.value| == 10
    && IsDigit(s.value[0]) && IsDigit(s.value[1]) && IsDigit(s.value[2]) && IsDigit(s.value[3])
    && s.value[4] == '-' && IsDigit(s.value[5]) && IsDigit(s.value[6])
    && s.value[7] == '-' && IsDigit(s.value[8]) && IsDigit(s.value[9])
  }

  /** Four-digit numbers render as four characters. */
  lemma FourDigits(n: nat)
    requires 1000 <= n <= 9999
    ensures |NatToString(n)| == 4
  {
    assert n / 10 / 10 == n / 100;
    assert n / 100 / 10 == n / 1000;
    assert |NatToString(n / 1000)| == 1;
    assert |NatToString(n / 100)| == 2;
    assert |NatToString(n / 10)| == 3;
  }

  /**
   * A date of a four-digit year renders as a string `isValidDateStr` accepts, and its three
   * fields read back as the year, the 1-based month and the day.
   */
  lemma FormatDateRoundTrip(d: Date)
    requires Valid(d) && 1000 <= d.year <= 9999
    ensures var r := FormatDate(Some(d));
      IsValidDateStr(Some(r))
      && AllDigits(r[..4]) && ParseNat(r[..4]) == d.year
      && AllDigits(r[5..7]) && ParseNat(r[5..7]) == d.month + 1
      && AllDigits(r[8..]) && ParseNat(r[8..]) == d.day
  {
    FourDigits(d.year);
    ParseNatToString(d.year);
    Pad2Spec(d.month + 1);
    Pad2Spec(d.day);
    DateShape(NatToString(d.year), Pad2(d.month + 1), Pad2(d.day));
  }

  /** The shape of `y-mm-dd` for a four-digit `y` and two-digit `mm` and `dd`. */
  lemma DateShape(y: string, mm: string, dd: string)
    requires |y| == 4 && |mm| == 2 && |dd| == 2 && AllDigits(y) && AllDigits(mm) && AllDigits(dd)
    ensures var r := y + "-" + mm + "-" + dd;
      IsValidDateStr(Some(r)) && r[..4] == y && r[5..7] == mm && r[8..] == dd
  {
    var r := y + "-" + mm + "-" + dd;
    assert r[..4] == y;
    assert r[5..7] == mm;
    assert r[8..] == dd;
    assert IsDigit(y[0]) && IsDigit(y[1]) && IsDigit(y[2]) && IsDigit(y[3]);
    assert IsDigit(mm[0]) && IsDigit(mm[1]) && IsDigit(dd[0]) && IsDigit(dd[1]);
  }

  /** `Number(s)` on a string: blank is 0, an optionally signed run of digits is its value, the rest NaN. */
  function ToNumber(s: string): (r: Option<int>)
  {
    var t := Strip(s);
    if t == "" then Some(0)
    else if AllDigits(t) then Some(ParseNat(t))
    else if |t| > 1 && (t[0] == '-' || t[0] == '+') && AllDigits(t[1..]) then
      var v: int := ParseNat(t[1..]);
      Some(if t[0] == '-' then -v else v)
    else None
  }

  /** A run of digits converts to its decimal value. */
  lemma ToNumberDigits(s: string)
    requires |s| > 0 && AllDigits(s)
    ensures ToNumber(s) == Some(ParseNat(s))
  {
    StripUnchanged(s);
  }

  datatype Range = Range(startDate: string, endDate: string)

  const EmptyRange := Range("", "")

  /** `buildMonthRange`: the first and the last day of month `month0` (0-based) of `year`. */
  function BuildMonthRange(year: int, month0: int): Range
  {
    Range(FormatDate(Some(NewDate(year, month0, 1))), FormatDate(Some(NewDate(year, month0 + 1, 0))))
  }

  /**
   * A month range starts on day 01 and ends on the last day of the same month, for every month
   * argument: months outside 0..11 carry into the year as the `Date` constructor does.
   */
  lemma MonthRangeSpec(year: int, month0: int)
    ensures var y := FullYear(year) + month0 / 12;
      var m := month0 % 12;
      BuildMonthRange(year, month0)
        == Range(FormatDate(Some(Date(y, m, 1))), FormatDate(Some(Date(y, m, DaysInMonth(y, m)))))
  {
    var y := FullYear(year) + month0 / 12;
    var m := month0 % 12;
    assert NewDate(year, month0, 1) == Date(y, m, 1) by {
      MakeDateInMonth(FullYear(year), month0, 1);
    }
    assert NewDate(year, month0 + 1, 0) == Date(y, m, DaysInMonth(y, m)) by {
      MakeDateMonthEnd(FullYear(year), month0);
    }
  }

  /** `buildYearRange`. */
  function BuildYearRange(year: int): Range
  {
    Range(FormatDate(Some(NewDate(year, 0, 1))), FormatDate(Some(NewDate(year, 11, 31))))
  }

  /** A year range spans January 1st to December 31st of that (full) year. */
  lemma YearRangeSpec(year: int)
    ensures var y := FullYear(year);
      BuildYearRange(year) == Range(FormatDate(Some(Date(y, 0, 1))), FormatDate(Some(Date(y, 11, 31))))
  {
    MakeDateExact(FullYear(year), 0, 1);
    MakeDateExact(FullYear(year), 11, 31);
  }

  /** `s.split('-').map(Number)` when that gives two finite numbers. */
  function YearMonth(s: string): Option<(int, int)>
  {
    var parts := Split(s, '-');
    if |parts| != 2 then None
    else match (ToNumber(parts[0]), ToNumber(parts[1]))
      case (Some(y), Some(m)) => Some((y, m))
      case _ => None
  }

  /** Why `buildCustomRange` returns two empty strings, if it does. */
  predicate CustomRejected(start: Option<string>, end: Option<string>)
  {
    start.None? || end.None? || YearMonth(start.value).None? || YearMonth(end.value).None?
  }

  /**
   * `buildCustomRange`: non-strings (None), strings that do not split into two parts and parts
   * that are not finite numbers give two empty strings; otherwise the range runs from the 1st of
   * the start month to the last day of the end month (month numbers are 1-based here).
   */
  function BuildCustomRange(start: Option<string>, end: Option<string>): (r: Range)
    ensures r.startDate == "" <==> CustomRejected(start, end)
    ensures r.endDate == "" <==> CustomRejected(start, end)
  {
    if CustomRejected(start, end) then EmptyRange
    else
      var (ys, ms) := YearMonth(start.value).value;
      var (ye, me) := YearMonth(end.value).value;
      CustomDates(ys, ms, ye, me)
  }

  /** The two dates of an accepted custom range, from the numbers read (months 1-based). */
  function CustomDates(ys: int, ms: int, ye: int, me: int): (r: Range)
    ensures r.startDate != "" && r.endDate != ""
  {
    Range(FormatDate(Some(NewDate(ys, ms - 1, 1))), FormatDate(Some(NewDate(ye, me, 0))))
  }

  /** `YYYY-MM` split into its two parts. */
  lemma SplitYearMonth(y: string, m: string)
    requires AllDigits(y) && AllDigits(m)
    ensures Split(y + "-" + m, '-') == [y, m]
  {
    assert forall k :: 0 <= k < |y| ==> y[k] != '-';
    assert forall k :: 0 <= k < |m| ==> m[k] != '-';
    SplitAppend(y, '-', m);
    SplitNoSep(m, '-');
  }

  /** `YYYY-MM` reads as its two numbers. */
  lemma YearMonthDigits(y: string, m: string)
    requires |y| > 0 && |m| > 0 && AllDigits(y) && AllDigits(m)
    ensures YearMonth(y + "-" + m) == Some((ParseNat(y), ParseNat(m)))
  {
    SplitYearMonth(y, m);
    ToNumberDigits(y);
    ToNumberDigits(m);
  }

  /**
   * Year-month pairs of years from 100 on and months 1..12 give the first day of the start month
   * and the last day of the end month.
   */
  lemma CustomDatesSpec(ys: int, ms: int, ye: int, me: int)
    requires ys >= 100 && ye >= 100 && 1 <= ms <= 12 && 1 <= me <= 12
    ensures CustomDates(ys, ms, ye, me)
      == Range(FormatDate(Some(Date(ys, ms - 1, 1))), FormatDate(Some(Date(ye, me - 1, DaysInMonth(ye, me - 1)))))
  {
    MakeDateExact(ys, ms - 1, 1);
    MakeDateDayZero(ye, me - 1);
  }
}
