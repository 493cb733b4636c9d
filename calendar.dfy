/**
 * The proleptic Gregorian calendar as JavaScript's `Date` sees it in local time: months are
 * 0-based, and `new Date(y, m, d)` accepts any month and day and normalizes them by carrying
 * into the neighbouring months and years (day 0 is the last day of the previous month, day 32
 * of January is the first of February).
 */
module Calendar {

  predicate IsLeap(y: int) {
    y % 4 == 0 && (y % 100 != 0 || y % 400 == 0)
  }

  function DaysInMonth(y: int, m: int): (r: int)
    requires 0 <= m < 12
    ensures 28 <= r <= 31
    ensures r == 28 <==> m == 1 && !IsLeap(y)
  {
    if m == 1 then (if IsLeap(y) then 29 else 28)
    else if m == 3 || m == 5 || m == 8 || m == 10 then 30
    else 31
  }

  /** A calendar day: `month` is 0-based as `getMonth()` returns it. */
  datatype Date = Date(year: int, month: int, day: int)

  predicate Valid(d: Date) {
    0 <= d.month < 12 && 1 <= d.day <= DaysInMonth(d.year, d.month)
  }

  /** The month after and the month before, carrying into the year. */
  function NextMonth(y: int, m: int): (r: (int, int))
    requires 0 <= m < 12
    ensures 0 <= r.1 < 12
    ensures r == (y + (m + 1) / 12, (m + 1) % 12)
  {
    if m == 11 then (y + 1, 0) else (y, m + 1)
  }

  function PrevMonth(y: int, m: int): (r: (int, int))
    requires 0 <= m < 12
    ensures 0 <= r.1 < 12
    ensures r == (y + (m - 1) / 12, (m - 1) % 12)
    ensures NextMonth(r.0, r.1) == (y, m)
  {
    if m == 0 then (y - 1, 11) else (y, m - 1)
  }

  /** The day carried forwards or backwards month by month until it fits its month. */
  function NormalizeDay(y: int, m: int, d: int): (r: Date)
    requires 0 <= m < 12
    ensures Valid(r)
    decreases if d < 1 then 1 else 0, if d < 1 then -d else d
  {
    if d < 1 then
      var p := PrevMonth(y, m);
      NormalizeDay(p.0, p.1, d + DaysInMonth(p.0, p.1))
    else if d > DaysInMonth(y, m) then
      var n := NextMonth(y, m);
      NormalizeDay(n.0, n.1, d - DaysInMonth(y, m))
    else Date(y, m, d)
  }

  /** `new Date(y, m, d)` for a full year `y`: the month carries into the year first, then the day. */
  function MakeDate(y: int, m: int, d: int): (r: Date)
    ensures Valid(r)
  {
    NormalizeDay(y + m / 12, m % 12, d)
  }

  /** The year argument of the `Date` constructor: 0..99 stand for 1900..1999. */
  function FullYear(y: int): int {
    if 0 <= y <= 99 then 1900 + y else y
  }

  /** `new Date(y, m, d)`. */
  function NewDate(y: int, m: int, d: int): (r: Date)
    ensures Valid(r)
  {
    MakeDate(FullYear(y), m, d)
  }

  /** A day that exists in its month is built as given. */
  lemma MakeDateExact(y: int, m: int, d: int)
    requires 0 <= m < 12 && 1 <= d <= DaysInMonth(y, m)
    ensures MakeDate(y, m, d) == Date(y, m, d)
  {
  }

  /** A day that exists in the normalized month lands in that month, whatever the month argument. */
  lemma MakeDateInMonth(y: int, m: int, d: int)
    requires 1 <= d <= DaysInMonth(y + m / 12, m % 12)
    ensures MakeDate(y, m, d) == Date(y + m / 12, m % 12, d)
  {
  }

  /** Day 0 of the month after `m` is the last day of `m`. */
  lemma MakeDateDayZero(y: int, m: int)
    requires 0 <= m < 12
    ensures MakeDate(y, m + 1, 0) == Date(y, m, DaysInMonth(y, m))
  {
    var n := NextMonth(y, m);
    assert PrevMonth(n.0, n.1) == (y, m);
  }

  /** The same for any month argument, once the month has carried into the year. */
  lemma MakeDateMonthEnd(y: int, m: int)
    ensures MakeDate(y, m + 1, 0) == Date(y + m / 12, m % 12, DaysInMonth(y + m / 12, m % 12))
  {
    var n := NextMonth(y + m / 12, m % 12);
    assert y + (m + 1) / 12 == n.0 && (m + 1) % 12 == n.1;
    MakeDateDayZero(y + m / 12, m % 12);
  }

  /** The day before a calendar day. */
  function DayBefore(d: Date): (r: Date)
    requires Valid(d)
    ensures Valid(r) && DateLt(r, d)
  {
    if d.day > 1 then Date(d.year, d.month, d.day - 1)
    else
      var p := PrevMonth(d.year, d.month);
      Date(p.0, p.1, DaysInMonth(p.0, p.1))
  }

  /** Chronological order of days. */
  predicate DateLt(a: Date, b: Date) {
    a.year < b.year || (a.year == b.year && (a.month < b.month || (a.month == b.month && a.day < b.day)))
  }

  predicate DateLe(a: Date, b: Date) {
    DateLt(a, b) || a == b
  }

  lemma DateLeTransitive(a: Date, b: Date, c: Date)
    requires DateLe(a, b) && DateLe(b, c)
    ensures DateLe(a, c)
  {
  }

  /** No day lies strictly between a day and the day after it. */
  lemma DayBeforeAdjacent(d: Date, e: Date)
    requires Valid(d) && Valid(e) && DateLt(DayBefore(d), e)
    ensures DateLe(d, e)
  {
  }

  /** An instant: a day and the milliseconds since its local midnight. */
  datatype Instant = Instant(date: Date, ms: int)

  const MsPerDay := 86400000

  predicate ValidInstant(t: Instant) {
    Valid(t.date) && 0 <= t.ms < MsPerDay
  }

  /** Local midnight at the start of a day, which is what a `Date` built from y, m, d denotes. */
  function Midnight(d: Date): (t: Instant)
    ensures t.date == d && t.ms == 0
  {
    Instant(d, 0)
  }

  /** `a <= b` on two `Date` objects, which compares their time values. */
  predicate InstantLe(a: Instant, b: Instant) {
    DateLt(a.date, b.date) || (a.date == b.date && a.ms <= b.ms)
  }
}
