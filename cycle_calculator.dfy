/**
 * The accounting cycle (utils/cycle-calculator.js): a cycle starts on a configured day of the
 * month and runs to the day before that day of the next month. The setting comes from storage,
 * which is a parameter here (None when nothing is stored); the current time is a parameter too.
 */
module CycleCalculator {
  import opened Wrappers
  import opened Strings
  import opened Js
  import opened Calendar

  /** What storage may hold under `cycleSetting`: an absent or 0 `startDay` is falsy. */
  datatype Setting = Setting(startDay: Option<int>, kind: Option<string>)

  datatype CycleSetting = CycleSetting(startDay: int, kind: string)

  predicate HasDay(o: Option<int>) { o.Some? && o.value != 0 }

  /**
   * `getCycleSetting`: nothing stored counts as `{startDay: 1}`; a falsy start day becomes 1 and
   * a falsy type 'monthly'.
   */
  function GetCycleSetting(stored: Option<Setting>): (r: CycleSetting)
    ensures r.startDay != 0 && r.kind != ""
    ensures stored.None? ==> r == CycleSetting(1, "monthly")
    ensures stored.Some? && HasDay(stored.value.startDay) ==> r.startDay == stored.value.startDay.value
    ensures stored.Some? && !HasDay(stored.value.startDay) ==> r.startDay == 1
    ensures stored.Some? && Present(stored.value.kind) ==> r.kind == stored.value.kind.value
  {
    var s := if stored.Some? then stored.value else Setting(Some(1), None);
    CycleSetting(if HasDay(s.startDay) then s.startDay.value else 1,
                 if Present(s.kind) then s.kind.value else "monthly")
  }

  /** A cycle: its first and last day (each at local midnight) and the start day it was built from. */
  datatype Cycle = Cycle(startDate: Date, endDate: Date, startDay: int)

  /**
   * The cycle `calculateCycle` builds around day `d`: from this month's start day when `d` has
   * reached it, from last month's otherwise. Days and months out of range carry as the `Date`
   * constructor carries them, and so does its reading of years 0..99 as 1900..1999.
   */
  function CycleOf(d: Date, startDay: int): (c: Cycle)
    ensures Valid(c.startDate) && Valid(c.endDate) && c.startDay == startDay
  {
    if d.day >= startDay then
      Cycle(NewDate(d.year, d.month, startDay), NewDate(d.year, d.month + 1, startDay - 1), startDay)
    else
      Cycle(NewDate(d.year, d.month - 1, startDay), NewDate(d.year, d.month, startDay - 1), startDay)
  }

  /** `calculateCycle(date)` with the stored setting. */
  function CalculateCycle(t: Instant, stored: Option<Setting>): (c: Cycle)
    ensures c == CycleOf(t.date, GetCycleSetting(stored).startDay)
  {
    CycleOf(t.date, GetCycleSetting(stored).startDay)
  }

  /** `isDateInCycle`: the instant compared with both ends of the cycle, each end included. */
  predicate IsDateInCycle(t: Instant, c: Cycle)
  {
    InstantLe(Midnight(c.startDate), t) && InstantLe(t, Midnight(c.endDate))
  }

  /** Both ends of a cycle that is not empty belong to it. */
  lemma InclusiveEnds(c: Cycle)
    requires DateLe(c.startDate, c.endDate)
    ensures IsDateInCycle(Midnight(c.startDate), c) && IsDateInCycle(Midnight(c.endDate), c)
    ensures forall ms :: 0 < ms ==> !IsDateInCycle(Instant(c.endDate, ms), c)
  {
  }

  // ---------------------------------------------------------------- the intended cycle

  /** The start day as it applies in month `m`: at least 1 and at most the month's length. */
  function StartIn(y: int, m: int, startDay: int): (r: int)
    requires 0 <= m < 12
    ensures 1 <= r <= DaysInMonth(y, m)
  {
    if startDay < 1 then 1 else if startDay > DaysInMonth(y, m) then DaysInMonth(y, m) else startDay
  }

  /**
   * The cycle as the comments in the source describe it, with the start day kept inside short
   * months: from the start of the cycle `d` belongs to up to the day before the next one starts.
   */
  function CycleFixed(d: Date, startDay: int): (c: Cycle)
    requires Valid(d)
    ensures Valid(c.startDate) && Valid(c.endDate) && c.startDay == startDay
  {
    var s := StartIn(d.year, d.month, startDay);
    if d.day >= s then
      var n := NextMonth(d.year, d.month);
      Cycle(Date(d.year, d.month, s), DayBefore(Date(n.0, n.1, StartIn(n.0, n.1, startDay))), startDay)
    else
      var p := PrevMonth(d.year, d.month);
      Cycle(Date(p.0, p.1, StartIn(p.0, p.1, startDay)), DayBefore(Date(d.year, d.month, s)), startDay)
  }

  /** A day at or before the day before `x` is exactly a day before `x`. */
  lemma LeDayBefore(e: Date, x: Date)
    requires Valid(e) && Valid(x)
    ensures DateLe(e, DayBefore(x)) <==> DateLt(e, x)
  {
    if DateLt(e, x) && !DateLe(e, DayBefore(x)) {
      DayBeforeAdjacent(x, e);
    }
  }

  /** Every day lies in its own cycle, which starts on the (clamped) start day of its month. */
  lemma CycleFixedContains(d: Date, startDay: int)
    requires Valid(d)
    ensures var c := CycleFixed(d, startDay);
      DateLe(c.startDate, d) && DateLe(d, c.endDate)
      && c.startDate.day == StartIn(c.startDate.year, c.startDate.month, startDay)
  {
    var s := StartIn(d.year, d.month, startDay);
    if d.day >= s {
      var n := NextMonth(d.year, d.month);
      LeDayBefore(d, Date(n.0, n.1, StartIn(n.0, n.1, startDay)));
    } else {
      LeDayBefore(d, Date(d.year, d.month, s));
    }
  }

  /** Every day of a cycle has that same cycle: the cycles partition the calendar. */
  lemma CycleFixedPartition(d: Date, e: Date, startDay: int)
    requires Valid(d) && Valid(e)
    requires DateLe(CycleFixed(d, startDay).startDate, e) && DateLe(e, CycleFixed(d, startDay).endDate)
    ensures CycleFixed(e, startDay) == CycleFixed(d, startDay)
  {
    var c := CycleFixed(d, startDay);
    var s := StartIn(d.year, d.month, startDay);
    if d.day >= s {
      var n := NextMonth(d.year, d.month);
      LeDayBefore(e, Date(n.0, n.1, StartIn(n.0, n.1, startDay)));
      if (e.year, e.month) == n {
        assert PrevMonth(n.0, n.1) == (d.year, d.month);
        LeDayBefore(e, Date(n.0, n.1, StartIn(n.0, n.1, startDay)));
      }
    } else {
      var p := PrevMonth(d.year, d.month);
      LeDayBefore(e, Date(d.year, d.month, s));
      if (e.year, e.month) == p {
        assert NextMonth(p.0, p.1) == (d.year, d.month);
      }
    }
  }

  /**
   * For start days 1..28, which every month has, the source's cycle is the intended one (for
   * years outside 0..99, which the `Date` constructor would move into the 1900s).
   */
  lemma CycleOfIsFixed(d: Date, startDay: int)
    requires Valid(d) && 1 <= startDay <= 28 && !(0 <= d.year <= 99)
    ensures CycleOf(d, startDay) == CycleFixed(d, startDay)
  {
    var y, m := d.year, d.month;
    assert FullYear(y) == y;
    var n := NextMonth(y, m);
    var p := PrevMonth(y, m);
    if d.day >= startDay {
      MakeDateExact(y, m, startDay);
      if startDay == 1 {
        MakeDateDayZero(y, m);
      } else {
        MakeDateInMonth(y, m + 1, startDay - 1);
      }
    } else {
      MakeDateInMonth(y, m - 1, startDay);
      MakeDateExact(y, m, startDay - 1);
    }
  }

  /** Hence, for those start days, every instant at midnight lies in the cycle computed for it. */
  lemma CycleContainsMidnight(d: Date, startDay: int)
    requires Valid(d) && 1 <= startDay <= 28 && !(0 <= d.year <= 99)
    ensures IsDateInCycle(Midnight(d), CycleOf(d, startDay))
  {
    CycleOfIsFixed(d, startDay);
    CycleFixedContains(d, startDay);
  }

  /**
   * As written, a start day past the end of a short month pushes the cycle start into the next
   * month: with start day 31, March 1st 2025 gets the cycle March 3rd to March 30th, which does
   * not hold it.
   */
  lemma DateOutsideOwnCycle()
    ensures var d := Date(2025, 2, 1);
      CycleOf(d, 31) == Cycle(Date(2025, 2, 3), Date(2025, 2, 30), 31)
      && !IsDateInCycle(Midnight(d), CycleOf(d, 31))
      && CycleFixed(d, 31) == Cycle(Date(2025, 1, 28), Date(2025, 2, 30), 31)
  {
    assert NormalizeDay(2025, 1, 31) == NormalizeDay(2025, 2, 3);
  }

  /**
   * As written, the cycle ends at midnight starting its last day, so any later instant of that
   * day is outside: 10:00 on March 31st 2025 is not in the cycle March 1st..31st.
   */
  lemma LastDayAfterMidnightExcluded()
    ensures var t := Instant(Date(2025, 2, 31), 10 * 3600000);
      var c := CycleOf(t.date, 1);
      c == Cycle(Date(2025, 2, 1), Date(2025, 2, 31), 1) && t.date == c.endDate && !IsDateInCycle(t, c)
  {
    assert FullYear(2025) == 2025;
    MakeDateExact(2025, 2, 1);
    MakeDateDayZero(2025, 2);
  }

  /** The intended test: the instant's calendar day between the first and the last day. */
  predicate IsDateInCycleFixed(t: Instant, c: Cycle)
  {
    DateLe(c.startDate, t.date) && DateLe(t.date, c.endDate)
  }

  /**
   * The intended test agrees with the source at midnight and gives every instant of a day the
   * same answer; with the intended cycle, every instant is in the cycle computed for it.
   */
  lemma IsDateInCycleFixedSpec(t: Instant, c: Cycle, startDay: int)
    requires ValidInstant(t)
    ensures IsDateInCycleFixed(t, c) <==> IsDateInCycle(Midnight(t.date), c)
    ensures IsDateInCycleFixed(t, CycleFixed(t.date, startDay))
  {
    CycleFixedContains(t.date, startDay);
  }

  // ---------------------------------------------------------------- display and repair

  /** How often `c` occurs in `s`. */
  function Count(s: string, c: char): nat
  {
    if |s| == 0 then 0 else Count(s[..|s| - 1], c) + (if s[|s| - 1] == c then 1 else 0)
  }

  lemma {:induction false} CountAppend(a: string, b: string, c: char)
    ensures Count(a + b, c) == Count(a, c) + Count(b, c)
    decreases |b|
  {
    if |b| > 0 {
      CountAppend(a, b[..|b| - 1], c);
      assert (a + b)[..|a + b| - 1] == a + b[..|b| - 1];
    } else {
      assert a + b == a;
    }
  }

  lemma {:induction false} CountDigits(s: string, c: char)
    requires AllDigits(s) && !IsDigit(c)
    ensures Count(s, c) == 0
  {
    if |s| > 0 {
      CountDigits(s[..|s| - 1], c);
    }
  }

  /** `formatCycle`: `M月D日-D日` when both ends fall in the same month, `M月D日-M月D日` otherwise. */
  function FormatCycle(c: Cycle): string
    requires Valid(c.startDate) && Valid(c.endDate)
  {
    var sm := NatToString(c.startDate.month + 1);
    var sd := NatToString(c.startDate.day);
    var ed := NatToString(c.endDate.day);
    if c.startDate.month == c.endDate.month then sm + "月" + sd + "日-" + ed + "日"
    else sm + "月" + sd + "日-" + NatToString(c.endDate.month + 1) + "月" + ed + "日"
  }

  lemma ShortFormCount(sm: string, sd: string, ed: string)
    requires AllDigits(sm) && AllDigits(sd) && AllDigits(ed)
    ensures Count(sm + "月" + sd + "日-" + ed + "日", '月') == 1
  {
    CountDigits(sm, '月');
    CountDigits(sd, '月');
    CountDigits(ed, '月');
    assert Count("月", '月') == 1 && Count("日-", '月') == 0 && Count("日", '月') == 0;
    CountAppend(sm, "月", '月');
    CountAppend(sm + "月", sd, '月');
    CountAppend(sm + "月" + sd, "日-", '月');
    CountAppend(sm + "月" + sd + "日-", ed, '月');
    CountAppend(sm + "月" + sd + "日-" + ed, "日", '月');
  }

  lemma LongFormCount(sm: string, sd: string, em: string, ed: string)
    requires AllDigits(sm) && AllDigits(sd) && AllDigits(em) && AllDigits(ed)
    ensures Count(sm + "月" + sd + "日-" + em + "月" + ed + "日", '月') == 2
  {
    CountDigits(sm, '月');
    CountDigits(sd, '月');
    CountDigits(em, '月');
    CountDigits(ed, '月');
    assert Count("月", '月') == 1 && Count("日-", '月') == 0 && Count("日", '月') == 0;
    CountAppend(sm, "月", '月');
    CountAppend(sm + "月", sd, '月');
    CountAppend(sm + "月" + sd, "日-", '月');
    CountAppend(sm + "月" + sd + "日-", em, '月');
    CountAppend(sm + "月" + sd + "日-" + em, "月", '月');
    CountAppend(sm + "月" + sd + "日-" + em + "月", ed, '月');
    CountAppend(sm + "月" + sd + "日-" + em + "月" + ed, "日", '月');
  }

  /** The short form is used exactly when the months agree: it names a month once, the long form twice. */
  lemma FormatCycleSpec(c: Cycle)
    requires Valid(c.startDate) && Valid(c.endDate)
    ensures Count(FormatCycle(c), '月') == if c.startDate.month == c.endDate.month then 1 else 2
  {
    var sm := NatToString(c.startDate.month + 1);
    var sd := NatToString(c.startDate.day);
    var ed := NatToString(c.endDate.day);
    if c.startDate.month == c.endDate.month {
      ShortFormCount(sm, sd, ed);
    } else {
      LongFormCount(sm, sd, NatToString(c.endDate.month + 1), ed);
    }
  }

  /** Both forms start with the start month and end with the end day. */
  lemma FormatCycleEnds(c: Cycle)
    requires Valid(c.startDate) && Valid(c.endDate)
    ensures StartsWith(FormatCycle(c), NatToString(c.startDate.month + 1) + "月")
    ensures EndsWith(FormatCycle(c), NatToString(c.endDate.day) + "日")
  {
    var sm := NatToString(c.startDate.month + 1);
    var sd := NatToString(c.startDate.day);
    var ed := NatToString(c.endDate.day);
    var text := FormatCycle(c);
    if c.startDate.month == c.endDate.month {
      assert text == sm + "月" + sd + "日-" + ed + "日";
      ShortFormEnds(sm, sd, ed);
    } else {
      var em := NatToString(c.endDate.month + 1);
      assert text == sm + "月" + sd + "日-" + em + "月" + ed + "日";
      LongFormEnds(sm, sd, em, ed);
    }
  }

  lemma ShortFormEnds(sm: string, sd: string, ed: string)
    ensures StartsWith(sm + "月" + sd + "日-" + ed + "日", sm + "月")
    ensures EndsWith(sm + "月" + sd + "日-" + ed + "日", ed + "日")
  {
    Regroup(sm + "月", sd, "日-");
    Regroup(sm + "月" + sd + "日-", ed, "日");
    OuterParts(sm + "月", sd + "日-", ed + "日");
  }

  lemma LongFormEnds(sm: string, sd: string, em: string, ed: string)
    ensures StartsWith(sm + "月" + sd + "日-" + em + "月" + ed + "日", sm + "月")
    ensures EndsWith(sm + "月" + sd + "日-" + em + "月" + ed + "日", ed + "日")
  {
    var a := sm + "月";
    Regroup(a, sd, "日-");
    Regroup(a, sd + "日-", em);
    Regroup(a, sd + "日-" + em, "月");
    Regroup(a + sd + "日-" + em + "月", ed, "日");
    OuterParts(a, sd + "日-" + em + "月", ed + "日");
  }

  lemma OuterParts(a: string, m: string, b: string)
    ensures StartsWith(a + m + b, a) && EndsWith(a + m + b, b)
  {
    assert (a + m + b)[..|a|] == a;
    assert (a + m + b)[|a + m + b| - |b|..] == b;
  }

  /** The setting stored under `cycleSetting` (None when nothing is stored). */
  class SettingStore {
    var stored: Option<Setting>

    constructor (stored: Option<Setting>)
      ensures this.stored == stored
    {
      this.stored := stored;
    }

    /**
     * `fixCycleSetting`: nothing stored or a falsy start day is replaced by `{1, 'monthly'}`; a
     * start day outside 1..31 is reset to 1 with the type kept. Each repair is written back, a
     * setting that needs none is returned as it is.
     */
    method FixCycleSetting() returns (s: Setting)
      modifies this
      ensures s.startDay.Some? && 1 <= s.startDay.value <= 31
      ensures stored == Some(s)
      ensures old(stored).None? || !HasDay(old(stored).value.startDay) ==> s == Setting(Some(1), Some("monthly"))
      ensures old(stored).Some? && HasDay(old(stored).value.startDay) ==>
        var o := old(stored).value;
        s == if 1 <= o.startDay.value <= 31 then o else o.(startDay := Some(1))
    {
      if stored.None? || !HasDay(stored.value.startDay) {
        s := Setting(Some(1), Some("monthly"));
        stored := Some(s);
      } else {
        s := stored.value;
      }
      if s.startDay.value < 1 || s.startDay.value > 31 {
        s := s.(startDay := Some(1));
        stored := Some(s);
      }
    }
  }

  /** After a repair, the setting that is read back has a start day in 1..31 and is the repaired one. */
  lemma FixedSettingReadsBack(s: Setting)
    requires s.startDay.Some? && 1 <= s.startDay.value <= 31
    ensures GetCycleSetting(Some(s)).startDay == s.startDay.value
    ensures 1 <= GetCycleSetting(Some(s)).startDay <= 31
  {
  }
}
