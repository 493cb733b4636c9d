/**
 * The accounting-cycle settings page (pages/custom-cycle/custom-cycle.js): a cycle is the
 * natural month, a salary cycle (a pay day and a length in days) or a custom span from a start
 * month and day to an end month and day. The page keeps the settings being edited, a one-line
 * preview of the chosen cycle and the validation errors shown next to each field.
 */
module CustomCycle {
  import opened Wrappers
  import opened Strings

  /** `customSettings`: months 1..12 and days 1..31 when valid. */
  datatype CustomSettings = CustomSettings(startMonth: int, startDay: int, endMonth: int, endDay: int)

  /** `salarySettings`: the pay day of the month and the cycle length in days. */
  datatype SalarySettings = SalarySettings(payDay: int, cycleLength: int)

  predicate MonthInRange(m: int) { 1 <= m <= 12 }

  predicate DayInRange(d: int) { 1 <= d <= 31 }

  /** The custom spans the page accepts: real months and days, and a same-month span that moves forward. */
  predicate CustomValid(s: CustomSettings)
  {
    MonthInRange(s.startMonth) && MonthInRange(s.endMonth) && DayInRange(s.startDay) && DayInRange(s.endDay)
    && (s.startMonth == s.endMonth ==> s.startDay < s.endDay)
  }

  /** The salary cycles the page accepts. */
  predicate SalaryValid(s: SalarySettings)
  {
    DayInRange(s.payDay) && 1 <= s.cycleLength <= 365
  }

  // ----- validation messages -----

  /** The keys of the `errors` object: one per input field, and `general` for the cross-field check. */
  datatype Field = StartMonth | EndMonth | StartDay | EndDay | General | PayDay | CycleLength

  /** The key as the page writes it. */
  function Key(f: Field): string
  {
    match f
    case StartMonth => "startMonth"
    case EndMonth => "endMonth"
    case StartDay => "startDay"
    case EndDay => "endDay"
    case General => "general"
    case PayDay => "payDay"
    case CycleLength => "cycleLength"
  }

  /** The message shown under each key. */
  function Message(f: Field): string
  {
    match f
    case StartMonth => "开始月份无效"
    case EndMonth => "结束月份无效"
    case StartDay => "开始日期无效"
    case EndDay => "结束日期无效"
    case General => "同月内开始日期不能晚于或等于结束日期"
    case PayDay => "发薪日无效"
    case CycleLength => "周期长度应在1-365天之间"
  }

  const CustomFields: set<Field> := {StartMonth, EndMonth, StartDay, EndDay, General}

  const SalaryFields: set<Field> := {PayDay, CycleLength}

  /** Whether the check behind one key of the custom form fails. */
  predicate CustomRejects(s: CustomSettings, f: Field)
  {
    match f
    case StartMonth => !MonthInRange(s.startMonth)
    case EndMonth => !MonthInRange(s.endMonth)
    case StartDay => !DayInRange(s.startDay)
    case EndDay => !DayInRange(s.endDay)
    case General => s.startMonth == s.endMonth && s.startDay >= s.endDay
    case _ => false
  }

  /** Whether the check behind one key of the salary form fails. */
  predicate SalaryRejects(s: SalarySettings, f: Field)
  {
    match f
    case PayDay => !DayInRange(s.payDay)
    case CycleLength => !(1 <= s.cycleLength <= 365)
    case _ => false
  }

  /** The entries for the failing checks among `fields` of the custom form. */
  function CustomErrorsAmong(s: CustomSettings, fields: set<Field>): map<Field, string>
  {
    map f | f in fields && CustomRejects(s, f) :: Message(f)
  }

  /** Running one more check of the custom form adds its entry exactly when it fails. */
  lemma CustomErrorsStep(s: CustomSettings, fields: set<Field>, f: Field, more: set<Field>)
    requires more == fields + {f}
    ensures CustomErrorsAmong(s, more)
         == if CustomRejects(s, f) then CustomErrorsAmong(s, fields)[f := Message(f)] else CustomErrorsAmong(s, fields)
  {
  }

  /** The `errors` object `validateCustomSettings` leaves: one entry per failing check of the custom form. */
  function CustomErrors(s: CustomSettings): (errors: map<Field, string>)
  {
    CustomErrorsAmong(s, CustomFields)
  }

  /** The `errors` object `validateSalarySettings` leaves. */
  function SalaryErrors(s: SalarySettings): (errors: map<Field, string>)
  {
    map f | f in SalaryFields && SalaryRejects(s, f) :: Message(f)
  }

  /**
   * The custom form reports no error exactly for a valid span; each key appears exactly when
   * its own check fails, the cross-field one whatever else is wrong; no other key appears.
   */
  lemma CustomErrorsEmpty(s: CustomSettings)
    ensures |CustomErrors(s)| == 0 <==> CustomValid(s)
    ensures General in CustomErrors(s) <==> s.startMonth == s.endMonth && s.startDay >= s.endDay
    ensures StartMonth in CustomErrors(s) <==> !MonthInRange(s.startMonth)
    ensures EndMonth in CustomErrors(s) <==> !MonthInRange(s.endMonth)
    ensures StartDay in CustomErrors(s) <==> !DayInRange(s.startDay)
    ensures EndDay in CustomErrors(s) <==> !DayInRange(s.endDay)
    ensures CustomErrors(s).Keys <= CustomFields
  {
    var e := CustomErrors(s);
    if CustomValid(s) {
      assert e == map[];
    } else if !MonthInRange(s.startMonth) {
      assert StartMonth in e;
    } else if !MonthInRange(s.endMonth) {
      assert EndMonth in e;
    } else if !DayInRange(s.startDay) {
      assert StartDay in e;
    } else if !DayInRange(s.endDay) {
      assert EndDay in e;
    } else {
      assert General in e;
    }
  }

  /** The salary form reports no error exactly for a valid salary cycle, and each key exactly when its check fails. */
  lemma SalaryErrorsEmpty(s: SalarySettings)
    ensures |SalaryErrors(s)| == 0 <==> SalaryValid(s)
    ensures PayDay in SalaryErrors(s) <==> !DayInRange(s.payDay)
    ensures CycleLength in SalaryErrors(s) <==> !(1 <= s.cycleLength <= 365)
    ensures SalaryErrors(s).Keys <= SalaryFields
  {
    var e := SalaryErrors(s);
    if SalaryValid(s) {
      assert e == map[];
    } else if !DayInRange(s.payDay) {
      assert PayDay in e;
    } else {
      assert CycleLength in e;
    }
  }

  /** The checks of `validateCustomSettings`, each adding its entry when it fails. */
  method CheckCustom(s: CustomSettings) returns (errors: map<Field, string>)
    ensures errors == CustomErrors(s)
  {
    errors := map[];
    assert errors == CustomErrorsAmong(s, {});
    CustomErrorsStep(s, {}, StartMonth, {StartMonth});
    if s.startMonth < 1 || s.startMonth > 12 {
      errors := errors[StartMonth := "开始月份无效"];
    }
    assert errors == CustomErrorsAmong(s, {StartMonth});
    CustomErrorsStep(s, {StartMonth}, EndMonth, {StartMonth, EndMonth});
    if s.endMonth < 1 || s.endMonth > 12 {
      errors := errors[EndMonth := "结束月份无效"];
    }
    assert errors == CustomErrorsAmong(s, {StartMonth, EndMonth});
    CustomErrorsStep(s, {StartMonth, EndMonth}, StartDay, {StartMonth, EndMonth, StartDay});
    if s.startDay < 1 || s.startDay > 31 {
      errors := errors[StartDay := "开始日期无效"];
    }
    assert errors == CustomErrorsAmong(s, {StartMonth, EndMonth, StartDay});
    CustomErrorsStep(s, {StartMonth, EndMonth, StartDay}, EndDay, {StartMonth, EndMonth, StartDay, EndDay});
    if s.endDay < 1 || s.endDay > 31 {
      errors := errors[EndDay := "结束日期无效"];
    }
    assert errors == CustomErrorsAmong(s, {StartMonth, EndMonth, StartDay, EndDay});
    CustomErrorsStep(s, {StartMonth, EndMonth, StartDay, EndDay}, General, CustomFields);
    if s.startMonth == s.endMonth && s.startDay >= s.endDay {
      errors := errors[General := "同月内开始日期不能晚于或等于结束日期"];
    }
    assert errors == CustomErrorsAmong(s, CustomFields);
  }

  /** The checks of `validateSalarySettings`. */
  method CheckSalary(s: SalarySettings) returns (errors: map<Field, string>)
    ensures errors == SalaryErrors(s)
  {
    errors := map[];
    if s.payDay < 1 || s.payDay > 31 {
      errors := errors[PayDay := "发薪日无效"];
    }
    if s.cycleLength < 1 || s.cycleLength > 365 {
      errors := errors[CycleLength := "周期长度应在1-365天之间"];
    }
    assert errors == SalaryErrors(s);
  }

  // ----- the cycle-length input -----

  /**
   * `Math.max(1, Math.min(365, parseInt(value) || 30))`: text that is not a number (NaN, here
   * None) and 0 fall back to 30, anything else is clamped into 1..365.
   */
  function ClampCycleLength(parsed: Option<int>): (r: int)
    ensures 1 <= r <= 365
    ensures parsed.Some? && 1 <= parsed.value <= 365 ==> r == parsed.value
    ensures parsed.None? || parsed.value == 0 ==> r == 30
    ensures parsed.Some? && parsed.value > 365 ==> r == 365
    ensures parsed.Some? && parsed.value < 0 ==> r == 1
  {
    var length := if parsed.Some? && parsed.value != 0 then parsed.value else 30;
    if length > 365 then 365 else if length < 1 then 1 else length
  }

  /** Whatever was typed, the stored cycle length passes the salary check and clamping it again changes nothing. */
  lemma ClampedLengthAccepted(payDay: int, parsed: Option<int>)
    ensures CycleLength !in SalaryErrors(SalarySettings(payDay, ClampCycleLength(parsed)))
    ensures ClampCycleLength(Some(ClampCycleLength(parsed))) == ClampCycleLength(parsed)
  {
    SalaryErrorsEmpty(SalarySettings(payDay, ClampCycleLength(parsed)));
  }

  // ----- the preview -----

  /** The day before the pay day, read on a 31-day month: pay day 1 gives 31. */
  function PrevDay(payDay: int): (r: int)
    ensures DayInRange(payDay) ==> DayInRange(r) && r % 31 + 1 == payDay
  {
    if payDay == 1 then 31 else payDay - 1
  }

  /** The salary preview, `每月${payDay}日 - 次月${prevDay}日`. */
  function SalaryPreview(payDay: int): string
  {
    "每月" + IntToString(payDay) + "日 - 次月" + IntToString(PrevDay(payDay)) + "日"
  }

  /** The custom preview: the end month is shown only when it differs from the start month. */
  function CustomPreview(c: CustomSettings): string
  {
    if c.startMonth == c.endMonth then
      "每年" + IntToString(c.startMonth) + "月" + IntToString(c.startDay) + "日 - " + IntToString(c.endDay) + "日"
    else
      "每年" + IntToString(c.startMonth) + "月" + IntToString(c.startDay) + "日 - "
      + IntToString(c.endMonth) + "月" + IntToString(c.endDay) + "日"
  }

  /** `updatePreview`: the one-line description of the chosen cycle, empty for an unknown type. */
  function PreviewText(cycleType: string, custom: CustomSettings, salary: SalarySettings): string
  {
    if cycleType == "natural" then "每月1日 - 月末"
    else if cycleType == "salary" then SalaryPreview(salary.payDay)
    else if cycleType == "custom" then CustomPreview(custom)
    else ""
  }

  /** The number a custom preview shows after the start day: the end day, or the end month when it differs. */
  function TailNumber(c: CustomSettings): int
  {
    if c.startMonth == c.endMonth then c.endDay else c.endMonth
  }

  /** What follows that number: the closing 日, or 月 and the end day. */
  function TailRest(c: CustomSettings): string
  {
    if c.startMonth == c.endMonth then "日" else "月" + (IntToString(c.endDay) + "日")
  }

  /** A custom preview read as nested pieces, each number followed by the marker that ends it. */
  lemma CustomPreviewParts(c: CustomSettings)
    ensures CustomPreview(c)
         == "每年" + (IntToString(c.startMonth) + ("月" + (IntToString(c.startDay) + ("日 - " + (IntToString(TailNumber(c)) + TailRest(c))))))
  {
    var sm, sd := IntToString(c.startMonth), IntToString(c.startDay);
    var n, rest := IntToString(TailNumber(c)), TailRest(c);
    var t := n + rest;
    if c.startMonth == c.endMonth {
      Regroup("每年" + sm + "月" + sd + "日 - ", n, rest);
    } else {
      var ed := IntToString(c.endDay);
      Regroup("每年" + sm + "月" + sd + "日 - " + n + "月", ed, "日");
      Regroup("每年" + sm + "月" + sd + "日 - " + n, "月", ed + "日");
      Regroup("每年" + sm + "月" + sd + "日 - ", n, rest);
    }
    Regroup("每年" + sm + "月" + sd, "日 - ", t);
    Regroup("每年" + sm + "月", sd, "日 - " + t);
    Regroup("每年" + sm, "月", sd + ("日 - " + t));
    Regroup("每年", sm, "月" + (sd + ("日 - " + t)));
  }

  /** After the end-month-or-day number, a custom preview tells the end month and day apart. */
  lemma TailInjective(a: CustomSettings, b: CustomSettings)
    requires a.startMonth == b.startMonth && TailNumber(a) == TailNumber(b)
    requires TailRest(a) == TailRest(b)
    ensures a.endMonth == b.endMonth && a.endDay == b.endDay
  {
    // the marker right after the number says whether the end month was shown
    assert TailRest(a)[0] == TailRest(b)[0];
    if a.startMonth != a.endMonth {
      ReadNumber("月", a.endDay, "日", b.endDay, "日");
    }
  }

  /** Two custom spans with the same preview are the same span: the preview loses nothing. */
  lemma CustomPreviewInjective(a: CustomSettings, b: CustomSettings)
    requires CustomPreview(a) == CustomPreview(b)
    ensures a == b
  {
    CustomPreviewParts(a);
    CustomPreviewParts(b);
    var tailA := "日 - " + (IntToString(TailNumber(a)) + TailRest(a));
    var tailB := "日 - " + (IntToString(TailNumber(b)) + TailRest(b));
    ReadNumber("每年", a.startMonth, "月" + (IntToString(a.startDay) + tailA),
               b.startMonth, "月" + (IntToString(b.startDay) + tailB));
    ReadNumber("月", a.startDay, tailA, b.startDay, tailB);
    ReadNumber("日 - ", TailNumber(a), TailRest(a), TailNumber(b), TailRest(b));
    TailInjective(a, b);
  }

  /** A salary preview names the pay day it was made from. */
  lemma SalaryPreviewInjective(p: int, q: int)
    requires SalaryPreview(p) == SalaryPreview(q)
    ensures p == q
  {
    var restP := "日 - 次月" + (IntToString(PrevDay(p)) + "日");
    var restQ := "日 - 次月" + (IntToString(PrevDay(q)) + "日");
    Regroup("每月" + IntToString(p) + "日 - 次月", IntToString(PrevDay(p)), "日");
    Regroup("每月" + IntToString(p), "日 - 次月", IntToString(PrevDay(p)) + "日");
    Regroup("每月", IntToString(p), restP);
    Regroup("每月" + IntToString(q) + "日 - 次月", IntToString(PrevDay(q)), "日");
    Regroup("每月" + IntToString(q), "日 - 次月", IntToString(PrevDay(q)) + "日");
    Regroup("每月", IntToString(q), restQ);
    ReadNumber("每月", p, restP, q, restQ);
  }

  // ----- the page -----

  class CustomCyclePage {
    /** `cycleType`: 'natural', 'salary' or 'custom' (any other value shows no preview). */
    var cycleType: string
    var custom: CustomSettings
    var salary: SalarySettings
    var previewText: string
    /** `errors`: error key to message. */
    var errors: map<Field, string>

    /** The page's initial data. */
    constructor ()
      ensures cycleType == "natural"
      ensures custom == CustomSettings(1, 1, 12, 31) && salary == SalarySettings(15, 30)
      ensures previewText == "" && errors == map[]
    {
      cycleType := "natural";
      custom := CustomSettings(1, 1, 12, 31);
      salary := SalarySettings(15, 30);
      previewText := "";
      errors := map[];
    }

    /** `updatePreview`. */
    method UpdatePreview()
      modifies this
      ensures previewText == PreviewText(cycleType, custom, salary)
      ensures cycleType == old(cycleType) && custom == old(custom) && salary == old(salary) && errors == old(errors)
    {
      previewText := PreviewText(cycleType, custom, salary);
    }

    /** `validateCustomSettings`: the errors are replaced by those of the custom form; true when there are none. */
    method ValidateCustomSettings() returns (ok: bool)
      modifies this
      ensures errors == CustomErrors(custom)
      ensures ok <==> CustomValid(custom)
      ensures cycleType == old(cycleType) && custom == old(custom) && salary == old(salary)
      ensures previewText == old(previewText)
    {
      var s := custom;
      var e := CheckCustom(s);
      errors := e;
      CustomErrorsEmpty(s);
      ok := |e| == 0;
    }

    /** `validateSalarySettings`. */
    method ValidateSalarySettings() returns (ok: bool)
      modifies this
      ensures errors == SalaryErrors(salary)
      ensures ok <==> SalaryValid(salary)
      ensures cycleType == old(cycleType) && custom == old(custom) && salary == old(salary)
      ensures previewText == old(previewText)
    {
      var s := salary;
      var e := CheckSalary(s);
      errors := e;
      SalaryErrorsEmpty(s);
      ok := |e| == 0;
    }

    /** `clearFieldError`: the field's error and the cross-field error go, the rest stay. */
    method ClearFieldError(field: Field)
      modifies this
      ensures errors == old(errors) - {field, General}
      ensures cycleType == old(cycleType) && custom == old(custom) && salary == old(salary)
      ensures previewText == old(previewText)
    {
      errors := errors - {field, General};
    }

    /** `onCycleLengthInput`: the typed length, clamped, replaces the cycle length. */
    method OnCycleLengthInput(parsed: Option<int>)
      modifies this
      ensures salary == old(salary).(cycleLength := ClampCycleLength(parsed))
      ensures 1 <= salary.cycleLength <= 365
      ensures previewText == PreviewText(cycleType, custom, salary)
      ensures errors == old(errors) - {CycleLength, General}
      ensures cycleType == old(cycleType) && custom == old(custom)
    {
      salary := salary.(cycleLength := ClampCycleLength(parsed));
      UpdatePreview();
      ClearFieldError(CycleLength);
    }

    /** `onPayDayChange`: picker entry `index` is pay day index + 1. */
    method OnPayDayChange(index: int)
      modifies this
      ensures salary == old(salary).(payDay := index + 1)
      ensures previewText == PreviewText(cycleType, custom, salary)
      ensures errors == old(errors) - {PayDay, General}
      ensures cycleType == old(cycleType) && custom == old(custom)
    {
      salary := salary.(payDay := index + 1);
      UpdatePreview();
      ClearFieldError(PayDay);
    }

    /** `onStartMonthChange`. */
    method OnStartMonthChange(index: int)
      modifies this
      ensures custom == old(custom).(startMonth := index + 1)
      ensures previewText == PreviewText(cycleType, custom, salary)
      ensures errors == old(errors) - {StartMonth, General}
      ensures cycleType == old(cycleType) && salary == old(salary)
    {
      custom := custom.(startMonth := index + 1);
      UpdatePreview();
      ClearFieldError(StartMonth);
    }

    /** `onStartDayChange`. */
    method OnStartDayChange(index: int)
      modifies this
      ensures custom == old(custom).(startDay := index + 1)
      ensures previewText == PreviewText(cycleType, custom, salary)
      ensures errors == old(errors) - {StartDay, General}
      ensures cycleType == old(cycleType) && salary == old(salary)
    {
      custom := custom.(startDay := index + 1);
      UpdatePreview();
      ClearFieldError(StartDay);
    }

    /** `onEndMonthChange`. */
    method OnEndMonthChange(index: int)
      modifies this
      ensures custom == old(custom).(endMonth := index + 1)
      ensures previewText == PreviewText(cycleType, custom, salary)
      ensures errors == old(errors) - {EndMonth, General}
      ensures cycleType == old(cycleType) && salary == old(salary)
    {
      custom := custom.(endMonth := index + 1);
      UpdatePreview();
      ClearFieldError(EndMonth);
    }

    /** `onEndDayChange`. */
    method OnEndDayChange(index: int)
      modifies this
      ensures custom == old(custom).(endDay := index + 1)
      ensures previewText == PreviewText(cycleType, custom, salary)
      ensures errors == old(errors) - {EndDay, General}
      ensures cycleType == old(cycleType) && salary == old(salary)
    {
      custom := custom.(endDay := index + 1);
      UpdatePreview();
      ClearFieldError(EndDay);
    }

    /** `onCycleTypeChange`. */
    method OnCycleTypeChange(cycleType: string)
      modifies this
      ensures this.cycleType == cycleType
      ensures previewText == PreviewText(cycleType, custom, salary)
      ensures custom == old(custom) && salary == old(salary) && errors == old(errors)
    {
      this.cycleType := cycleType;
      UpdatePreview();
    }
  }

  /** The built-in templates: the semester span 9/1 to 8/31 and the pay days 15 and 25 pass validation. */
  lemma TemplatesValid()
    ensures |CustomErrors(CustomSettings(9, 1, 8, 31))| == 0
    ensures |SalaryErrors(SalarySettings(15, 30))| == 0 && |SalaryErrors(SalarySettings(25, 30))| == 0
  {
    CustomErrorsEmpty(CustomSettings(9, 1, 8, 31));
    SalaryErrorsEmpty(SalarySettings(15, 30));
    SalaryErrorsEmpty(SalarySettings(25, 30));
  }
}
