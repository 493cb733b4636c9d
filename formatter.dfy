/**
 * Display helpers of utils/formatter.js on integers: durations in Chinese units, numbers with
 * thousands separators, and money amounts in cents (rendered as yuan, parsed back from what a
 * user types, and validated).
 */
module Formatter {
  import opened Wrappers
  import opened Strings
  import DateRange

  // ---------------------------------------------------------------- digit runs

  /** The length of the run of digits a string starts with. */
  function DigitRun(s: string): (n: nat)
    ensures n <= |s| && AllDigits(s[..n])
    ensures n == |s| || !IsDigit(s[n])
  {
    if |s| > 0 && IsDigit(s[0]) then
      var m := DigitRun(s[1..]);
      assert s[..m + 1] == [s[0]] + s[1..][..m];
      m + 1
    else 0
  }

  /** A run of digits followed by a non-digit ends exactly there. */
  lemma {:induction false} DigitRunOf(d: string, t: string)
    requires AllDigits(d) && (|t| == 0 || !IsDigit(t[0]))
    ensures DigitRun(d + t) == |d|
  {
    if |d| > 0 {
      assert (d + t)[1..] == d[1..] + t;
      DigitRunOf(d[1..], t);
    }
  }

  // ---------------------------------------------------------------- formatDuration

  /** `formatDuration` on a whole number of seconds. */
  function FormatDuration(seconds: int): string
  {
    if seconds < 60 then IntToString(seconds) + "秒"
    else if seconds < 3600 then MinutesText(seconds / 60, seconds % 60)
    else HoursText(seconds / 3600, (seconds % 3600) / 60)
  }

  /** Minutes and the remaining seconds; no seconds part when there are none. */
  function MinutesText(minutes: nat, remaining: nat): string
  {
    if remaining > 0 then NatToString(minutes) + "分" + NatToString(remaining) + "秒"
    else NatToString(minutes) + "分钟"
  }

  /** Hours and the remaining whole minutes; no minutes part when there are none. */
  function HoursText(hours: nat, minutes: nat): string
  {
    if minutes > 0 then NatToString(hours) + "小时" + NatToString(minutes) + "分钟"
    else NatToString(hours) + "小时"
  }

  /** Reads a duration in the forms `formatDuration` writes back as seconds. */
  function ParseDuration(s: string): Option<int>
  {
    var n := DigitRun(s);
    if n == 0 then None else ParseUnits(ParseNat(s[..n]), s[n..])
  }

  /** The units after the leading number `n`: one unit, or a unit, a second number and its unit. */
  function ParseUnits(n: nat, rest: string): Option<int>
  {
    if rest == "秒" then Some(n)
    else if rest == "分钟" then Some(60 * n)
    else if rest == "小时" then Some(3600 * n)
    else if |rest| > 1 && rest[0] == '分' then
      var p := SecondNumber(rest[1..], "秒");
      if p.Some? then Some(60 * n + p.value) else None
    else if |rest| > 2 && rest[..2] == "小时" then
      var p := SecondNumber(rest[2..], "分钟");
      if p.Some? then Some(3600 * n + 60 * p.value) else None
    else None
  }

  /** The second number of a two-unit text, followed by exactly its unit. */
  function SecondNumber(tail: string, unit: string): Option<nat>
  {
    var m := DigitRun(tail);
    if m > 0 && tail[m..] == unit then Some(ParseNat(tail[..m])) else None
  }

  /** The number a duration text starts with is read whole, and the units follow it. */
  lemma {:induction false} ParseLeading(a: nat, rest: string)
    requires |rest| > 0 && !IsDigit(rest[0])
    ensures ParseDuration(NatToString(a) + rest) == ParseUnits(a, rest)
  {
    var s := NatToString(a) + rest;
    DigitRunOf(NatToString(a), rest);
    assert s[..|NatToString(a)|] == NatToString(a);
    assert s[|NatToString(a)|..] == rest;
    ParseNatToString(a);
  }

  /** A number followed by one unit. */
  lemma {:induction false} ParseOneUnit(n: nat, unit: string)
    requires unit == "秒" || unit == "分钟" || unit == "小时"
    ensures ParseDuration(NatToString(n) + unit)
      == Some(if unit == "秒" then n else if unit == "分钟" then 60 * n else 3600 * n)
  {
    ParseLeading(n, unit);
  }

  /** The second number of a two-unit text is read whole too. */
  lemma {:induction false} ParseSecond(b: nat, unit: string)
    requires |unit| > 0 && !IsDigit(unit[0])
    ensures SecondNumber(NatToString(b) + unit, unit) == Some(b)
  {
    var tail := NatToString(b) + unit;
    DigitRunOf(NatToString(b), unit);
    assert tail[..|NatToString(b)|] == NatToString(b);
    ParseNatToString(b);
  }

  /** A minute mark followed by a digit leads to the seconds branch. */
  lemma UnitsAfterMinute(a: nat, tail: string)
    requires |tail| > 0 && IsDigit(tail[0])
    ensures ParseUnits(a, "分" + tail)
      == (var p := SecondNumber(tail, "秒"); if p.Some? then Some(60 * a + p.value) else None)
  {
    var rest := "分" + tail;
    assert rest[1..] == tail && rest[1] == tail[0];
  }

  /** An hour mark followed by a digit leads to the minutes branch. */
  lemma UnitsAfterHour(a: nat, tail: string)
    requires |tail| > 0 && IsDigit(tail[0])
    ensures ParseUnits(a, "小时" + tail)
      == (var p := SecondNumber(tail, "分钟"); if p.Some? then Some(3600 * a + 60 * p.value) else None)
  {
    var rest := "小时" + tail;
    assert rest[0] == '小' && rest[1] == '时' && rest[2] == tail[0];
    assert rest[..2] == "小时" && rest[2..] == tail;
  }

  /** Minutes and seconds, after the minutes have been read. */
  lemma {:induction false} ParseUnitsMinutesSeconds(a: nat, b: nat)
    ensures ParseUnits(a, "分" + NatToString(b) + "秒") == Some(60 * a + b)
  {
    var tail := NatToString(b) + "秒";
    assert "分" + NatToString(b) + "秒" == "分" + tail;
    UnitsAfterMinute(a, tail);
    ParseSecond(b, "秒");
  }

  /** Minutes and seconds. */
  lemma {:induction false} ParseMinutesSeconds(a: nat, b: nat)
    ensures ParseDuration(NatToString(a) + "分" + NatToString(b) + "秒") == Some(60 * a + b)
  {
    var rest := "分" + NatToString(b) + "秒";
    assert NatToString(a) + "分" + NatToString(b) + "秒" == NatToString(a) + rest;
    ParseLeading(a, rest);
    ParseUnitsMinutesSeconds(a, b);
  }

  /** Hours and minutes, after the hours have been read. */
  lemma {:induction false} ParseUnitsHoursMinutes(a: nat, b: nat)
    ensures ParseUnits(a, "小时" + NatToString(b) + "分钟") == Some(3600 * a + 60 * b)
  {
    var tail := NatToString(b) + "分钟";
    assert "小时" + NatToString(b) + "分钟" == "小时" + tail;
    UnitsAfterHour(a, tail);
    ParseSecond(b, "分钟");
  }

  /** Hours and minutes. */
  lemma {:induction false} ParseHoursMinutes(a: nat, b: nat)
    ensures ParseDuration(NatToString(a) + "小时" + NatToString(b) + "分钟") == Some(3600 * a + 60 * b)
  {
    var rest := "小时" + NatToString(b) + "分钟";
    assert NatToString(a) + "小时" + NatToString(b) + "分钟" == NatToString(a) + rest;
    ParseLeading(a, rest);
    ParseUnitsHoursMinutes(a, b);
  }

  /** Whole hours plus whole minutes are the seconds cut to whole minutes. */
  lemma {:induction false} HoursAndMinutes(s: nat)
    ensures 3600 * (s / 3600) + 60 * ((s % 3600) / 60) == s - s % 60
  {
    var h, r := s / 3600, s % 3600;
    var q, m := r / 60, r % 60;
    assert s == 3600 * h + r;
    assert r == 60 * q + m;
    assert s == 60 * (60 * h + q) + m;
    MinuteSplitUnique(s, 60 * h + q, m);
  }

  /** Whole minutes and leftover seconds that rebuild `n` are its `/ 60` and `% 60`. */
  lemma MinuteSplitUnique(n: nat, q: nat, m: nat)
    requires m < 60 && n == 60 * q + m
    ensures n / 60 == q && n % 60 == m
  {
  }

  /** The minutes text reads back as its seconds. */
  lemma {:induction false} MinutesTextRoundTrip(m: nat, r: nat)
    ensures ParseDuration(MinutesText(m, r)) == Some(60 * m + r)
  {
    if r > 0 {
      ParseMinutesSeconds(m, r);
    } else {
      ParseOneUnit(m, "分钟");
    }
  }

  /** The hours text reads back as its seconds. */
  lemma {:induction false} HoursTextRoundTrip(h: nat, m: nat)
    ensures ParseDuration(HoursText(h, m)) == Some(3600 * h + 60 * m)
  {
    if m > 0 {
      ParseHoursMinutes(h, m);
    } else {
      ParseOneUnit(h, "小时");
    }
  }

  lemma {:induction false} DurationMinutes(seconds: nat)
    requires 60 <= seconds < 3600
    ensures ParseDuration(FormatDuration(seconds)) == Some(seconds)
  {
    var m, r := seconds / 60, seconds % 60;
    assert FormatDuration(seconds) == MinutesText(m, r);
    assert 60 * m + r == seconds;
    MinutesTextRoundTrip(m, r);
  }

  lemma {:induction false} DurationHours(seconds: nat)
    requires 3600 <= seconds
    ensures ParseDuration(FormatDuration(seconds)) == Some(seconds - seconds % 60)
  {
    var h, m := seconds / 3600, (seconds % 3600) / 60;
    assert FormatDuration(seconds) == HoursText(h, m);
    HoursTextRoundTrip(h, m);
    HoursAndMinutes(seconds);
  }

  lemma {:induction false} DurationSeconds(seconds: nat)
    requires seconds < 60
    ensures ParseDuration(FormatDuration(seconds)) == Some(seconds)
  {
    assert FormatDuration(seconds) == NatToString(seconds) + "秒";
    ParseOneUnit(seconds, "秒");
  }

  /**
   * The text reads back as the duration: exactly for less than an hour, and for an hour or more
   * as the duration cut to whole minutes (the seconds are not shown).
   */
  lemma {:induction false} FormatDurationRoundTrip(seconds: nat)
    ensures ParseDuration(FormatDuration(seconds)) == Some(if seconds < 3600 then seconds else seconds - seconds % 60)
  {
    if seconds < 60 {
      DurationSeconds(seconds);
    } else if seconds < 3600 {
      DurationMinutes(seconds);
    } else {
      DurationHours(seconds);
    }
  }

  // ---------------------------------------------------------------- thousands separators

  /** `replace(/\B(?=(\d{3})+(?!\d))/g, ',')` on a run of digits: a comma before every third digit from the right. */
  function Group(d: string): (r: string)
    decreases |d|
  {
    if |d| <= 3 then d else Group(d[..|d| - 3]) + "," + d[|d| - 3..]
  }

  /** Splitting at the last separator: the text after it is the last part. */
  lemma {:induction false} SplitAppendLast(a: string, sep: char, b: string)
    requires sep !in b
    ensures Split(a + [sep] + b, sep) == Split(a, sep) + [b]
  {
    if |a| == 0 {
      assert a + [sep] + b == [sep] + b;
      SplitNoSep(b, sep);
      assert Split("", sep) == [""];
    } else {
      assert (a + [sep] + b)[1..] == a[1..] + [sep] + b;
      SplitAppendLast(a[1..], sep, b);
    }
  }

  /**
   * Grouped digits split at the commas into a first group of one to three digits and groups of
   * exactly three, which joined together give the digits back.
   */
  lemma {:induction false} GroupSpec(d: string)
    requires |d| >= 1 && AllDigits(d)
    ensures var parts := Split(Group(d), ',');
      |parts| == (|d| - 1) / 3 + 1
      && 1 <= |parts[0]| <= 3
      && (forall k :: 1 <= k < |parts| ==> |parts[k]| == 3)
      && (forall k :: 0 <= k < |parts| ==> AllDigits(parts[k]))
      && Join(parts, "") == d
  {
    if |d| <= 3 {
      assert forall k :: 0 <= k < |d| ==> d[k] != ',';
      SplitNoSep(d, ',');
    } else {
      var a, b := d[..|d| - 3], d[|d| - 3..];
      GroupSpec(a);
      assert forall k :: 0 <= k < |b| ==> b[k] != ',';
      SplitAppendLast(Group(a), ',', b);
      JoinAppend(Split(Group(a), ','), b, "");
      assert a + "" + b == d;
    }
  }

  /** `formatNumber` on an integer: null, undefined or NaN (None) give "0" without the unit. */
  function FormatNumber(value: Option<int>, decimals: nat, separator: bool, unit: string): string
  {
    if value.None? then "0"
    else
      var v := value.value;
      var digits := NatToString(if v < 0 then -v else v);
      (if v < 0 then "-" else "") + (if separator then Group(digits) else digits)
        + (if decimals > 0 then "." + Zeros(decimals) else "") + unit
  }

  /** `toFixed` pads an integer with this many zeros after the point. */
  function Zeros(n: nat): (r: string)
    ensures |r| == n && forall k :: 0 <= k < n ==> r[k] == '0'
  {
    if n == 0 then "" else Zeros(n - 1) + "0"
  }

  // ---------------------------------------------------------------- amounts

  /** The characters `/[¥￥$,\s]/g` removes before an amount is read. */
  predicate Ignored(c: char)
  {
    c == '¥' || c == '￥' || c == '$' || c == ',' || IsWhitespace(c)
  }

  function Clean(s: string): string
  {
    if |s| == 0 then ""
    else if Ignored(s[|s| - 1]) then Clean(s[..|s| - 1])
    else Clean(s[..|s| - 1]) + [s[|s| - 1]]
  }

  lemma {:induction false} CleanAppend(a: string, b: string)
    ensures Clean(a + b) == Clean(a) + Clean(b)
  {
    if |b| > 0 {
      assert (a + b)[..|a + b| - 1] == a + b[..|b| - 1];
      CleanAppend(a, b[..|b| - 1]);
    } else {
      assert a + b == a;
    }
  }

  /** Text with nothing to remove is left as it is. */
  lemma {:induction false} CleanKeeps(s: string)
    requires forall k :: 0 <= k < |s| ==> !Ignored(s[k])
    ensures Clean(s) == s
  {
    if |s| > 0 {
      CleanKeeps(s[..|s| - 1]);
    }
  }

  /** Removing the separators from grouped digits gives the digits back. */
  lemma {:induction false} CleanGroup(d: string)
    requires AllDigits(d)
    ensures Clean(Group(d)) == d
  {
    if |d| <= 3 {
      CleanKeeps(d);
    } else {
      var a, b := d[..|d| - 3], d[|d| - 3..];
      CleanGroup(a);
      CleanAppend(Group(a) + ",", b);
      CleanAppend(Group(a), ",");
      CleanKeeps(b);
      assert a + b == d;
    }
  }

  /** The number `parseFloat` reads from the start of a string: sign, whole digits, fraction digits. */
  datatype Decimal = Decimal(negative: bool, whole: string, fraction: string)

  function ParseFloatPrefix(s: string): (r: Option<Decimal>)
    ensures r.Some? ==> AllDigits(r.value.whole) && AllDigits(r.value.fraction)
  {
    if |s| > 0 && s[0] == '-' then ParseUnsigned(true, s[1..])
    else if |s| > 0 && s[0] == '+' then ParseUnsigned(false, s[1..])
    else ParseUnsigned(false, s)
  }

  /** The number after the sign: at least one digit before or after an optional point. */
  function ParseUnsigned(negative: bool, body: string): (r: Option<Decimal>)
    ensures r.Some? ==> AllDigits(r.value.whole) && AllDigits(r.value.fraction)
  {
    var n := DigitRun(body);
    var f := Fraction(body[n..]);
    if n + |f| == 0 then None else Some(Decimal(negative, body[..n], f))
  }

  /** The digits after a leading point, if there is one. */
  function Fraction(rest: string): (f: string)
    ensures AllDigits(f)
  {
    if |rest| > 0 && rest[0] == '.' then rest[1..][..DigitRun(rest[1..])] else ""
  }

  lemma {:induction false} FractionOf(p: string)
    requires AllDigits(p)
    ensures Fraction("." + p) == p
  {
    assert ("." + p)[1..] == p;
    DigitRunOf(p, "");
    assert p + "" == p;
  }

  lemma {:induction false} UnsignedOf(negative: bool, d: string, p: string)
    requires |d| >= 1 && AllDigits(d) && AllDigits(p)
    ensures ParseUnsigned(negative, d + ("." + p)) == Some(Decimal(negative, d, p))
  {
    var body := d + ("." + p);
    DigitRunOf(d, "." + p);
    assert body[|d|..] == "." + p;
    assert body[..|d|] == d;
    FractionOf(p);
  }

  function Pow10(k: nat): (r: nat)
    ensures r >= 1
  {
    if k == 0 then 1 else 10 * Pow10(k - 1)
  }

  /** The digits of a decimal as one integer: its value times `10^|fraction|`. */
  function Scaled(d: Decimal): nat
    requires AllDigits(d.whole) && AllDigits(d.fraction)
  {
    ParseNat(d.whole) * Pow10(|d.fraction|) + ParseNat(d.fraction)
  }

  /** `Math.round(amount * 100)`: the value in cents, halves rounded up. */
  function RoundCents(d: Decimal): int
    requires AllDigits(d.whole) && AllDigits(d.fraction)
  {
    var n := Scaled(d);
    var k := Pow10(|d.fraction|);
    if d.negative then (k - 200 * n) / (2 * k) else (200 * n + k) / (2 * k)
  }

  /** `parseAmount`: 0 for an empty or unreadable string, otherwise the amount in cents. */
  function ParseAmount(amountStr: Option<string>): int
  {
    if amountStr.None? || amountStr.value == "" then 0
    else
      var d := ParseFloatPrefix(Clean(amountStr.value));
      if d.None? then 0 else RoundCents(d.value)
  }

  /** Nothing, the empty string, and a string with no digit left after cleaning all read as 0 cents. */
  lemma ParseAmountUnreadable(x: string)
    requires forall k :: 0 <= k < |Clean(x)| ==> !IsDigit(Clean(x)[k])
    ensures ParseAmount(None) == 0 && ParseAmount(Some("")) == 0
    ensures ParseAmount(Some(x)) == 0
  {
  }

  /** `/^\d+(\.\d{1,2})?$/`. */
  predicate AmountShape(s: string)
  {
    var n := DigitRun(s);
    n >= 1 && (n == |s| || (s[n] == '.' && 2 <= |s| - n <= 3 && AllDigits(s[n + 1..])))
  }

  /** `isValidAmount`: after cleaning, digits with at most two decimals, read as a non-negative number. */
  predicate IsValidAmount(amountStr: Option<string>)
  {
    amountStr.Some? && amountStr.value != ""
    && var c := Clean(amountStr.value);
    AmountShape(c) && ParseFloatPrefix(c).Some? && !ParseFloatPrefix(c).value.negative
  }

  /** A string of the amount shape is read with its whole fraction, of at most two digits. */
  lemma AmountShapeFraction(c: string)
    requires AmountShape(c)
    ensures ParseFloatPrefix(c).Some? && |ParseFloatPrefix(c).value.fraction| <= 2
  {
    var n := DigitRun(c);
    assert IsDigit(c[0]);
    if n < |c| {
      DigitRunOf(c[n + 1..], "");
      assert c[n + 1..] + "" == c[n + 1..];
      assert c[n..][1..] == c[n + 1..];
    }
  }

  /** Rounding a non-negative amount with at most two decimals to cents loses nothing. */
  lemma RoundCentsExact(d: Decimal)
    requires AllDigits(d.whole) && AllDigits(d.fraction)
    requires !d.negative && |d.fraction| <= 2
    ensures RoundCents(d) >= 0 && RoundCents(d) * Pow10(|d.fraction|) == 100 * Scaled(d)
  {
    var n := Scaled(d);
    if |d.fraction| == 1 {
      assert Pow10(1) == 10;
      assert (200 * n + 10) / 20 == 10 * n;
    } else if |d.fraction| == 2 {
      assert Pow10(2) == 100;
      assert (200 * n + 100) / 200 == n;
    } else {
      assert (200 * n + 1) / 2 == 100 * n;
    }
  }

  /** With at most two decimals, the conversion to cents is exact and never negative. */
  lemma ValidAmountExact(amountStr: Option<string>)
    requires IsValidAmount(amountStr)
    ensures var d := ParseFloatPrefix(Clean(amountStr.value)).value;
      |d.fraction| <= 2
      && ParseAmount(amountStr) >= 0
      && ParseAmount(amountStr) * Pow10(|d.fraction|) == 100 * Scaled(d)
  {
    AmountShapeFraction(Clean(amountStr.value));
    RoundCentsExact(ParseFloatPrefix(Clean(amountStr.value)).value);
  }

  // ---------------------------------------------------------------- formatAmount

  /** `value.toFixed(2)` for `whole` and `cents` hundredths, the separators added when asked. */
  function AmountText(negative: bool, whole: nat, cents: nat, separator: bool): string
    requires cents < 100
  {
    var digits := NatToString(whole);
    (if negative then "-" else "") + ((if separator then Group(digits) else digits) + ("." + DateRange.Pad2(cents)))
  }

  /** The sign and symbol `formatAmount` puts in front of the number. */
  function Decorate(text: string, amount: int, showSymbol: bool, showSign: bool): string
  {
    var signed := if showSign && amount > 0 then "+" + text else text;
    if showSymbol then "¥" + signed else signed
  }

  function Abs(c: int): nat
  {
    if c < 0 then -c else c
  }

  /** `toFixed(2)` of the amount, divided by 100 first when `divide` holds. */
  function AmountTextOf(c: int, divide: bool, separator: bool): string
  {
    if divide then AmountText(c < 0, Abs(c) / 100, Abs(c) % 100, separator)
    else AmountText(c < 0, Abs(c), 0, separator)
  }

  /**
   * `formatAmount` on an amount in cents with two decimals: null, undefined and NaN (None) give
   * "0.00"; with unit 'yuan' the amount is divided by 100 only when its absolute value is at least
   * 100, so smaller amounts are shown as that many yuan.
   */
  function FormatAmount(amount: Option<int>, unit: string, showSymbol: bool, showSign: bool, separator: bool): string
  {
    if amount.None? then "0.00"
    else
      var c := amount.value;
      Decorate(AmountTextOf(c, unit == "yuan" && Abs(c) >= 100, separator), c, showSymbol, showSign)
  }

  /** The same with every amount in cents converted to yuan when the unit is 'yuan'. */
  function FormatAmountFixed(amount: Option<int>, unit: string, showSymbol: bool, showSign: bool, separator: bool): string
  {
    if amount.None? then "0.00"
    else
      var c := amount.value;
      Decorate(AmountTextOf(c, unit == "yuan", separator), c, showSymbol, showSign)
  }

  /** Two-digit cents pad to exactly two digits that read back as the cents. */
  lemma Pad2Cents(cents: nat)
    requires cents < 100
    ensures var p := DateRange.Pad2(cents); |p| == 2 && AllDigits(p) && ParseNat(p) == cents
  {
    DateRange.Pad2Spec(cents);
    if cents >= 10 {
      assert |NatToString(cents / 10)| == 1;
    }
  }

  /** Cleaning leaves digits alone, and grouped digits lose their separators. */
  lemma {:induction false} CleanNumber(digits: string, separator: bool)
    requires AllDigits(digits)
    ensures Clean(if separator then Group(digits) else digits) == digits
  {
    if separator {
      CleanGroup(digits);
    } else {
      CleanKeeps(digits);
    }
  }

  /** Cleaning a rendered amount leaves its sign, its digits, the point and the two decimals. */
  lemma {:induction false} CleanAmountText(negative: bool, whole: nat, cents: nat, separator: bool)
    requires cents < 100
    ensures Clean(AmountText(negative, whole, cents, separator))
      == (if negative then "-" else "") + (NatToString(whole) + ("." + DateRange.Pad2(cents)))
  {
    var digits := NatToString(whole);
    var sign := if negative then "-" else "";
    var grouped := if separator then Group(digits) else digits;
    var tail := "." + DateRange.Pad2(cents);
    Pad2Cents(cents);
    assert Clean(tail) == tail by {
      CleanKeeps(tail);
    }
    assert Clean(grouped) == digits by {
      CleanNumber(digits, separator);
    }
    assert Clean(sign) == sign by {
      CleanKeeps(sign);
    }
    CleanAppend(grouped, tail);
    CleanAppend(sign, grouped + tail);
  }

  /** The symbol disappears in cleaning and a plus sign stays. */
  lemma {:induction false} CleanDecorated(text: string, amount: int, showSymbol: bool, showSign: bool)
    ensures Clean(Decorate(text, amount, showSymbol, showSign))
      == (if showSign && amount > 0 then "+" else "") + Clean(text)
  {
    var signed := if showSign && amount > 0 then "+" + text else text;
    assert Clean(signed) == (if showSign && amount > 0 then "+" else "") + Clean(text) by {
      CleanAppend("+", text);
      CleanKeeps("+");
    }
    assert Clean("¥" + signed) == Clean(signed) by {
      CleanAppend("¥", signed);
      assert Clean("¥") == "";
    }
  }

  /** `parseFloat` reads a signed `digits.dd` back as its sign, whole digits and decimals. */
  lemma {:induction false} ParseNumberText(sign: string, d: string, p: string)
    requires sign == "" || sign == "-" || sign == "+"
    requires |d| >= 1 && AllDigits(d) && AllDigits(p)
    ensures ParseFloatPrefix(sign + (d + ("." + p))) == Some(Decimal(sign == "-", d, p))
  {
    var body := d + ("." + p);
    var s := sign + body;
    if sign == "" {
      assert ParseFloatPrefix(s) == ParseUnsigned(false, body) by {
        assert s == body;
        assert IsDigit(body[0]);
      }
    } else {
      assert ParseFloatPrefix(s) == ParseUnsigned(sign == "-", body) by {
        assert s[0] == sign[0] && s[1..] == body;
      }
    }
    UnsignedOf(sign == "-", d, p);
  }

  /** Two decimals read back as exactly that many cents, with the sign. */
  lemma {:induction false} RoundTwoDecimals(negative: bool, d: string, p: string)
    requires AllDigits(d) && |p| == 2 && AllDigits(p)
    ensures var n := ParseNat(d) * 100 + ParseNat(p);
      RoundCents(Decimal(negative, d, p)) == if negative then -n else n
  {
    var n := ParseNat(d) * 100 + ParseNat(p);
    assert Pow10(2) == 100;
    assert Scaled(Decimal(negative, d, p)) == n;
    assert (200 * n + 100) / 200 == n;
    assert (100 - 200 * n) / 200 == -n;
  }

  /** What the cleaned text of a rendered amount is. */
  lemma {:induction false} CleanRendered(negative: bool, whole: nat, cents: nat, c: int, showSymbol: bool, showSign: bool, separator: bool)
    requires cents < 100 && negative == (c < 0)
    ensures var sign := if negative then "-" else if showSign && c > 0 then "+" else "";
      Clean(Decorate(AmountText(negative, whole, cents, separator), c, showSymbol, showSign))
        == sign + (NatToString(whole) + ("." + DateRange.Pad2(cents)))
  {
    var text := AmountText(negative, whole, cents, separator);
    var rest := NatToString(whole) + ("." + DateRange.Pad2(cents));
    CleanAmountText(negative, whole, cents, separator);
    CleanDecorated(text, c, showSymbol, showSign);
    assert "" + rest == rest;
    if negative {
      assert "" + ("-" + rest) == "-" + rest;
    }
  }

  /** A non-empty text is read as whatever `parseFloat` finds in its cleaned form. */
  lemma ParseAmountOf(x: string, d: Decimal)
    requires x != "" && ParseFloatPrefix(Clean(x)) == Some(d)
    ensures ParseAmount(Some(x)) == RoundCents(d)
  {
  }

  /** The cleaned rendering reads as the decimal of its whole yuan and cent digits. */
  lemma {:induction false} ReadRendered(sign: string, negative: bool, whole: nat, cents: nat)
    requires cents < 100 && (sign == "-" || sign == "+" || sign == "") && (negative <==> sign == "-")
    ensures var d, p := NatToString(whole), DateRange.Pad2(cents);
      ParseFloatPrefix(sign + (d + ("." + p))) == Some(Decimal(negative, d, p))
  {
    Pad2Cents(cents);
    ParseNumberText(sign, NatToString(whole), DateRange.Pad2(cents));
  }

  /** That decimal rounds to the cents it was rendered from. */
  lemma {:induction false} RoundRendered(negative: bool, whole: nat, cents: nat)
    requires cents < 100
    ensures RoundCents(Decimal(negative, NatToString(whole), DateRange.Pad2(cents)))
      == if negative then -(whole * 100 + cents) else whole * 100 + cents
  {
    Pad2Cents(cents);
    ParseNatToString(whole);
    RoundTwoDecimals(negative, NatToString(whole), DateRange.Pad2(cents));
  }

  /** Rendering `whole` yuan and `cents` and reading the text back gives the cents, with the sign. */
  lemma {:induction false} ParseRendered(negative: bool, whole: nat, cents: nat, c: int, showSymbol: bool, showSign: bool, separator: bool)
    requires cents < 100 && negative == (c < 0)
    ensures ParseAmount(Some(Decorate(AmountText(negative, whole, cents, separator), c, showSymbol, showSign)))
      == if negative then -(whole * 100 + cents) else whole * 100 + cents
  {
    var sign := if negative then "-" else if showSign && c > 0 then "+" else "";
    var d, p := NatToString(whole), DateRange.Pad2(cents);
    var x := Decorate(AmountText(negative, whole, cents, separator), c, showSymbol, showSign);
    assert x != "" && Clean(x) == sign + (d + ("." + p)) by {
      CleanRendered(negative, whole, cents, c, showSymbol, showSign, separator);
    }
    ReadRendered(sign, negative, whole, cents);
    RoundRendered(negative, whole, cents);
    ParseAmountOf(x, Decimal(negative, d, p));
  }

  /** Whatever the options, a yuan amount formatted as intended reads back as the same number of cents. */
  lemma {:induction false} FormatAmountRoundTrip(c: int, showSymbol: bool, showSign: bool, separator: bool)
    ensures ParseAmount(Some(FormatAmountFixed(Some(c), "yuan", showSymbol, showSign, separator))) == c
  {
    var x := Decorate(AmountTextOf(c, true, separator), c, showSymbol, showSign);
    assert FormatAmountFixed(Some(c), "yuan", showSymbol, showSign, separator) == x;
    assert ParseAmount(Some(x)) == c by {
      ParseRendered(c < 0, Abs(c) / 100, Abs(c) % 100, c, showSymbol, showSign, separator);
      assert Abs(c) == Abs(c) / 100 * 100 + Abs(c) % 100;
    }
  }

  /** From one yuan on, and for any unit other than yuan, the formatter as written agrees with the intended one. */
  lemma FormatAmountAgreesFromOneYuan(c: int, unit: string, showSymbol: bool, showSign: bool, separator: bool)
    requires unit != "yuan" || c >= 100 || c <= -100
    ensures FormatAmount(Some(c), unit, showSymbol, showSign, separator)
      == FormatAmountFixed(Some(c), unit, showSymbol, showSign, separator)
  {
  }

  lemma FiftyYuanText()
    ensures AmountText(false, 50, 0, true) == "50.00"
  {
    assert NatToString(50) == "50";
    assert DateRange.Pad2(0) == "00";
    assert Group("50") == "50";
  }

  lemma HalfYuanText()
    ensures AmountText(false, 0, 50, true) == "0.50"
  {
    assert NatToString(0) == "0";
    assert DateRange.Pad2(50) == "50";
    assert Group("0") == "0";
  }

  /** As written, 50 cents are shown as "50.00", which reads back as 5000 cents. */
  lemma FiftyCentsShownAsFiftyYuan()
    ensures FormatAmount(Some(50), "yuan", false, false, true) == "50.00"
    ensures ParseAmount(Some(FormatAmount(Some(50), "yuan", false, false, true))) == 5000
    ensures FormatAmountFixed(Some(50), "yuan", false, false, true) == "0.50"
  {
    assert FormatAmount(Some(50), "yuan", false, false, true) == "50.00" by {
      assert AmountTextOf(50, false, true) == AmountText(false, 50, 0, true);
      FiftyYuanText();
    }
    assert ParseAmount(Some("50.00")) == 5000 by {
      FiftyYuanText();
      ParseRendered(false, 50, 0, 50, false, false, true);
    }
    assert FormatAmountFixed(Some(50), "yuan", false, false, true) == "0.50" by {
      assert AmountTextOf(50, true, true) == AmountText(false, 0, 50, true);
      HalfYuanText();
    }
  }

  /** A cleaned string of the amount shape that reads as a non-negative number makes the raw string valid. */
  lemma ValidAmountOf(x: string, cl: string)
    requires x != "" && Clean(x) == cl && AmountShape(cl)
    requires ParseFloatPrefix(cl).Some? && !ParseFloatPrefix(cl).value.negative
    ensures IsValidAmount(Some(x))
  {
  }

  /** Whole yuan, a point and two cent digits have the amount shape and read as a non-negative number. */
  lemma {:induction false} CentsTextIsValid(c: nat)
    ensures var d, p := NatToString(c / 100), DateRange.Pad2(c % 100);
      AmountShape(d + ("." + p)) && ParseFloatPrefix(d + ("." + p)) == Some(Decimal(false, d, p))
  {
    var d, p := NatToString(c / 100), DateRange.Pad2(c % 100);
    var cl := d + ("." + p);
    assert AmountShape(cl) by {
      Pad2Cents(c % 100);
      DigitRunOf(d, "." + p);
      assert cl[|d|] == '.' && cl[|d| + 1..] == p;
    }
    assert ParseFloatPrefix(cl) == Some(Decimal(false, d, p)) by {
      ParseNumberText("", d, p);
      assert "" + cl == cl;
    }
  }

  /** A non-negative amount formatted as intended without a plus sign passes `isValidAmount`. */
  lemma {:induction false} FormattedAmountIsValid(c: nat, showSymbol: bool, separator: bool)
    ensures IsValidAmount(Some(FormatAmountFixed(Some(c), "yuan", showSymbol, false, separator)))
  {
    var x := Decorate(AmountTextOf(c, true, separator), c, showSymbol, false);
    assert FormatAmountFixed(Some(c), "yuan", showSymbol, false, separator) == x;
    var cl := NatToString(c / 100) + ("." + DateRange.Pad2(c % 100));
    assert x != "" && Clean(x) == cl by {
      CleanRendered(false, c / 100, c % 100, c, showSymbol, false, separator);
      assert "" + cl == cl;
    }
    CentsTextIsValid(c);
    ValidAmountOf(x, cl);
  }

  /**
   * `formatNumber` with two decimals writes what `parseAmount` reads back as a hundred times the
   * number, with or without thousands separators.
   */
  lemma {:induction false} FormatNumberReadBack(v: int, separator: bool)
    ensures ParseAmount(Some(FormatNumber(Some(v), 2, separator, ""))) == 100 * v
  {
    var digits := NatToString(Abs(v));
    var g := if separator then Group(digits) else digits;
    var sign := if v < 0 then "-" else "";
    assert Zeros(2) == "00";
    assert DateRange.Pad2(0) == "00" by {
      assert NatToString(0) == "0";
    }
    var x := Decorate(AmountText(v < 0, Abs(v), 0, separator), v, false, false);
    assert x == sign + (g + ("." + "00"));
    assert FormatNumber(Some(v), 2, separator, "") == x;
    ParseRendered(v < 0, Abs(v), 0, v, false, false, separator);
  }
}
