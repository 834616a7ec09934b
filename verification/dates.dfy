/** Calendar dates as the pipeline sees them: the `YYYY-MM-DD` text form,
    the two parsers `to_iso_date_string` tries (`datetime.fromisoformat` and
    `datetime.strptime(raw, "%Y-%m-%d")`), Python's day ordinal, and the
    day delta against the fixed reference date. */
module Dates {
  import opened Optional
  import opened Text

  datatype Date = Date(year: int, month: int, day: int)

  predicate IsLeap(y: int)
  {
    y % 4 == 0 && (y % 100 != 0 || y % 400 == 0)
  }

  function DaysInMonth(y: int, m: int): int
    requires 1 <= m <= 12
  {
    if m == 2 then (if IsLeap(y) then 29 else 28)
    else if m == 4 || m == 6 || m == 9 || m == 11 then 30
    else 31
  }

  /** A date Python's `datetime.date` accepts (MINYEAR 1, MAXYEAR 9999). */
  predicate Valid(d: Date)
  {
    && 1 <= d.year <= 9999
    && 1 <= d.month <= 12
    && 1 <= d.day <= DaysInMonth(d.year, d.month)
  }

  /** `REFERENCE_TODAY`: the fixed "today" every claim age is measured from. */
  const ReferenceToday: Date := Date(2025, 7, 30)

  // ---------------------------------------------------------------------
  // Day ordinal (`date.toordinal()`, where 0001-01-01 is day 1)

  function DaysBeforeYear(y: int): int
    requires y >= 1
  {
    var p := y - 1;
    p * 365 + p / 4 - p / 100 + p / 400
  }

  function DaysBeforeMonth(y: int, m: int): int
    requires 1 <= m <= 12
    decreases m
  {
    if m == 1 then 0 else DaysBeforeMonth(y, m - 1) + DaysInMonth(y, m - 1)
  }

  /** `date.toordinal()`: the number of the day counted from 0001-01-01 as
      day 1, fixed by `OrdinalFirstDay` and `OrdinalCountsDays`. */
  function Ordinal(d: Date): int
    requires Valid(d)
  {
    DaysBeforeYear(d.year) + DaysBeforeMonth(d.year, d.month) + d.day
  }

  /** The calendar day after `d`. */
  function NextDay(d: Date): (r: Date)
    requires Valid(d) && d != Date(9999, 12, 31)
    ensures Valid(r)
  {
    if d.day < DaysInMonth(d.year, d.month) then Date(d.year, d.month, d.day + 1)
    else if d.month < 12 then Date(d.year, d.month + 1, 1)
    else Date(d.year + 1, 1, 1)
  }

  lemma DaysInYear(y: int)
    ensures DaysBeforeMonth(y, 12) + 31 == if IsLeap(y) then 366 else 365
  {
    assert DaysBeforeMonth(y, 3) == 31 + DaysInMonth(y, 2);
    assert DaysBeforeMonth(y, 6) == DaysBeforeMonth(y, 3) + 31 + 30 + 31;
    assert DaysBeforeMonth(y, 9) == DaysBeforeMonth(y, 6) + 30 + 31 + 31;
    assert DaysBeforeMonth(y, 12) == DaysBeforeMonth(y, 9) + 30 + 31 + 30;
  }

  lemma YearLength(y: int)
    requires y >= 1
    ensures DaysBeforeYear(y + 1) == DaysBeforeYear(y) + if IsLeap(y) then 366 else 365
  {
    DivStep4(y);
    DivStep100(y);
    DivStep400(y);
  }

  lemma DivStep4(y: int)
    ensures y / 4 == (y - 1) / 4 + (if y % 4 == 0 then 1 else 0)
  {
  }

  lemma DivStep100(y: int)
    ensures y / 100 == (y - 1) / 100 + (if y % 100 == 0 then 1 else 0)
  {
  }

  lemma DivStep400(y: int)
    ensures y / 400 == (y - 1) / 400 + (if y % 400 == 0 then 1 else 0)
  {
  }

  lemma NextDayInMonth(d: Date)
    requires Valid(d) && d.day < DaysInMonth(d.year, d.month)
    ensures NextDay(d) == Date(d.year, d.month, d.day + 1)
    ensures Ordinal(NextDay(d)) == Ordinal(d) + 1
  {
  }

  lemma NextDayNextMonth(d: Date)
    requires Valid(d) && d.day == DaysInMonth(d.year, d.month) && d.month < 12
    ensures NextDay(d) == Date(d.year, d.month + 1, 1)
    ensures Ordinal(NextDay(d)) == Ordinal(d) + 1
  {
    assert DaysBeforeMonth(d.year, d.month + 1) == DaysBeforeMonth(d.year, d.month) + d.day;
  }

  lemma NextDayNextYear(d: Date)
    requires Valid(d) && d.month == 12 && d.day == 31 && d.year < 9999
    ensures NextDay(d) == Date(d.year + 1, 1, 1)
    ensures Ordinal(NextDay(d)) == Ordinal(d) + 1
  {
    DaysInYear(d.year);
    YearLength(d.year);
    assert Ordinal(Date(d.year + 1, 1, 1)) == DaysBeforeYear(d.year + 1) + 1;
    assert Ordinal(d) == DaysBeforeYear(d.year) + DaysBeforeMonth(d.year, 12) + 31;
  }

  /** Day 1 of the ordinal is 0001-01-01. */
  lemma OrdinalFirstDay()
    ensures Ordinal(Date(1, 1, 1)) == 1
  {
  }

  /** The ordinal counts days: each next calendar day is one more, so
      `Ordinal(b) - Ordinal(a)` is the number of days from `a` to `b`. */
  lemma OrdinalCountsDays(d: Date)
    requires Valid(d) && d != Date(9999, 12, 31)
    ensures Ordinal(NextDay(d)) == Ordinal(d) + 1
  {
    if d.day < DaysInMonth(d.year, d.month) {
      NextDayInMonth(d);
    } else if d.month < 12 {
      NextDayNextMonth(d);
    } else {
      assert d.day == 31 && d.year < 9999;
      NextDayNextYear(d);
    }
  }

  // ---------------------------------------------------------------------
  // Digits and the fixed-width ISO text form

  predicate IsDigit(c: char)
  {
    '0' <= c <= '9'
  }

  predicate AllDigits(s: string)
  {
    forall i :: 0 <= i < |s| ==> IsDigit(s[i])
  }

  function DigitValue(c: char): int
    requires IsDigit(c)
  {
    c as int - '0' as int
  }

  function DigitChar(n: int): (c: char)
    requires 0 <= n < 10
    ensures IsDigit(c) && DigitValue(c) == n
  {
    ('0' as int + n) as char
  }

  function Value2(a: char, b: char): int
    requires IsDigit(a) && IsDigit(b)
  {
    10 * DigitValue(a) + DigitValue(b)
  }

  function Value4(s: string): int
    requires |s| == 4 && AllDigits(s)
  {
    1000 * DigitValue(s[0]) + 100 * DigitValue(s[1]) + 10 * DigitValue(s[2]) + DigitValue(s[3])
  }

  function Pad2(n: int): (r: string)
    requires 0 <= n < 100
    ensures |r| == 2 && AllDigits(r) && Value2(r[0], r[1]) == n
  {
    [DigitChar(n / 10), DigitChar(n % 10)]
  }

  function Pad4(n: int): (r: string)
    requires 0 <= n < 10000
    ensures |r| == 4 && AllDigits(r) && Value4(r) == n
  {
    var q1 := n / 10;
    var q2 := q1 / 10;
    var q3 := q2 / 10;
    [DigitChar(q3), DigitChar(q2 % 10), DigitChar(q1 % 10), DigitChar(n % 10)]
  }

  /** `date.isoformat()`: `%04d-%02d-%02d`. */
  function FormatIso(d: Date): (r: string)
    requires Valid(d)
    ensures |r| == 10 && r[4] == '-' && r[7] == '-'
  {
    Pad4(d.year) + "-" + Pad2(d.month) + "-" + Pad2(d.day)
  }

  /** The date-only form `datetime.fromisoformat` accepts: exactly
      `YYYY-MM-DD`, zero-padded, naming a real calendar day. */
  function ParseIsoFormat(s: string): (r: Option<Date>)
    ensures r.Some? ==> Valid(r.value)
  {
    if |s| == 10 && s[4] == '-' && s[7] == '-'
       && AllDigits(s[..4]) && IsDigit(s[5]) && IsDigit(s[6]) && IsDigit(s[8]) && IsDigit(s[9])
    then
      var d := Date(Value4(s[..4]), Value2(s[5], s[6]), Value2(s[8], s[9]));
      if Valid(d) then Some(d) else None
    else None
  }

  /** A well-formed, zero-padded, valid ISO calendar date string. */
  predicate IsIsoDateText(s: string)
  {
    ParseIsoFormat(s).Some?
  }

  /** The day field of `strptime`'s `%d`: `3[01]|[12]\d|0[1-9]|[1-9]| [1-9]`,
      and nothing may follow it ("unconverted data remains"). */
  function ParseDayToken(t: string): (r: Option<int>)
    ensures r.Some? ==> 1 <= r.value <= 31 && 1 <= |t| <= 2
  {
    if |t| == 1 && IsDigit(t[0]) && t[0] != '0' then Some(DigitValue(t[0]))
    else if |t| == 2 && t[0] == ' ' && IsDigit(t[1]) && t[1] != '0' then Some(DigitValue(t[1]))
    else if |t| == 2 && IsDigit(t[0]) && IsDigit(t[1]) && 1 <= Value2(t[0], t[1]) <= 31 then Some(Value2(t[0], t[1]))
    else None
  }

  function DayPart(y: int, m: int, t: string): (r: Option<Date>)
    ensures r.Some? ==> Valid(r.value) && r.value.year == y && r.value.month == m && 1 <= |t| <= 2
  {
    match ParseDayToken(t)
    case None => None
    case Some(dd) => if Valid(Date(y, m, dd)) then Some(Date(y, m, dd)) else None
  }

  /** `datetime.strptime(s, "%Y-%m-%d").date()`: `%Y` is four digits, `%m`
      is `1[0-2]|0[1-9]|[1-9]` followed by the literal `-`, then `%d`; the
      date must exist. Unlike `fromisoformat`, it accepts unpadded fields. */
  function ParseStrptime(s: string): (r: Option<Date>)
    ensures r.Some? ==> Valid(r.value)
    // The accepted text is eight to ten characters long and opens with the
    // four-digit year and a dash.
    ensures r.Some? ==> 8 <= |s| <= 10 && AllDigits(s[..4]) && s[4] == '-' && Value4(s[..4]) == r.value.year
  {
    if |s| < 5 || !AllDigits(s[..4]) || s[4] != '-' then None
    else
      var y := Value4(s[..4]);
      var rest := s[5..];
      if |rest| >= 3 && IsDigit(rest[0]) && IsDigit(rest[1]) && rest[2] == '-' then
        var m := Value2(rest[0], rest[1]);
        if 1 <= m <= 12 then DayPart(y, m, rest[3..]) else None
      else if |rest| >= 2 && IsDigit(rest[0]) && rest[0] != '0' && rest[1] == '-' then
        DayPart(y, DigitValue(rest[0]), rest[2..])
      else None
  }

  /** The ways `%m` may write a month: zero-padded, or as a single digit. */
  function MonthSpellings(m: int): (spellings: set<string>)
    requires 1 <= m <= 12
    ensures Pad2(m) in spellings
  {
    {Pad2(m)} + (if m <= 9 then {[DigitChar(m)]} else {})
  }

  /** The ways `%d` may write a day: zero-padded, as a single digit, or as a
      single digit after a space. */
  function DaySpellings(d: int): (spellings: set<string>)
    requires 1 <= d <= 31
    ensures Pad2(d) in spellings
  {
    {Pad2(d)} + (if d <= 9 then {[DigitChar(d)], " " + [DigitChar(d)]} else {})
  }

  /** `%d` reads each spelling of a day as that day. */
  lemma DayTokenReadsSpelling(day: int, t: string)
    requires 1 <= day <= 31 && t in DaySpellings(day)
    ensures ParseDayToken(t) == Some(day)
  {
  }

  /** `%d` reads only the spellings of the day it returns. */
  lemma DayTokenSpelling(t: string)
    requires ParseDayToken(t).Some?
    ensures t in DaySpellings(ParseDayToken(t).value)
  {
    var day := ParseDayToken(t).value;
    if |t| == 1 && IsDigit(t[0]) && t[0] != '0' {
      assert t == [DigitChar(day)];
    } else if |t| == 2 && t[0] == ' ' && IsDigit(t[1]) && t[1] != '0' {
      assert t == " " + [DigitChar(day)];
    } else {
      var p := Pad2(day);
      DigitsDetermined2(t[0], t[1], p[0], p[1]);
      assert t == p;
    }
  }

  /** `strptime` reads every spelling of a valid date: four year digits, a
      dash, any spelling of the month, a dash, any spelling of the day. */
  lemma StrptimeReadsSpellings(d: Date, m: string, dd: string)
    requires Valid(d) && m in MonthSpellings(d.month) && dd in DaySpellings(d.day)
    ensures ParseStrptime(Pad4(d.year) + "-" + m + "-" + dd) == Some(d)
  {
    var s := Pad4(d.year) + "-" + m + "-" + dd;
    assert s[..4] == Pad4(d.year);
    assert s[5..] == m + "-" + dd;
    DayTokenReadsSpelling(d.day, dd);
    if |m| == 2 {
      assert m == Pad2(d.month);
      assert s[5..][3..] == dd;
    } else {
      assert m == [DigitChar(d.month)];
      assert s[5..][2..] == dd;
    }
  }

  /** The month and day text of a string `strptime` reads, around the dash
      that separates them. */
  lemma StrptimeMonthDay(s: string) returns (m: string, dd: string)
    requires ParseStrptime(s).Some?
    ensures m in MonthSpellings(ParseStrptime(s).value.month)
    ensures ParseDayToken(dd) == Some(ParseStrptime(s).value.day)
    ensures s[5..] == m + "-" + dd
  {
    var d := ParseStrptime(s).value;
    var rest := s[5..];
    if |rest| >= 3 && IsDigit(rest[0]) && IsDigit(rest[1]) && rest[2] == '-' {
      m, dd := rest[..2], rest[3..];
      var p := Pad2(d.month);
      DigitsDetermined2(rest[0], rest[1], p[0], p[1]);
      assert m == p;
    } else {
      m, dd := rest[..1], rest[2..];
      assert m == [DigitChar(d.month)];
    }
  }

  /** `strptime` reads nothing but such spellings. */
  lemma StrptimeOnlySpellings(s: string)
    requires ParseStrptime(s).Some?
    ensures var d := ParseStrptime(s).value;
      exists m, dd :: m in MonthSpellings(d.month) && dd in DaySpellings(d.day)
                      && s == Pad4(d.year) + "-" + m + "-" + dd
  {
    var d := ParseStrptime(s).value;
    var m, dd := StrptimeMonthDay(s);
    DayTokenSpelling(dd);
    DigitsDetermined4(s[..4], Pad4(d.year));
    assert s == s[..4] + "-" + s[5..];
  }

  /** The fallback exists for unpadded text: a single-digit month and day
      written without their leading zeros still parse. */
  lemma StrptimeAcceptsUnpadded(d: Date)
    requires Valid(d) && d.month <= 9 && d.day <= 9
    ensures ParseStrptime(Pad4(d.year) + "-" + [DigitChar(d.month)] + "-" + [DigitChar(d.day)]) == Some(d)
  {
    var s := Pad4(d.year) + "-" + [DigitChar(d.month)] + "-" + [DigitChar(d.day)];
    assert s[..4] == Pad4(d.year);
    assert s[5..] == [DigitChar(d.month)] + "-" + [DigitChar(d.day)];
    assert s[5..][2..] == [DigitChar(d.day)];
  }

  /** Nothing may follow the day: any extra character is rejected. */
  lemma StrptimeRejectsTrailing(d: Date, c: char)
    requires Valid(d)
    ensures ParseStrptime(FormatIso(d) + [c]) == None
  {
    var s := FormatIso(d) + [c];
    assert s[..4] == FormatIso(d)[..4];
    assert s[5..][3..] == [s[8], s[9], c];
  }

  /** Parsing the ISO text of a date gives the date back. */
  lemma ParseFormatIso(d: Date)
    requires Valid(d)
    ensures ParseIsoFormat(FormatIso(d)) == Some(d)
    ensures ParseStrptime(FormatIso(d)) == Some(d)
  {
    var s := FormatIso(d);
    assert s[..4] == Pad4(d.year);
    assert s[5..] == Pad2(d.month) + "-" + Pad2(d.day);
    assert s[8..] == Pad2(d.day);
  }

  /** Formatting a parsed ISO date reproduces the text exactly. */
  lemma FormatParseIso(s: string)
    requires IsIsoDateText(s)
    ensures FormatIso(ParseIsoFormat(s).value) == s
  {
    var d := ParseIsoFormat(s).value;
    var t := FormatIso(d);
    assert t[..4] == Pad4(d.year);
    DigitsDetermined4(t[..4], s[..4]);
    assert t[5] == s[5] && t[6] == s[6] by { DigitsDetermined2(t[5], t[6], s[5], s[6]); }
    assert t[8] == s[8] && t[9] == s[9] by { DigitsDetermined2(t[8], t[9], s[8], s[9]); }
    assert forall i :: 0 <= i < 4 ==> t[i] == t[..4][i];
    assert forall i :: 0 <= i < 10 ==> t[i] == s[i];
  }

  lemma DigitsDetermined2(a: char, b: char, c: char, e: char)
    requires IsDigit(a) && IsDigit(b) && IsDigit(c) && IsDigit(e)
    requires Value2(a, b) == Value2(c, e)
    ensures a == c && b == e
  {
  }

  lemma DigitsDetermined4(s: string, t: string)
    requires |s| == 4 && AllDigits(s) && |t| == 4 && AllDigits(t)
    requires Value4(s) == Value4(t)
    ensures s == t
  {
    assert DigitValue(s[0]) == DigitValue(t[0]);
    assert DigitValue(s[1]) == DigitValue(t[1]);
    assert DigitValue(s[2]) == DigitValue(t[2]);
  }

  /** Every well-formed ISO date that `fromisoformat` takes, the `strptime`
      fallback takes as the same date. */
  lemma StrptimeAcceptsIso(s: string)
    requires IsIsoDateText(s)
    ensures ParseStrptime(s) == ParseIsoFormat(s)
  {
    FormatParseIso(s);
    ParseFormatIso(ParseIsoFormat(s).value);
  }

  // ---------------------------------------------------------------------
  // The two pipeline entry points

  /** `to_iso_date_string`: never fails; `None` for a missing or blank value
      or one neither parser accepts, otherwise the canonical ISO text. */
  function ToIsoDateString(raw: Option<string>): (r: Option<string>)
    ensures raw.None? || Trim(raw.value) == [] ==> r.None?
    ensures r.Some? ==> IsIsoDateText(r.value)
    // Whatever `strptime` reads, and only that, comes back as its date's
    // ISO text; `fromisoformat` accepts nothing `strptime` would reject.
    ensures raw.Some? ==>
      var t := Trim(raw.value);
      r == (if t != [] && ParseStrptime(t).Some? then Some(FormatIso(ParseStrptime(t).value)) else None)
  {
    if raw.None? then None
    else
      var stripped := Trim(raw.value);
      if stripped == [] then None
      else
        match ParseIsoFormat(stripped)
        case Some(d) => StrptimeAcceptsIso(stripped); ParseFormatIso(d); Some(FormatIso(d))
        case None =>
          match ParseStrptime(stripped)
          case Some(d) => ParseFormatIso(d); Some(FormatIso(d))
          case None => None
  }

  /** A well-formed ISO date comes back unchanged. */
  lemma ToIsoDateStringKeepsIso(s: string)
    requires IsIsoDateText(s)
    ensures ToIsoDateString(Some(s)) == Some(s)
  {
    assert IsDigit(s[0]) && IsDigit(s[9]) by { assert s[..4][0] == s[0]; }
    assert Trimmed(s);
    assert Trim(s) == s;
    var d := ParseIsoFormat(s).value;
    FormatParseIso(s);
    assert ToIsoDateString(Some(s)) == Some(FormatIso(d));
  }

  /** Unpadded month and day, which only the fallback reads, come back
      zero-padded: `2025-7-1` becomes `2025-07-01`. */
  lemma ToIsoDateStringPadsUnpadded(d: Date)
    requires Valid(d) && d.month <= 9 && d.day <= 9
    ensures ToIsoDateString(Some(Pad4(d.year) + "-" + [DigitChar(d.month)] + "-" + [DigitChar(d.day)])) == Some(FormatIso(d))
  {
    var s := Pad4(d.year) + "-" + [DigitChar(d.month)] + "-" + [DigitChar(d.day)];
    assert s[0] == Pad4(d.year)[0] && s[|s| - 1] == DigitChar(d.day);
    assert Trimmed(s);
    StrptimeAcceptsUnpadded(d);
  }

  /** Every spelling `strptime` reads comes back as the date's zero-padded
      ISO text. */
  lemma ToIsoDateStringReadsSpellings(d: Date, m: string, dd: string)
    requires Valid(d) && m in MonthSpellings(d.month) && dd in DaySpellings(d.day)
    ensures ToIsoDateString(Some(Pad4(d.year) + "-" + m + "-" + dd)) == Some(FormatIso(d))
  {
    var s := Pad4(d.year) + "-" + m + "-" + dd;
    assert IsDigit(dd[|dd| - 1]);
    assert s[0] == Pad4(d.year)[0] && s[|s| - 1] == dd[|dd| - 1];
    assert Trimmed(s);
    StrptimeReadsSpellings(d, m, dd);
  }

  /** `days_between(d, REFERENCE_TODAY)`: the value is not stripped and must
      parse with `strptime`; the result is how many days the reference date
      lies after it (negative for later dates). */
  function DaysBetween(submittedAt: Option<string>): (r: Option<int>)
    ensures r.Some? <==> submittedAt.Some? && ParseStrptime(submittedAt.value).Some?
    ensures r.Some? ==> r.value == Ordinal(ReferenceToday) - Ordinal(ParseStrptime(submittedAt.value).value)
  {
    if submittedAt.None? then None
    else
      match ParseStrptime(submittedAt.value)
      case None => None
      case Some(d) => Some(Ordinal(ReferenceToday) - Ordinal(d))
  }

  /** The day delta is zero on the reference date itself. */
  lemma DaysBetweenReferenceDay()
    ensures DaysBetween(Some(FormatIso(ReferenceToday))) == Some(0)
  {
    DaysBetweenOfDate(ReferenceToday);
  }

  /** The day delta counts calendar days: one less for every day closer to
      the reference date. */
  lemma DaysBetweenNextDay(d: Date)
    requires Valid(d) && d != Date(9999, 12, 31)
    ensures var before := DaysBetween(Some(FormatIso(d)));
            var after := DaysBetween(Some(FormatIso(NextDay(d))));
            before.Some? && after.Some? && after.value == before.value - 1
  {
    var n := NextDay(d);
    var k := Ordinal(ReferenceToday);
    DaysBetweenOfDate(d);
    DaysBetweenOfDate(n);
    assert DaysBetween(Some(FormatIso(d))).value == k - Ordinal(d);
    assert DaysBetween(Some(FormatIso(n))).value == k - Ordinal(n);
    OrdinalCountsDays(d);
  }

  lemma DaysBetweenOfDate(d: Date)
    requires Valid(d)
    ensures DaysBetween(Some(FormatIso(d))) == Some(Ordinal(ReferenceToday) - Ordinal(d))
  {
    ParseFormatIso(d);
  }

  /** The 7-day boundary of the eligibility rule: a claim from 2025-07-23 is
      7 days old, one from 2025-07-22 is 8 days old. */
  lemma SevenDayBoundary()
    ensures DaysBetween(Some("2025-07-23")) == Some(7)
    ensures DaysBetween(Some("2025-07-22")) == Some(8)
  {
    ParseFormatIso(Date(2025, 7, 23));
    ParseFormatIso(Date(2025, 7, 22));
    assert FormatIso(Date(2025, 7, 23)) == "2025-07-23";
    assert FormatIso(Date(2025, 7, 22)) == "2025-07-22";
  }
}
