/** The frontend's date helpers. A date argument is either falsy (null,
    undefined, '', 0), a value `new Date` cannot parse, or an instant, given
    as local-time milliseconds since the epoch. The current instant is a
    parameter; daylight-saving shifts are not modelled, so every local day
    is exactly `MsPerDay` long. */
module DateUtils {
  import opened Text

  /** The argument of `formatDate`, `getDaysFromToday`, ... */
  datatype DateArg = Falsy | Unparseable | At(ms: int)

  /** `1000 * 60 * 60 * 24`. */
  const MsPerDay: int := 1000 * 60 * 60 * 24

  /** `setHours(0, 0, 0, 0)`: the start of the local day holding `ms`. */
  function LocalMidnight(ms: int): (r: int)
    ensures r <= ms < r + MsPerDay
    ensures r % MsPerDay == 0
  {
    (ms / MsPerDay) * MsPerDay
  }

  /** `Math.ceil(a / b)` for a positive divisor. */
  function CeilDiv(a: int, b: int): (r: int)
    requires b > 0
    ensures (r - 1) * b < a <= r * b
  {
    -((-a) / b)
  }

  /** The day number of an instant: whole days since the epoch, rounded down. */
  function LocalDay(ms: int): int {
    ms / MsPerDay
  }

  /** `getDaysFromToday(date)` with `now` for `new Date()`. */
  function GetDaysFromToday(date: DateArg, now: int): (r: int)
    ensures !date.At? ==> r == 0
    ensures date.At? ==> r == LocalDay(date.ms) - LocalDay(now)
  {
    match date
    case Falsy => 0
    case Unparseable => 0
    case At(ms) =>
      var diff := LocalMidnight(ms) - LocalMidnight(now);
      assert diff == (LocalDay(ms) - LocalDay(now)) * MsPerDay;
      CeilDiv(diff, MsPerDay)
  }

  /** The count is the calendar-day difference: it does not depend on the
      time of day of either instant, is 0 on the current day, positive for
      later days and negative for earlier ones. */
  lemma DaysIgnoreTimeOfDay(day: int, t1: int, t2: int, nowDay: int, n1: int, n2: int)
    requires 0 <= t1 < MsPerDay && 0 <= t2 < MsPerDay
    requires 0 <= n1 < MsPerDay && 0 <= n2 < MsPerDay
    ensures GetDaysFromToday(At(day * MsPerDay + t1), nowDay * MsPerDay + n1)
         == GetDaysFromToday(At(day * MsPerDay + t2), nowDay * MsPerDay + n2)
         == day - nowDay
  {
    DayOfWithin(day, t1);
    DayOfWithin(day, t2);
    DayOfWithin(nowDay, n1);
    DayOfWithin(nowDay, n2);
  }

  /** An instant `t` milliseconds into day `day` lies on that day. */
  lemma DayOfWithin(day: int, t: int)
    requires 0 <= t < MsPerDay
    ensures LocalDay(day * MsPerDay + t) == day
  {
    var ms := day * MsPerDay + t;
    assert ms == (ms / MsPerDay) * MsPerDay + ms % MsPerDay;
  }

  /** The sign of the count says which side of today the date is on. */
  lemma DaysSign(date: DateArg, now: int)
    requires date.At?
    ensures GetDaysFromToday(date, now) == 0 <==> LocalMidnight(date.ms) == LocalMidnight(now)
    ensures GetDaysFromToday(date, now) > 0 <==> date.ms >= LocalMidnight(now) + MsPerDay
    ensures GetDaysFromToday(date, now) < 0 <==> date.ms < LocalMidnight(now)
  {
  }

  // ---------------------------------------------------------------------------
  // Calendar dates, for the worked examples
  // ---------------------------------------------------------------------------

  /** The day number of a proleptic Gregorian date (1970-01-01 is day 0). */
  function DaysFromCivil(y: int, m: int, d: int): int
    requires 1 <= m <= 12
  {
    var y1 := if m <= 2 then y - 1 else y;
    var era := y1 / 400;
    var yoe := y1 - era * 400;
    var mp := (m + 9) % 12;
    var doy := (153 * mp + 2) / 5 + d - 1;
    var doe := yoe * 365 + yoe / 4 - yoe / 100 + doy;
    era * 146097 + doe - 719468
  }

  /** Local noon of a calendar date, in milliseconds. */
  function Noon(y: int, m: int, d: int): int
    requires 1 <= m <= 12
  {
    DaysFromCivil(y, m, d) * MsPerDay + 12 * 60 * 60 * 1000
  }

  /** Counted from 2024-01-01: 2024-02-29 is 59 days ahead (a leap day),
      2025-01-01 is 366 days ahead and 2023-01-01 is 365 days back. */
  lemma CalendarExamples()
    ensures GetDaysFromToday(At(Noon(2024, 2, 29)), Noon(2024, 1, 1)) == 59
    ensures GetDaysFromToday(At(Noon(2025, 1, 1)), Noon(2024, 1, 1)) == 366
    ensures GetDaysFromToday(At(Noon(2023, 1, 1)), Noon(2024, 1, 1)) == -365
  {
    CivilDays();
    NoonDay(2024, 1, 1);
    NoonDay(2024, 2, 29);
    NoonDay(2025, 1, 1);
    NoonDay(2023, 1, 1);
  }

  /** The day numbers of the dates in the examples. */
  lemma CivilDays()
    ensures DaysFromCivil(2024, 1, 1) == 19723 && DaysFromCivil(2024, 2, 29) == 19782
    ensures DaysFromCivil(2025, 1, 1) == 20089 && DaysFromCivil(2023, 1, 1) == 19358
  {
  }

  /** Noon of a date lies on that date's day. */
  lemma NoonDay(y: int, m: int, d: int)
    requires 1 <= m <= 12
    ensures LocalDay(Noon(y, m, d)) == DaysFromCivil(y, m, d)
  {
    DayOfWithin(DaysFromCivil(y, m, d), 12 * 60 * 60 * 1000);
  }

  // ---------------------------------------------------------------------------
  // Relative labels
  // ---------------------------------------------------------------------------

  /** The label for a day count. */
  function RelativeLabel(days: int): (r: string)
    ensures days == 0 ==> r == "今天"
    ensures days == 1 ==> r == "明天"
    ensures days == -1 ==> r == "昨天"
    ensures days > 1 ==> r == NatToString(days) + "天后"
    ensures days < -1 ==> r == NatToString(-days) + "天前"
  {
    if days == 0 then "今天"
    else if days == 1 then "明天"
    else if days == -1 then "昨天"
    else if days > 0 then IntToString(days) + "天后"
    else NatToString(-days) + "天前"
  }

  /** `formatRelativeTime(date)`: the label of `getDaysFromToday(date)`. */
  function FormatRelativeTime(date: DateArg, now: int): (r: string)
    ensures !date.At? ==> r == "今天"
    ensures date.At? ==> r == RelativeLabel(LocalDay(date.ms) - LocalDay(now))
  {
    RelativeLabel(GetDaysFromToday(date, now))
  }

  /** Distinct day counts get distinct labels. */
  lemma RelativeLabelsDiffer(a: int, b: int)
    requires a != b
    ensures RelativeLabel(a) != RelativeLabel(b)
  {
    LabelLastChar(a);
    LabelLastChar(b);
    if a > 1 && b > 1 {
      SuffixedNumbersDiffer(a, b, "天后");
    } else if a < -1 && b < -1 {
      SuffixedNumbersDiffer(-a, -b, "天前");
    }
  }

  /** The last character of a label tells a later day, an earlier day and
      the three named days apart. */
  lemma LabelLastChar(days: int)
    ensures var r := RelativeLabel(days);
      |r| >= 2 && r[|r| - 1] == (if days > 1 then '后' else if days < -1 then '前' else '天')
  {
  }

  /** Two different numbers with the same suffix print differently. */
  lemma SuffixedNumbersDiffer(m: nat, n: nat, suffix: string)
    requires m != n
    ensures NatToString(m) + suffix != NatToString(n) + suffix
  {
    var sm, sn := NatToString(m), NatToString(n);
    if sm + suffix == sn + suffix {
      assert |sm| == |sn|;
      assert sm == (sm + suffix)[..|sm|];
      assert sn == (sn + suffix)[..|sn|];
      NatToStringInjective(m, n);
    }
  }

  /** So the label determines the day count. */
  lemma RelativeLabelInjective(a: int, b: int)
    requires RelativeLabel(a) == RelativeLabel(b)
    ensures a == b
  {
    if a != b {
      RelativeLabelsDiffer(a, b);
    }
  }

  /** Two dates on the same local day get the same label. */
  lemma RelativeTimeSameDay(d1: DateArg, d2: DateArg, now: int)
    requires d1.At? && d2.At? && LocalMidnight(d1.ms) == LocalMidnight(d2.ms)
    ensures FormatRelativeTime(d1, now) == FormatRelativeTime(d2, now)
  {
  }

  // ---------------------------------------------------------------------------
  // Formatting guards
  // ---------------------------------------------------------------------------

  /** `formatDate` and `formatDateTime` of the date helpers: "" unless the
      date parses; the locale rendering of a parsed instant is a parameter. */
  function FormatLocalDate(date: DateArg, render: int -> string): (r: string)
    ensures !date.At? ==> r == ""
    ensures date.At? ==> r == render(date.ms)
  {
    match date
    case Falsy => ""
    case Unparseable => ""
    case At(ms) => render(ms)
  }
}
