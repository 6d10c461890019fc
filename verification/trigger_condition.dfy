/** The firing gate of an alert rule: business hours and a once-per-day
    frequency limit.

    A local date-time is an `Instant`: whole seconds since 1970-01-01T00:00
    local time, so `now` replaces `LocalDateTime.now()`. */
module TriggerConditions {
  import opened Wrappers

  type Instant = int

  const SecondsPerDay: int := 86400

  /** The day number of an instant (Dafny's `/` floors for a positive divisor). */
  function DayOf(t: Instant): int {
    t / SecondsPerDay
  }

  /** `t.toLocalDate().atStartOfDay()`. */
  function StartOfDay(t: Instant): (s: Instant)
    ensures s <= t < s + SecondsPerDay
    ensures DayOf(s) == DayOf(t)
  {
    DayOf(t) * SecondsPerDay
  }

  /** `getHour()`. */
  function HourOf(t: Instant): (h: int)
    ensures 0 <= h < 24
  {
    (t % SecondsPerDay) / 3600
  }

  /** `getDayOfWeek().getValue()`: 1 = Monday ... 7 = Sunday; 1970-01-01 was a Thursday. */
  function DayOfWeek(t: Instant): (d: int)
    ensures 1 <= d <= 7
  {
    (DayOf(t) + 3) % 7 + 1
  }

  datatype TriggerCondition = TriggerCondition(
    conditionExpression: Option<string>,
    requireStatusChange: Option<bool>,
    onlyBusinessHours: Option<bool>,
    maxFrequencyPerDay: Option<int>,
    lastTriggeredAt: Option<Instant>)

  /** The no-argument constructor. */
  function DefaultCondition(): (c: TriggerCondition)
    ensures c.requireStatusChange == Some(false) && c.onlyBusinessHours == Some(false)
    ensures c.maxFrequencyPerDay.None? && c.lastTriggeredAt.None? && c.conditionExpression.None?
  {
    TriggerCondition(None, Some(false), Some(false), None, None)
  }

  /** The constructor taking an expression: the defaults plus that expression. */
  function ConditionWithExpression(expression: Option<string>): (c: TriggerCondition)
    ensures c == DefaultCondition().(conditionExpression := expression)
  {
    TriggerCondition(expression, Some(false), Some(false), None, None)
  }

  /** Monday to Friday, from 09:00 up to but excluding 18:00. */
  predicate InBusinessHours(now: Instant) {
    DayOfWeek(now) <= 5 && 9 <= HourOf(now) < 18
  }

  /** `canTriggerNow()` as written: the frequency limit blocks only when the
      last trigger is strictly after today's midnight. */
  function CanTriggerNow(c: TriggerCondition, now: Instant): (b: bool)
    ensures b <==>
      (c.onlyBusinessHours == Some(true) ==> InBusinessHours(now)) &&
      !(c.maxFrequencyPerDay.Some? && c.lastTriggeredAt.Some? && c.lastTriggeredAt.value > StartOfDay(now))
  {
    if c.onlyBusinessHours.Some? && c.onlyBusinessHours.value && (DayOfWeek(now) > 5 || HourOf(now) < 9 || HourOf(now) >= 18) then
      false
    else if c.maxFrequencyPerDay.Some? && c.lastTriggeredAt.Some? && c.lastTriggeredAt.value > StartOfDay(now) then
      false
    else
      true
  }

  /** `markTriggered()`: records `now` and nothing else. */
  function MarkTriggered(c: TriggerCondition, now: Instant): (r: TriggerCondition)
    ensures r.lastTriggeredAt == Some(now)
    ensures r.(lastTriggeredAt := c.lastTriggeredAt) == c
  {
    c.(lastTriggeredAt := Some(now))
  }

  /** With the default settings the gate is always open. */
  lemma DefaultAlwaysOpen(now: Instant)
    ensures CanTriggerNow(DefaultCondition(), now)
  {
  }

  /** Without a frequency limit the last trigger time is irrelevant. */
  lemma LastTriggerIrrelevantWithoutLimit(c: TriggerCondition, now: Instant, last: Option<Instant>)
    requires c.maxFrequencyPerDay.None?
    ensures CanTriggerNow(c.(lastTriggeredAt := last), now) == CanTriggerNow(c, now)
  {
  }

  /** A rule triggered exactly at midnight can fire again later the same day:
      the once-per-day limit misses it because midnight is not strictly after
      the start of the day. */
  lemma MidnightTriggerNotLimited()
    ensures var c := DefaultCondition().(maxFrequencyPerDay := Some(1));
      var midnight := 19723 * SecondsPerDay;   // 2024-01-01T00:00
      DayOf(midnight + 10 * 3600) == DayOf(midnight) &&
      CanTriggerNow(MarkTriggered(c, midnight), midnight + 10 * 3600)
  {
  }

  /** The once-per-day limit as evidently intended: a trigger at any moment of
      today, midnight included, blocks further triggers today. */
  function CanTriggerNowOncePerDay(c: TriggerCondition, now: Instant): (b: bool)
    ensures b ==> CanTriggerNow(c, now)
  {
    if c.onlyBusinessHours.Some? && c.onlyBusinessHours.value && (DayOfWeek(now) > 5 || HourOf(now) < 9 || HourOf(now) >= 18) then
      false
    else if c.maxFrequencyPerDay.Some? && c.lastTriggeredAt.Some? && c.lastTriggeredAt.value >= StartOfDay(now) then
      false
    else
      true
  }

  /** With a frequency limit, once triggered a rule stays blocked for the rest
      of that day, and a trigger on an earlier day never blocks. */
  lemma OncePerDayHolds(c: TriggerCondition, triggeredAt: Instant, now: Instant)
    requires c.maxFrequencyPerDay.Some? && triggeredAt <= now
    ensures DayOf(triggeredAt) == DayOf(now) ==> !CanTriggerNowOncePerDay(MarkTriggered(c, triggeredAt), now)
    ensures DayOf(triggeredAt) < DayOf(now) ==>
      CanTriggerNowOncePerDay(MarkTriggered(c, triggeredAt), now) == (c.onlyBusinessHours == Some(true) ==> InBusinessHours(now))
  {
    var s := StartOfDay(now);
    if DayOf(triggeredAt) == DayOf(now) {
      assert triggeredAt >= DayOf(triggeredAt) * SecondsPerDay;
    } else if DayOf(triggeredAt) < DayOf(now) {
      assert triggeredAt < (DayOf(triggeredAt) + 1) * SecondsPerDay;
      assert (DayOf(triggeredAt) + 1) * SecondsPerDay <= s;
    }
  }
}
