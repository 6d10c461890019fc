/** The alert rule: validation, the time-based trigger test, priority
    comparison, and the stable sort by priority that the rule queries use. */
module AlertRules {
  import opened Wrappers
  import opened Exceptions
  import opened Text
  import opened TriggerConditions

  datatype RuleType = TimeBased | StatusChange | Custom

  /** The rule type's `code`. */
  function RuleTypeCode(t: RuleType): string {
    match t
    case TimeBased => "TIME_BASED"
    case StatusChange => "STATUS_CHANGE"
    case Custom => "CUSTOM"
  }

  /** `AlertRuleType.fromCode`: None where Java throws IllegalArgumentException. */
  function RuleTypeFromCode(code: string): (r: Option<RuleType>)
    ensures r.Some? <==> code in {"TIME_BASED", "STATUS_CHANGE", "CUSTOM"}
    ensures r.Some? ==> RuleTypeCode(r.value) == code
  {
    if code == "TIME_BASED" then Some(TimeBased)
    else if code == "STATUS_CHANGE" then Some(StatusChange)
    else if code == "CUSTOM" then Some(Custom)
    else None
  }

  datatype AlertRule = AlertRule(
    id: Option<int>,
    name: Option<string>,
    ruleType: Option<RuleType>,
    daysBefore: Option<int>,
    condition: Option<TriggerCondition>,
    priority: Option<int>,
    enabled: Option<bool>,
    alertChannels: Option<seq<Option<string>>>,
    createdAt: Option<Instant>,
    updatedAt: Option<Instant>)

  /** The six-argument constructor: no id yet, the default trigger condition,
      both timestamps `now`. */
  function NewRule(name: Option<string>, ruleType: Option<RuleType>, daysBefore: Option<int>,
                   priority: Option<int>, enabled: Option<bool>, channels: Option<seq<Option<string>>>,
                   now: Instant): (r: AlertRule)
    ensures r.id.None? && r.condition == Some(DefaultCondition())
    ensures r.name == name && r.ruleType == ruleType && r.daysBefore == daysBefore
    ensures r.priority == priority && r.enabled == enabled && r.alertChannels == channels
    ensures r.createdAt == Some(now) && r.updatedAt == Some(now)
  {
    AlertRule(None, name, ruleType, daysBefore, Some(DefaultCondition()), priority, enabled, channels, Some(now), Some(now))
  }

  /** `isTimeBasedRule()`. */
  predicate IsTimeBasedRule(r: AlertRule) {
    r.ruleType == Some(TimeBased)
  }

  // ---------------------------------------------------------------------------
  // Validation
  // ---------------------------------------------------------------------------

  const MsgNameMissing: string := "预警规则名称不能为空"
  const MsgTypeMissing: string := "预警规则类型不能为空"
  const MsgPriorityInvalid: string := "预警规则优先级必须为正整数"
  const MsgDaysNegative: string := "基于时间的预警规则的天数必须为非负整数"
  const MsgDaysTooLarge: string := "预警天数不能超过365天"
  const MsgChannelsMissing: string := "预警渠道不能为空"
  const MsgChannelUnsupportedPrefix: string := "不支持的预警渠道: "

  /** The longest advance notice a time-based rule may ask for. */
  const MaxDaysBefore: int := 365

  predicate NameOk(r: AlertRule) {
    r.name.Some? && !IsBlank(r.name.value)
  }

  predicate PriorityOk(r: AlertRule) {
    r.priority.Some? && r.priority.value >= 1
  }

  predicate DaysOk(r: AlertRule) {
    IsTimeBasedRule(r) ==> r.daysBefore.Some? && 0 <= r.daysBefore.value <= MaxDaysBefore
  }

  predicate SupportedChannel(ch: Option<string>) {
    ch == Some("EMAIL") || ch == Some("SMS")
  }

  predicate ChannelsOk(r: AlertRule) {
    r.alertChannels.Some? && |r.alertChannels.value| > 0 &&
    forall i :: 0 <= i < |r.alertChannels.value| ==> SupportedChannel(r.alertChannels.value[i])
  }

  /** Everything `validate()` demands of a rule. */
  predicate WellFormed(r: AlertRule) {
    NameOk(r) && r.ruleType.Some? && PriorityOk(r) && DaysOk(r) && ChannelsOk(r)
  }

  /** The index of the first unsupported channel, or -1. */
  function FirstUnsupported(chs: seq<Option<string>>, from: nat): (i: int)
    requires from <= |chs|
    ensures i == -1 || (from <= i < |chs| && !SupportedChannel(chs[i]))
    ensures forall j :: from <= j < |chs| && (i == -1 || j < i) ==> SupportedChannel(chs[j])
    decreases |chs| - from
  {
    if from == |chs| then -1
    else if !SupportedChannel(chs[from]) then from
    else FirstUnsupported(chs, from + 1)
  }

  /** `validate()`: None when the rule passes, otherwise the message of the
      IllegalArgumentException, which reports the first violated check in the
      order name, type, priority, days, channels. */
  function Validate(r: AlertRule): (err: Option<string>)
    ensures err.None? <==> WellFormed(r)
    ensures !NameOk(r) ==> err == Some(MsgNameMissing)
    ensures NameOk(r) && r.ruleType.None? ==> err == Some(MsgTypeMissing)
    ensures NameOk(r) && r.ruleType.Some? && !PriorityOk(r) ==> err == Some(MsgPriorityInvalid)
    ensures NameOk(r) && r.ruleType.Some? && PriorityOk(r) && !DaysOk(r) ==>
      err == Some(if r.daysBefore.Some? && r.daysBefore.value > MaxDaysBefore then MsgDaysTooLarge else MsgDaysNegative)
    ensures NameOk(r) && r.ruleType.Some? && PriorityOk(r) && DaysOk(r) && !ChannelsOk(r) ==>
      err.Some? && (err.value == MsgChannelsMissing <==> r.alertChannels.None? || |r.alertChannels.value| == 0)
    ensures err.Some? && err.value != MsgChannelsMissing && NameOk(r) && r.ruleType.Some? && PriorityOk(r) && DaysOk(r) ==>
      exists i :: 0 <= i < |r.alertChannels.value| && !SupportedChannel(r.alertChannels.value[i]) &&
        (forall j :: 0 <= j < i ==> SupportedChannel(r.alertChannels.value[j])) &&
        err.value == MsgChannelUnsupportedPrefix + Show(r.alertChannels.value[i])
  {
    if r.name.None? || IsBlank(r.name.value) then Some(MsgNameMissing)
    else if r.ruleType.None? then Some(MsgTypeMissing)
    else if r.priority.None? || r.priority.value < 1 then Some(MsgPriorityInvalid)
    else if IsTimeBasedRule(r) && (r.daysBefore.None? || r.daysBefore.value < 0) then Some(MsgDaysNegative)
    else if IsTimeBasedRule(r) && r.daysBefore.value > MaxDaysBefore then Some(MsgDaysTooLarge)
    else if r.alertChannels.None? || |r.alertChannels.value| == 0 then Some(MsgChannelsMissing)
    else
      var i := FirstUnsupported(r.alertChannels.value, 0);
      if i == -1 then None
      else
        assert |MsgChannelUnsupportedPrefix + Show(r.alertChannels.value[i])| > |MsgChannelsMissing|;
        Some(MsgChannelUnsupportedPrefix + Show(r.alertChannels.value[i]))
  }

  /** `isValid()`: `validate()` does not throw. */
  function IsValid(r: AlertRule): (b: bool)
    ensures b <==> WellFormed(r)
  {
    Validate(r).None?
  }

  // ---------------------------------------------------------------------------
  // Triggering and priority
  // ---------------------------------------------------------------------------

  /** `shouldTriggerFor(days)`. Unboxing a null `enabled`, or a null
      `daysBefore` once the comparison is reached, throws. */
  function ShouldTriggerFor(r: AlertRule, days: Option<int>): (res: Result<bool, Exception>)
    ensures res == Ok(true) <==>
      r.enabled == Some(true) && IsTimeBasedRule(r) && days.Some? && r.daysBefore.Some? &&
      0 <= days.value <= r.daysBefore.value
    ensures res.Err? <==>
      r.enabled.None? || (r.enabled == Some(true) && IsTimeBasedRule(r) && days.Some? && r.daysBefore.None?)
    ensures res.Err? ==> res.error == NullPointer
  {
    if r.enabled.None? then Err(NullPointer)
    else if !r.enabled.value || !IsTimeBasedRule(r) then Ok(false)
    else if days.None? then Ok(false)
    else if r.daysBefore.None? then Err(NullPointer)
    else Ok(days.value <= r.daysBefore.value && days.value >= 0)
  }

  /** `hasHigherPriorityThan(other)`: a smaller priority number ranks higher;
      every rule outranks null. */
  function HasHigherPriorityThan(r: AlertRule, other: Option<AlertRule>): bool {
    match other
    case None => true
    case Some(o) => r.priority.Some? && o.priority.Some? && r.priority.value < o.priority.value
  }

  /** On non-null rules the ranking is a strict partial order. */
  lemma HigherPriorityStrictOrder(a: AlertRule, b: AlertRule, c: AlertRule)
    ensures !HasHigherPriorityThan(a, Some(a))
    ensures HasHigherPriorityThan(a, Some(b)) ==> !HasHigherPriorityThan(b, Some(a))
    ensures HasHigherPriorityThan(a, Some(b)) && HasHigherPriorityThan(b, Some(c)) ==> HasHigherPriorityThan(a, Some(c))
  {
  }

  // ---------------------------------------------------------------------------
  // Sorting by priority
  // ---------------------------------------------------------------------------

  predicate AllPrioritized(rules: seq<AlertRule>) {
    forall i :: 0 <= i < |rules| ==> rules[i].priority.Some?
  }

  predicate SortedByPriority(rules: seq<AlertRule>)
    requires AllPrioritized(rules)
  {
    forall i, j :: 0 <= i < j < |rules| ==> rules[i].priority.value <= rules[j].priority.value
  }

  /** Inserts `x` before the first rule whose priority is not smaller. */
  function InsertByPriority(x: AlertRule, sorted: seq<AlertRule>): (r: seq<AlertRule>)
    requires x.priority.Some? && AllPrioritized(sorted) && SortedByPriority(sorted)
    ensures AllPrioritized(r) && SortedByPriority(r)
    ensures multiset(r) == multiset(sorted) + multiset{x}
    ensures |r| == |sorted| + 1
    ensures r[0] == x || (|sorted| > 0 && r[0] == sorted[0])
  {
    if |sorted| == 0 || x.priority.value <= sorted[0].priority.value then [x] + sorted
    else
      var rest := InsertByPriority(x, sorted[1..]);
      assert sorted == [sorted[0]] + sorted[1..];
      [sorted[0]] + rest
  }

  /** The rules whose priority is `p`, in order: the tie group of `p`. */
  function WithPriority(rules: seq<AlertRule>, p: Option<int>): seq<AlertRule> {
    if |rules| == 0 then []
    else (if rules[0].priority == p then [rules[0]] else []) + WithPriority(rules[1..], p)
  }

  /** Inserting `x` adds it to the front of its own tie group, since every
      rule it is placed after has a strictly smaller priority. */
  lemma {:induction false} InsertJoinsTieGroupFirst(x: AlertRule, sorted: seq<AlertRule>, p: Option<int>)
    requires x.priority.Some? && AllPrioritized(sorted) && SortedByPriority(sorted)
    ensures WithPriority(InsertByPriority(x, sorted), p) ==
      (if x.priority == p then [x] else []) + WithPriority(sorted, p)
  {
    var r := InsertByPriority(x, sorted);
    if |sorted| == 0 || x.priority.value <= sorted[0].priority.value {
      assert r[1..] == sorted;
    } else {
      var rest := InsertByPriority(x, sorted[1..]);
      assert r[0] == sorted[0] && r[1..] == rest;
      InsertJoinsTieGroupFirst(x, sorted[1..], p);
      assert sorted[0].priority != x.priority;
    }
  }

  /** Insertion sort by priority. Besides ordering the rules it keeps every
      tie group in its original order, as Java's stable `sorted` does. */
  function SortByPriorityKeys(rules: seq<AlertRule>): (r: seq<AlertRule>)
    requires AllPrioritized(rules)
    ensures AllPrioritized(r) && SortedByPriority(r)
    ensures multiset(r) == multiset(rules)
    ensures forall p :: WithPriority(r, p) == WithPriority(rules, p)
  {
    if |rules| == 0 then []
    else
      assert rules == [rules[0]] + rules[1..];
      var tail := SortByPriorityKeys(rules[1..]);
      assert forall p :: WithPriority(InsertByPriority(rules[0], tail), p) == WithPriority(rules, p) by {
        forall p ensures WithPriority(InsertByPriority(rules[0], tail), p) == WithPriority(rules, p) {
          InsertJoinsTieGroupFirst(rules[0], tail, p);
        }
      }
      InsertByPriority(rules[0], tail)
  }

  /** `stream.sorted(Comparator.comparing(AlertRule::getPriority))`. With two or
      more rules every rule takes part in some comparison, so a null priority
      anywhere throws; a single rule is never compared. */
  function SortRules(rules: seq<AlertRule>): (r: Result<seq<AlertRule>, Exception>)
    ensures r.Err? <==> |rules| >= 2 && !AllPrioritized(rules)
    ensures r.Ok? ==> multiset(r.value) == multiset(rules)
    ensures r.Ok? && AllPrioritized(rules) ==> AllPrioritized(r.value) && SortedByPriority(r.value)
    ensures r.Ok? ==> forall p :: WithPriority(r.value, p) == WithPriority(rules, p)
  {
    if |rules| < 2 then Ok(rules)
    else if !AllPrioritized(rules) then Err(NullPointer)
    else Ok(SortByPriorityKeys(rules))
  }

  /** The rules of `rules` satisfying `keep`, in order. */
  function Filter(rules: seq<AlertRule>, keep: AlertRule -> bool): (r: seq<AlertRule>)
    ensures |r| <= |rules|
    ensures forall x :: x in r <==> x in rules && keep(x)
    ensures multiset(r) <= multiset(rules)
    ensures forall x :: x in multiset(r) ==> multiset(r)[x] == multiset(rules)[x]
  {
    if |rules| == 0 then []
    else
      assert rules == [rules[0]] + rules[1..];
      var rest := Filter(rules[1..], keep);
      if keep(rules[0]) then [rules[0]] + rest else rest
  }
}
