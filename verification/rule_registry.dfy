/** The in-memory alert-rule registry: an id -> rule map plus the next id to
    hand out. Every operation is a function from the old registry to the new
    one and the Java return value (or exception). */
module RuleRegistry {
  import opened Wrappers
  import opened Exceptions
  import opened Text
  import opened TriggerConditions
  import opened AlertRules

  datatype Registry = Registry(cache: map<int, AlertRule>, nextRuleId: int)

  /** A registry operation's new state and its return value or exception. */
  datatype Outcome<T> = Outcome(registry: Registry, result: Result<T, Exception>)

  /** Every stored rule sits under its own id, and every id is below the next
      one to be handed out. */
  predicate Inv(reg: Registry) {
    reg.nextRuleId >= 1 &&
    forall k :: k in reg.cache ==> 1 <= k < reg.nextRuleId && reg.cache[k].id == Some(k)
  }

  /** A freshly constructed registry, before `init`. */
  const Empty: Registry := Registry(map[], 1)

  // ---------------------------------------------------------------------------
  // Iteration order of the map's values
  // ---------------------------------------------------------------------------

  predicate StrictlyIncreasing(s: seq<int>) {
    forall i, j :: 0 <= i < j < |s| ==> s[i] < s[j]
  }

  /** The keys of `cache` in `[lo, hi)`, ascending. */
  function KeysBetween(keys: set<int>, lo: int, hi: int): (r: seq<int>)
    ensures forall k :: k in r <==> lo <= k < hi && k in keys
    ensures StrictlyIncreasing(r)
    ensures forall i :: 0 <= i < |r| ==> lo <= r[i] < hi
    decreases hi - lo
  {
    if lo >= hi then [] else (if lo in keys then [lo] else []) + KeysBetween(keys, lo + 1, hi)
  }

  /** `ruleCache.values()` in iteration order, which is ascending id order for
      the registry's small Long keys. Every key lies in `[1, nextRuleId)` by
      `Inv`. */
  function Values(reg: Registry): (r: seq<AlertRule>)
    ensures forall x :: x in r ==> x in reg.cache.Values
    ensures Inv(reg) ==> forall k :: k in reg.cache ==> reg.cache[k] in r
  {
    var keys := KeysBetween(reg.cache.Keys, 1, reg.nextRuleId);
    var r := seq(|keys|, i requires 0 <= i < |keys| => reg.cache[keys[i]]);
    assert forall k :: k in keys ==> reg.cache[k] in r by {
      forall k | k in keys ensures reg.cache[k] in r {
        var i :| 0 <= i < |keys| && keys[i] == k;
        assert r[i] == reg.cache[k];
      }
    }
    r
  }

  // ---------------------------------------------------------------------------
  // Queries
  // ---------------------------------------------------------------------------

  predicate IsEnabled(r: AlertRule) {
    r.enabled == Some(true)
  }

  /** `getEnabledRules()`: the enabled rules in ascending priority; a failed
      sort (a null priority) is caught and yields the empty list. */
  function GetEnabledRules(reg: Registry): (r: seq<AlertRule>)
    ensures var enabled := Filter(Values(reg), IsEnabled);
      if |enabled| >= 2 && !AllPrioritized(enabled) then r == []
      else multiset(r) == multiset(enabled) && (AllPrioritized(enabled) ==> AllPrioritized(r) && SortedByPriority(r))
    ensures var enabled := Filter(Values(reg), IsEnabled);
      !(|enabled| >= 2 && !AllPrioritized(enabled)) ==> forall p :: WithPriority(r, p) == WithPriority(enabled, p)
    ensures forall x :: x in r ==> IsEnabled(x) && x in reg.cache.Values
  {
    var enabled := Filter(Values(reg), IsEnabled);
    match SortRules(enabled)
    case Ok(sorted) =>
      assert forall x :: x in sorted ==> x in multiset(enabled);
      sorted
    case Err(_) => []
  }

  /** `getAllRules()`: every stored rule. */
  function GetAllRules(reg: Registry): (r: seq<AlertRule>)
    ensures forall x :: x in r ==> x in reg.cache.Values
    ensures Inv(reg) ==> forall x :: x in reg.cache.Values ==> x in r
  {
    Values(reg)
  }

  /** `getRulesByType(type)`: empty for a null type; otherwise the rules of that
      type in ascending priority, or empty when the sort throws. */
  function GetRulesByType(reg: Registry, t: Option<RuleType>): (r: seq<AlertRule>)
    ensures t.None? ==> r == []
    ensures t.Some? ==> var ofType := Filter(Values(reg), (x: AlertRule) => x.ruleType == t);
      if |ofType| >= 2 && !AllPrioritized(ofType) then r == []
      else multiset(r) == multiset(ofType) && (AllPrioritized(ofType) ==> AllPrioritized(r) && SortedByPriority(r))
    ensures t.Some? ==> var ofType := Filter(Values(reg), (x: AlertRule) => x.ruleType == t);
      !(|ofType| >= 2 && !AllPrioritized(ofType)) ==> forall p :: WithPriority(r, p) == WithPriority(ofType, p)
  {
    match t
    case None => []
    case Some(_) =>
      match SortRules(Filter(Values(reg), (x: AlertRule) => x.ruleType == t))
      case Ok(sorted) => sorted
      case Err(_) => []
  }

  /** `getRuleById(id)`. */
  function GetRuleById(reg: Registry, id: Option<int>): (r: Option<AlertRule>)
    ensures r.Some? <==> id.Some? && id.value in reg.cache
    ensures r.Some? ==> r.value == reg.cache[id.value]
  {
    if id.Some? && id.value in reg.cache then Some(reg.cache[id.value]) else None
  }

  // ---------------------------------------------------------------------------
  // Initialisation
  // ---------------------------------------------------------------------------

  /** The rule `createDefaultRule` stores under `id`. */
  function DefaultRule(id: int, name: string, days: int, channels: seq<Option<string>>, priority: int, now: Instant): AlertRule {
    NewRule(Some(name), Some(TimeBased), Some(days), Some(priority), Some(true), Some(channels), now).(id := Some(id))
  }

  /** The four built-in rules at 30, 15, 7 and 1 days. */
  function DefaultRules(now: Instant): seq<AlertRule> {
    [ DefaultRule(1, "30天预警", 30, [Some("EMAIL")], 1, now),
      DefaultRule(2, "15天预警", 15, [Some("EMAIL")], 2, now),
      DefaultRule(3, "7天预警", 7, [Some("EMAIL"), Some("SMS")], 3, now),
      DefaultRule(4, "1天预警", 1, [Some("EMAIL"), Some("SMS")], 4, now) ]
  }

  /** `initializeDefaultRules()`: the old contents are discarded and ids
      restart at 1. */
  function InitializeDefaultRules(reg: Registry, now: Instant): (r: Registry)
    ensures Inv(r) && r.nextRuleId == 5 && r.cache.Keys == {1, 2, 3, 4}
    ensures forall k :: k in r.cache ==>
      var rule := r.cache[k];
      IsEnabled(rule) && rule.ruleType == Some(TimeBased) && rule.priority == Some(k) &&
      rule.daysBefore == Some([30, 15, 7, 1][k - 1]) && WellFormed(rule)
  {
    var d := DefaultRules(now);
    DefaultRulesFacts(now);
    MapOfFour(d);
    Registry(map[1 := d[0], 2 := d[1], 3 := d[2], 4 := d[3]], 5)
  }

  /** What the built-in rule at position `i` carries. */
  lemma DefaultRulesFacts(now: Instant)
    ensures var d := DefaultRules(now);
      |d| == 4 &&
      forall i :: 0 <= i < 4 ==>
        WellFormed(d[i]) && IsEnabled(d[i]) && d[i].ruleType == Some(TimeBased) &&
        d[i].priority == Some(i + 1) && d[i].daysBefore == Some([30, 15, 7, 1][i]) && d[i].id == Some(i + 1)
  {
    assert "30天预警"[0] > ' ' && "15天预警"[0] > ' ' && "7天预警"[0] > ' ' && "1天预警"[0] > ' ';
  }

  /** Four values keyed 1 to 4. */
  lemma MapOfFour<T>(d: seq<T>)
    requires |d| == 4
    ensures var m := map[1 := d[0], 2 := d[1], 3 := d[2], 4 := d[3]];
      m.Keys == {1, 2, 3, 4} && forall k :: k in m ==> m[k] == d[k - 1]
  {
  }

  /** `init()`: the defaults when enabled, otherwise the empty registry. */
  function Init(defaultRulesEnabled: bool, now: Instant): (r: Registry)
    ensures Inv(r)
    ensures !defaultRulesEnabled ==> r.cache == map[]
    ensures defaultRulesEnabled ==> |r.cache| == 4
  {
    if defaultRulesEnabled then InitializeDefaultRules(Empty, now) else Empty
  }

  /** After initialisation the enabled rules are the four defaults in
      priority order 30, 15, 7, 1 days. */
  lemma DefaultEnabledRules(now: Instant)
    ensures GetEnabledRules(Init(true, now)) == DefaultRules(now)
  {
    var d := DefaultRules(now);
    DefaultValues(now);
    DefaultsAllEnabled(now);
    DefaultsSorted(now);
    SortSortedIdentity(d);
  }

  lemma DefaultValues(now: Instant)
    ensures Values(Init(true, now)) == DefaultRules(now)
  {
    var d := DefaultRules(now);
    var m := map[1 := d[0], 2 := d[1], 3 := d[2], 4 := d[3]];
    assert Init(true, now) == Registry(m, 5);
    assert m.Keys == {1, 2, 3, 4};
    ValuesOfFour(m);
    assert [m[1], m[2], m[3], m[4]] == d;
  }

  lemma ValuesOfFour(m: map<int, AlertRule>)
    requires m.Keys == {1, 2, 3, 4}
    ensures Values(Registry(m, 5)) == [m[1], m[2], m[3], m[4]]
  {
    KeysOneToFour();
  }

  lemma KeysOneToFour()
    ensures KeysBetween({1, 2, 3, 4}, 1, 5) == [1, 2, 3, 4]
  {
    assert KeysBetween({1, 2, 3, 4}, 5, 5) == [];
    assert KeysBetween({1, 2, 3, 4}, 4, 5) == [4];
    assert KeysBetween({1, 2, 3, 4}, 3, 5) == [3, 4];
    assert KeysBetween({1, 2, 3, 4}, 2, 5) == [2, 3, 4];
  }

  lemma DefaultsAllEnabled(now: Instant)
    ensures Filter(DefaultRules(now), IsEnabled) == DefaultRules(now)
  {
    var d := DefaultRules(now);
    assert forall x :: x in d ==> IsEnabled(x);
    FilterKeepsAll(d, IsEnabled);
  }

  lemma {:induction false} FilterKeepsAll(rules: seq<AlertRule>, keep: AlertRule -> bool)
    requires forall x :: x in rules ==> keep(x)
    ensures Filter(rules, keep) == rules
  {
    if |rules| > 0 {
      FilterKeepsAll(rules[1..], keep);
    }
  }

  lemma DefaultsSorted(now: Instant)
    ensures AllPrioritized(DefaultRules(now)) && SortedByPriority(DefaultRules(now))
  {
  }

  /** Sorting an already sorted list changes nothing. */
  lemma {:induction false} SortSortedIdentity(rules: seq<AlertRule>)
    requires AllPrioritized(rules) && SortedByPriority(rules)
    ensures SortByPriorityKeys(rules) == rules
  {
    if |rules| > 0 {
      SortSortedIdentity(rules[1..]);
      assert rules == [rules[0]] + rules[1..];
    }
  }

  // ---------------------------------------------------------------------------
  // Validation and duplicates
  // ---------------------------------------------------------------------------

  const MsgRuleMissing: string := "预警规则不能为空"

  /** `validateRule(rule)`: "" when valid, otherwise the validation message. */
  function ValidateRule(rule: Option<AlertRule>): (msg: string)
    ensures rule.None? ==> msg == MsgRuleMissing
    ensures rule.Some? ==> (msg == "" <==> WellFormed(rule.value))
  {
    match rule
    case None => MsgRuleMissing
    case Some(r) =>
      match Validate(r)
      case None => ""
      case Some(m) =>
        assert |m| > 0 by {
          if m != MsgChannelsMissing && m != MsgNameMissing && m != MsgTypeMissing && m != MsgPriorityInvalid
             && m != MsgDaysNegative && m != MsgDaysTooLarge {
            assert |m| >= |MsgChannelUnsupportedPrefix|;
          }
        }
        m
  }

  /** `isDuplicateRule(existing, new)`: same type, and for time-based rules the
      same advance notice. */
  predicate IsDuplicateRule(existing: AlertRule, newRule: AlertRule) {
    existing.ruleType == newRule.ruleType && newRule.ruleType == Some(TimeBased) &&
    existing.daysBefore == newRule.daysBefore
  }

  /** `hasDuplicateRule(rule)`: some stored rule with a different id clashes. */
  function HasDuplicateRule(reg: Registry, rule: Option<AlertRule>): (b: bool)
    ensures rule.None? || rule.value.ruleType.None? ==> !b
    ensures rule.Some? && rule.value.ruleType != Some(TimeBased) ==> !b
    ensures rule.Some? ==> (b <==> (exists k :: k in reg.cache && reg.cache[k].id != rule.value.id &&
                                             reg.cache[k].ruleType == Some(TimeBased) && rule.value.ruleType == Some(TimeBased) &&
                                             reg.cache[k].daysBefore == rule.value.daysBefore))
  {
    match rule
    case None => false
    case Some(r) =>
      r.ruleType.Some? &&
      exists k :: k in reg.cache && reg.cache[k].id != r.id && IsDuplicateRule(reg.cache[k], r)
  }

  // ---------------------------------------------------------------------------
  // Updates
  // ---------------------------------------------------------------------------

  const MsgAddFailedPrefix: string := "添加预警规则失败: "
  const MsgUpdateFailedPrefix: string := "更新预警规则失败: "
  const MsgDuplicatePrefix: string := "预警规则已存在重复配置: "
  const MsgRuleNotFoundPrefix: string := "预警规则不存在: "

  /** `addRule(rule)`. A null rule gives null. An invalid or duplicate rule
      throws a RuntimeException and leaves the registry as it was. Otherwise
      the rule is stored under the next id, which then advances. */
  function AddRule(reg: Registry, rule: Option<AlertRule>, now: Instant): (o: Outcome<Option<AlertRule>>)
    ensures o.result.Err? || rule.None? ==> o.registry == reg
    ensures rule.None? ==> o.result == Ok(None)
    ensures rule.Some? && !WellFormed(rule.value) ==>
      o.result == Err(Runtime(MsgAddFailedPrefix + ValidateRule(rule)))
    ensures rule.Some? && WellFormed(rule.value) && HasDuplicateRule(reg, rule) ==>
      o.result == Err(Runtime(MsgAddFailedPrefix + MsgDuplicatePrefix + rule.value.name.value))
    ensures rule.Some? && WellFormed(rule.value) && !HasDuplicateRule(reg, rule) ==>
      var added := rule.value.(id := Some(reg.nextRuleId), createdAt := Some(now), updatedAt := Some(now));
      o.result == Ok(Some(added)) &&
      o.registry == Registry(reg.cache[reg.nextRuleId := added], reg.nextRuleId + 1)
  {
    match rule
    case None => Outcome(reg, Ok(None))
    case Some(r) =>
      var error := ValidateRule(rule);
      if error != "" then Outcome(reg, Err(Runtime(MsgAddFailedPrefix + error)))
      else if HasDuplicateRule(reg, rule) then Outcome(reg, Err(Runtime(MsgAddFailedPrefix + MsgDuplicatePrefix + Show(r.name))))
      else
        var added := r.(id := Some(reg.nextRuleId), createdAt := Some(now), updatedAt := Some(now));
        Outcome(Registry(reg.cache[reg.nextRuleId := added], reg.nextRuleId + 1), Ok(Some(added)))
  }

  /** `updateRule(rule)`. A null rule or id gives null. An unknown id or an
      invalid rule throws and changes nothing. Otherwise exactly the entry
      under that id is replaced; duplicates are not checked. */
  function UpdateRule(reg: Registry, rule: Option<AlertRule>, now: Instant): (o: Outcome<Option<AlertRule>>)
    ensures o.result.Err? || rule.None? || rule.value.id.None? ==> o.registry == reg
    ensures rule.None? || rule.value.id.None? ==> o.result == Ok(None)
    ensures rule.Some? && rule.value.id.Some? && rule.value.id.value !in reg.cache ==>
      o.result == Err(Runtime(MsgUpdateFailedPrefix + MsgRuleNotFoundPrefix + IntToString(rule.value.id.value)))
    ensures rule.Some? && rule.value.id.Some? && rule.value.id.value in reg.cache && !WellFormed(rule.value) ==>
      o.result == Err(Runtime(MsgUpdateFailedPrefix + ValidateRule(rule)))
    ensures o.result.Ok? && o.result.value.Some? ==>
      var id := rule.value.id.value;
      rule.value.id.value in reg.cache && WellFormed(rule.value) &&
      o.result.value.value == rule.value.(updatedAt := Some(now)) &&
      o.registry == Registry(reg.cache[id := rule.value.(updatedAt := Some(now))], reg.nextRuleId)
  {
    match rule
    case None => Outcome(reg, Ok(None))
    case Some(r) =>
      match r.id
      case None => Outcome(reg, Ok(None))
      case Some(id) =>
        if id !in reg.cache then Outcome(reg, Err(Runtime(MsgUpdateFailedPrefix + MsgRuleNotFoundPrefix + IntToString(id))))
        else
          var error := ValidateRule(rule);
          if error != "" then Outcome(reg, Err(Runtime(MsgUpdateFailedPrefix + error)))
          else
            var updated := r.(updatedAt := Some(now));
            Outcome(Registry(reg.cache[id := updated], reg.nextRuleId), Ok(Some(updated)))
  }

  /** `deleteRule(id)`: true iff an entry was removed; only that entry goes. */
  function DeleteRule(reg: Registry, id: Option<int>): (r: (Registry, bool))
    ensures r.1 <==> id.Some? && id.value in reg.cache
    ensures r.0.nextRuleId == reg.nextRuleId
    ensures r.0.cache == if id.Some? then reg.cache - {id.value} else reg.cache
  {
    match id
    case None => (reg, false)
    case Some(k) => (Registry(reg.cache - {k}, reg.nextRuleId), k in reg.cache)
  }

  /** `setRuleEnabled(id, enabled)`: true iff the id is present; only that rule's
      flag and update time change. */
  function SetRuleEnabled(reg: Registry, id: Option<int>, enabled: bool, now: Instant): (r: (Registry, bool))
    ensures r.1 <==> id.Some? && id.value in reg.cache
    ensures !r.1 ==> r.0 == reg
    ensures r.1 ==> (r.0.nextRuleId == reg.nextRuleId && r.0.cache.Keys == reg.cache.Keys &&
                     r.0.cache[id.value].enabled == Some(enabled) &&
                     r.0.cache[id.value].(enabled := reg.cache[id.value].enabled, updatedAt := reg.cache[id.value].updatedAt) == reg.cache[id.value] &&
                     forall k :: k in reg.cache && k != id.value ==> r.0.cache[k] == reg.cache[k])
  {
    match id
    case None => (reg, false)
    case Some(k) =>
      if k !in reg.cache then (reg, false)
      else (Registry(reg.cache[k := reg.cache[k].(enabled := Some(enabled), updatedAt := Some(now))], reg.nextRuleId), true)
  }

  function EnableRule(reg: Registry, id: Option<int>, now: Instant): (Registry, bool) {
    SetRuleEnabled(reg, id, true, now)
  }

  function DisableRule(reg: Registry, id: Option<int>, now: Instant): (Registry, bool) {
    SetRuleEnabled(reg, id, false, now)
  }

  // ---------------------------------------------------------------------------
  // Invariant and counting lemmas
  // ---------------------------------------------------------------------------

  /** Every operation keeps ids fresh and entries under their own id. */
  lemma {:induction false} OperationsPreserveInv(reg: Registry, rule: Option<AlertRule>, id: Option<int>, flag: bool, now: Instant)
    requires Inv(reg)
    ensures Inv(AddRule(reg, rule, now).registry)
    ensures Inv(UpdateRule(reg, rule, now).registry)
    ensures Inv(DeleteRule(reg, id).0)
    ensures Inv(SetRuleEnabled(reg, id, flag, now).0)
    ensures Inv(InitializeDefaultRules(reg, now))
  {
  }

  /** A successful add grows the registry by exactly one entry, because the
      next id is never in use. */
  lemma AddGrowsByOne(reg: Registry, rule: AlertRule, now: Instant)
    requires Inv(reg)
    requires AddRule(reg, Some(rule), now).result.Ok?
    ensures |AddRule(reg, Some(rule), now).registry.cache| == |reg.cache| + 1
    ensures AddRule(reg, Some(rule), now).result.value.value.id == Some(reg.nextRuleId)
  {
    assert reg.nextRuleId !in reg.cache;
  }

  function EnabledIds(reg: Registry): set<int> {
    set k | k in reg.cache && IsEnabled(reg.cache[k])
  }

  /** Enabling or disabling one rule changes the number of enabled rules by at
      most one, in the direction of the flag. */
  lemma SetEnabledCountChange(reg: Registry, id: Option<int>, flag: bool, now: Instant)
    ensures var after := EnabledIds(SetRuleEnabled(reg, id, flag, now).0);
      var before := EnabledIds(reg);
      (flag ==> before <= after && |after| <= |before| + 1) &&
      (!flag ==> after <= before && |before| <= |after| + 1)
  {
    var r := SetRuleEnabled(reg, id, flag, now);
    var after := EnabledIds(r.0);
    var before := EnabledIds(reg);
    if r.1 {
      var k := id.value;
      if flag {
        assert after <= before + {k};
        SubsetCard(after, before + {k});
      } else {
        assert before <= after + {k};
        SubsetCard(before, after + {k});
      }
    }
  }

  lemma SubsetCard(a: set<int>, b: set<int>)
    requires a <= b
    ensures |a| <= |b|
  {
    assert b == a + (b - a);
  }
}
