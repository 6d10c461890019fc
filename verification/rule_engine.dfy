/** The alert-rule engine: which rules a certificate triggers, in which
    order, and which of a list of rules ranks highest.

    The engine reads the registry's enabled rules; here they are the
    parameter `enabledRules`, and `DefaultRulesScenario` connects it to the
    registry's initial state. */
module RuleEngine {
  import opened Wrappers
  import opened Exceptions
  import opened Certificates
  import opened AlertRules
  import opened RuleRegistry
  import opened JavaInts

  /** `calculateDaysUntilExpiry(certificate)`: Integer.MAX_VALUE without a
      certificate or expiry date, otherwise the day count clamped to the int
      range. */
  function CalculateDaysUntilExpiry(c: Option<Certificate>, today: int): (d: int)
    ensures IntMin <= d <= IntMax
    ensures c.None? || c.value.expiryDate.None? ==> d == IntMax
    ensures c.Some? && c.value.expiryDate.Some? ==>
      var days := c.value.expiryDate.value - today;
      (IntMin <= days <= IntMax ==> d == days) &&
      (days > IntMax ==> d == IntMax) &&
      (days < IntMin ==> d == IntMin)
  {
    if c.None? || c.value.expiryDate.None? then IntMax
    else
      var days := DaysUntilExpiry(c.value, today);
      if days > IntMax then IntMax
      else if days < IntMin then IntMin
      else days
  }

  /** `evaluateRule(rule, certificate)`. Unboxing a null `enabled` happens
      before the try block, so that NullPointerException escapes; a null type
      fails the switch inside the try block and yields false. Only
      TIME_BASED rules can fire: when the clamped day count lies in
      `[0, daysBefore]`. */
  function EvaluateRule(rule: Option<AlertRule>, c: Option<Certificate>, today: int): (res: Result<bool, Exception>)
    ensures rule.None? || c.None? ==> res == Ok(false)
    ensures res.Err? <==> rule.Some? && c.Some? && rule.value.enabled.None?
    ensures res.Err? ==> res.error == NullPointer
    ensures res == Ok(true) <==>
      rule.Some? && c.Some? && rule.value.enabled == Some(true) && rule.value.ruleType == Some(TimeBased) &&
      rule.value.daysBefore.Some? &&
      0 <= CalculateDaysUntilExpiry(c, today) <= rule.value.daysBefore.value
  {
    if rule.None? || c.None? then Ok(false)
    else
      var r := rule.value;
      if r.enabled.None? then Err(NullPointer)
      else if !r.enabled.value then Ok(false)
      else
        match r.ruleType
        case None => Ok(false)
        case Some(TimeBased) =>
          if r.daysBefore.None? then Ok(false)
          else
            var d := CalculateDaysUntilExpiry(c, today);
            Ok(d <= r.daysBefore.value && d >= 0)
        case Some(StatusChange) => Ok(false)
        case Some(Custom) => Ok(false)
  }

  /** The engine fires a rule exactly when the rule itself says it should
      trigger for the certificate's clamped day count, except that the engine
      answers false where the rule's own check would throw on a missing
      `daysBefore`. */
  lemma EvaluateRuleAgreesWithRule(r: AlertRule, c: Certificate, today: int)
    requires r.enabled.Some?
    ensures EvaluateRule(Some(r), Some(c), today) == Ok(true) <==>
      ShouldTriggerFor(r, Some(CalculateDaysUntilExpiry(Some(c), today))) == Ok(true)
  {
  }

  /** An expired certificate never fires a rule. */
  lemma ExpiredNeverFires(r: AlertRule, c: Certificate, today: int)
    requires c.expiryDate.Some? && c.expiryDate.value < today
    ensures EvaluateRule(Some(r), Some(c), today) != Ok(true)
  {
  }

  /** `evaluateRules(certificate)`: the rules are tried in order and the
      first one that fires answers true; an exception from any rule tried
      before that ends the loop and is caught, answering false. */
  function EvaluateRules(c: Option<Certificate>, enabledRules: seq<AlertRule>, today: int): (b: bool)
    ensures c.None? ==> !b
    ensures b <==> exists i :: FirstFiresAt(c, enabledRules, today, i)
    decreases |enabledRules|
  {
    if c.None? || |enabledRules| == 0 then false
    else
      match EvaluateRule(Some(enabledRules[0]), c, today)
      case Ok(true) =>
        assert FirstFiresAt(c, enabledRules, today, 0);
        true
      case Err(_) =>
        assert forall i :: FirstFiresAt(c, enabledRules, today, i) ==> i == 0;
        false
      case Ok(false) =>
        var rest := EvaluateRules(c, enabledRules[1..], today);
        EvaluateRulesTail(c, enabledRules, today);
        rest
  }

  /** Rule `i` is the first that fires and every rule before it answers
      false. */
  predicate FirstFiresAt(c: Option<Certificate>, rules: seq<AlertRule>, today: int, i: int) {
    0 <= i < |rules| && EvaluateRule(Some(rules[i]), c, today) == Ok(true) &&
    forall j :: 0 <= j < i ==> EvaluateRule(Some(rules[j]), c, today) == Ok(false)
  }

  /** After a first rule that answers false, the first firing rule of the
      list is the first firing rule of the rest, one place later. */
  lemma EvaluateRulesTail(c: Option<Certificate>, rules: seq<AlertRule>, today: int)
    requires |rules| > 0 && EvaluateRule(Some(rules[0]), c, today) == Ok(false)
    ensures (exists i :: FirstFiresAt(c, rules[1..], today, i)) <==> (exists i :: FirstFiresAt(c, rules, today, i))
  {
    if i :| FirstFiresAt(c, rules[1..], today, i) {
      forall j | 0 <= j < i + 1 ensures EvaluateRule(Some(rules[j]), c, today) == Ok(false) {
        if j > 0 { assert rules[j] == rules[1..][j - 1]; }
      }
      assert FirstFiresAt(c, rules, today, i + 1);
    }
    if i :| FirstFiresAt(c, rules, today, i) {
      assert i > 0;
      forall j | 0 <= j < i - 1 ensures EvaluateRule(Some(rules[1..][j]), c, today) == Ok(false) {
        assert rules[1..][j] == rules[j + 1];
      }
      assert FirstFiresAt(c, rules[1..], today, i - 1);
    }
  }

  /** Whether `r` fires for `c`, counting an exception as not firing. */
  predicate Fires(c: Option<Certificate>, today: int, r: AlertRule) {
    EvaluateRule(Some(r), c, today) == Ok(true)
  }

  /** The rules of `rules` that fire for `c`, in order. */
  function Firing(rules: seq<AlertRule>, c: Option<Certificate>, today: int): (r: seq<AlertRule>)
    ensures forall x :: x in r <==> x in rules && Fires(c, today, x)
    ensures |r| <= |rules|
    ensures AllPrioritized(rules) ==> AllPrioritized(r)
    ensures AllPrioritized(rules) && SortedByPriority(rules) ==> SortedByPriority(r)
    ensures c.None? ==> r == []
  {
    if |rules| == 0 then []
    else
      assert forall x :: x in rules <==> x == rules[0] || x in rules[1..];
      var rest := Firing(rules[1..], c, today);
      var r := (if Fires(c, today, rules[0]) then [rules[0]] else []) + rest;
      SortedCons(rules, Fires(c, today, rules[0]), rest);
      r
  }

  /** Keeping or dropping the first of sorted rules, in front of a sorted
      selection from the others, gives sorted rules. */
  lemma SortedCons(rules: seq<AlertRule>, keep: bool, rest: seq<AlertRule>)
    requires |rules| > 0 && forall y :: y in rest ==> y in rules[1..]
    requires AllPrioritized(rules) && SortedByPriority(rules) ==> AllPrioritized(rest) && SortedByPriority(rest)
    ensures AllPrioritized(rules) && SortedByPriority(rules) ==>
      var r := (if keep then [rules[0]] else []) + rest;
      AllPrioritized(r) && SortedByPriority(r)
  {
    if !(AllPrioritized(rules) && SortedByPriority(rules)) {
      return;
    }
    var r := (if keep then [rules[0]] else []) + rest;
    forall i, j | 0 <= i < j < |r| ensures r[i].priority.value <= r[j].priority.value {
      if keep && i == 0 {
        assert r[j] in rest;
        var k :| 0 <= k < |rules[1..]| && rules[1..][k] == r[j];
        assert rules[k + 1] == r[j];
      }
    }
  }

  /** The stream filter of `getTriggeredRules`: the rules that fire, in order,
      or the first exception raised by `evaluateRule`. */
  function FilterFiring(rules: seq<AlertRule>, c: Option<Certificate>, today: int): (res: Result<seq<AlertRule>, Exception>)
    ensures res.Err? <==> exists i :: 0 <= i < |rules| && EvaluateRule(Some(rules[i]), c, today).Err?
    ensures res.Ok? ==> res.value == Firing(rules, c, today)
  {
    if |rules| == 0 then Ok([])
    else
      var head := EvaluateRule(Some(rules[0]), c, today);
      if head.Err? then Err(head.error)
      else
        var rest := FilterFiring(rules[1..], c, today);
        assert forall i :: 0 < i < |rules| ==> rules[i] == rules[1..][i - 1];
        if rest.Err? then rest
        else if head.value then Ok([rules[0]] + rest.value)
        else rest
  }

  /** `getTriggeredRules(certificate)`: the enabled rules that fire, sorted by
      ascending priority; empty for a null certificate and whenever an
      evaluation or the sort throws. */
  function GetTriggeredRules(c: Option<Certificate>, enabledRules: seq<AlertRule>, today: int): (r: seq<AlertRule>)
    ensures c.None? ==> r == []
    ensures forall x :: x in r ==> x in enabledRules && Fires(c, today, x)
    ensures (forall x :: x in enabledRules ==> x.enabled.Some?) && AllPrioritized(enabledRules) ==>
      var firing := Firing(enabledRules, c, today);
      multiset(r) == multiset(firing) && AllPrioritized(r) && SortedByPriority(r) &&
      forall p :: WithPriority(r, p) == WithPriority(firing, p)
  {
    if c.None? then []
    else
      match FilterFiring(enabledRules, c, today)
      case Err(_) => []
      case Ok(firing) =>
        match SortRules(firing)
        case Err(_) => []
        case Ok(sorted) =>
          assert forall x :: x in sorted ==> x in multiset(firing);
          sorted
  }

  /** When no rule evaluation throws and every rule has a priority,
      `evaluateRules` answers true exactly when `getTriggeredRules` is
      non-empty. */
  lemma EvaluateRulesIffTriggered(c: Option<Certificate>, enabledRules: seq<AlertRule>, today: int)
    requires forall x :: x in enabledRules ==> x.enabled.Some?
    requires AllPrioritized(enabledRules)
    ensures EvaluateRules(c, enabledRules, today) <==> GetTriggeredRules(c, enabledRules, today) != []
  {
    TriggeredNonEmptyIffFiring(c, enabledRules, today);
    EvaluateRulesIffFiring(c, enabledRules, today);
  }

  /** With no rule that throws, `evaluateRules` is true exactly when some
      rule fires. */
  lemma EvaluateRulesIffFiring(c: Option<Certificate>, rules: seq<AlertRule>, today: int)
    requires forall x :: x in rules ==> x.enabled.Some?
    ensures EvaluateRules(c, rules, today) <==> Firing(rules, c, today) != []
  {
    var firing := Firing(rules, c, today);
    if EvaluateRules(c, rules, today) {
      var i :| 0 <= i < |rules| && EvaluateRule(Some(rules[i]), c, today) == Ok(true);
      assert rules[i] in firing;
    } else if |firing| > 0 {
      assert firing[0] in firing;
      var i :| 0 <= i < |rules| && rules[i] == firing[0];
      FirstFiring(c, rules, today, i);
    }
  }

  /** The sorted result is empty exactly when nothing fires. */
  lemma TriggeredNonEmptyIffFiring(c: Option<Certificate>, enabledRules: seq<AlertRule>, today: int)
    requires forall x :: x in enabledRules ==> x.enabled.Some?
    requires AllPrioritized(enabledRules)
    ensures GetTriggeredRules(c, enabledRules, today) == [] <==> Firing(enabledRules, c, today) == []
  {
    var r := GetTriggeredRules(c, enabledRules, today);
    var firing := Firing(enabledRules, c, today);
    assert |multiset(r)| == |r| && |multiset(firing)| == |firing|;
  }

  /** If some rule fires and none throws, `evaluateRules` is true. */
  lemma {:induction false} FirstFiring(c: Option<Certificate>, rules: seq<AlertRule>, today: int, i: nat)
    requires forall x :: x in rules ==> x.enabled.Some?
    requires i < |rules| && Fires(c, today, rules[i])
    ensures EvaluateRules(c, rules, today)
    decreases i
  {
    assert rules[0] in rules;
    if i > 0 && EvaluateRule(Some(rules[0]), c, today) == Ok(false) {
      assert rules[i] == rules[1..][i - 1];
      assert forall x :: x in rules[1..] ==> x in rules;
      FirstFiring(c, rules[1..], today, i - 1);
    }
  }

  /** Position `i` holds the first rule of smallest priority: no rule has a
      smaller priority and every earlier rule a larger one. This is the
      element `Stream.min` keeps, since `minBy` prefers the earlier of two
      equal ones. */
  predicate IsFirstMin(rules: seq<AlertRule>, i: int)
    requires AllPrioritized(rules)
  {
    0 <= i < |rules| &&
    (forall j :: 0 <= j < |rules| ==> rules[i].priority.value <= rules[j].priority.value) &&
    (forall j :: 0 <= j < i ==> rules[j].priority.value > rules[i].priority.value)
  }

  /** At most one position is the first of the smallest priority. */
  lemma FirstMinUnique(rules: seq<AlertRule>, i: int, k: int)
    requires AllPrioritized(rules) && IsFirstMin(rules, i) && IsFirstMin(rules, k)
    ensures i == k
  {
    var pi, pk := rules[i].priority.value, rules[k].priority.value;
    assert pi <= pk && pk <= pi;
  }

  /** The position of the first rule of smallest priority. */
  function FirstMinIndex(rules: seq<AlertRule>): (i: nat)
    requires |rules| > 0 && AllPrioritized(rules)
    ensures i < |rules|
    ensures forall j :: 0 <= j < |rules| ==> rules[i].priority.value <= rules[j].priority.value
    ensures forall j :: 0 <= j < i ==> rules[j].priority.value > rules[i].priority.value
    ensures IsFirstMin(rules, i)
  {
    if |rules| == 1 then 0
    else
      var k := FirstMinIndex(rules[..|rules| - 1]);
      assert forall j :: 0 <= j < |rules| - 1 ==> rules[..|rules| - 1][j] == rules[j];
      if rules[k].priority.value <= rules[|rules| - 1].priority.value then k else |rules| - 1
  }

  /** The `min` of a non-empty list of enabled rules. */
  function MinByPriority(enabled: seq<AlertRule>): (res: Result<AlertRule, Exception>)
    requires |enabled| > 0
    ensures res.Err? <==> |enabled| >= 2 && !AllPrioritized(enabled)
    ensures |enabled| == 1 ==> res == Ok(enabled[0])
    ensures res.Ok? && AllPrioritized(enabled) ==>
      res.value in enabled && forall x :: x in enabled ==> res.value.priority.value <= x.priority.value
    ensures res.Ok? && AllPrioritized(enabled) ==>
      exists i :: IsFirstMin(enabled, i) && res.value == enabled[i]
  {
    if |enabled| == 1 then Ok(enabled[0])
    else if !AllPrioritized(enabled) then Err(NullPointer)
    else
      var i := FirstMinIndex(enabled);
      Ok(enabled[i])
  }

  /** `getHighestPriorityRule(rules)`: null for a null or empty list or when
      no rule is enabled; otherwise the first enabled rule of smallest
      priority. Comparing a null priority throws, which needs at least two
      enabled rules. */
  function GetHighestPriorityRule(rules: Option<seq<AlertRule>>): (res: Result<Option<AlertRule>, Exception>)
    ensures rules.None? ==> res == Ok(None)
    ensures rules.Some? ==> (res == Ok(None) <==> forall x :: x in rules.value ==> !IsEnabled(x))
    ensures rules.Some? ==> var enabled := Filter(rules.value, IsEnabled);
      (res.Err? <==> |enabled| >= 2 && exists x :: x in enabled && x.priority.None?)
    ensures res.Ok? && res.value.Some? ==>
      rules.Some? && res.value.value in rules.value && IsEnabled(res.value.value)
    ensures rules.Some? && res.Ok? && res.value.Some? ==> var enabled := Filter(rules.value, IsEnabled);
      AllPrioritized(enabled) ==> exists i :: IsFirstMin(enabled, i) && res.value.value == enabled[i]
  {
    if rules.None? || |rules.value| == 0 then Ok(None)
    else
      var enabled := Filter(rules.value, IsEnabled);
      assert |enabled| > 0 ==> enabled[0] in enabled;
      HighestAmong(enabled)
  }

  /** The outcome of `min` over the enabled rules, lifted to null for none. */
  function HighestAmong(enabled: seq<AlertRule>): (res: Result<Option<AlertRule>, Exception>)
    ensures res.Err? <==> |enabled| >= 2 && !AllPrioritized(enabled)
    ensures res == Ok(None) <==> |enabled| == 0
    ensures |enabled| == 1 ==> res == Ok(Some(enabled[0]))
    ensures res.Ok? && res.value.Some? && AllPrioritized(enabled) ==>
      res.value.value in enabled &&
      forall x :: x in enabled ==> res.value.value.priority.value <= x.priority.value
    ensures res.Ok? && res.value.Some? && AllPrioritized(enabled) ==>
      exists i :: IsFirstMin(enabled, i) && res.value.value == enabled[i]
  {
    if |enabled| == 0 then Ok(None)
    else
      match MinByPriority(enabled)
      case Ok(r) => Ok(Some(r))
      case Err(e) => Err(e)
  }

  // ---------------------------------------------------------------------------
  // The built-in rules
  // ---------------------------------------------------------------------------

  /** A certificate expiring `days` days after `today`. */
  function ExpiringIn(c: Certificate, today: int, days: int): Certificate {
    c.(expiryDate := Some(today + days))
  }

  /** With the registry's initial rules, a certificate five days from expiry
      triggers the 30-, 15- and 7-day rules but not the 1-day rule; one
      expiring today triggers all four. */
  lemma DefaultRulesScenario(c: Certificate, today: int, now: int)
    ensures var rules := GetEnabledRules(Init(true, now));
      var d := DefaultRules(now);
      GetTriggeredRules(Some(ExpiringIn(c, today, 5)), rules, today) == [d[0], d[1], d[2]] &&
      GetTriggeredRules(Some(ExpiringIn(c, today, 0)), rules, today) == d &&
      EvaluateRules(Some(ExpiringIn(c, today, 31)), rules, today) == false
  {
    DefaultEnabledRules(now);
    DefaultsAreLikeDefaults(now);
    LikeDefaultsScenario(DefaultRules(now), c, today);
  }

  /** Sorting changes nothing when the enabled rules are already in priority
      order: the triggered rules are then the firing ones in list order. */
  lemma TriggeredOfSorted(c: Certificate, rules: seq<AlertRule>, today: int)
    requires forall x :: x in rules ==> x.enabled.Some?
    requires AllPrioritized(rules) && SortedByPriority(rules)
    ensures GetTriggeredRules(Some(c), rules, today) == Firing(rules, Some(c), today)
  {
    var firing := Firing(rules, Some(c), today);
    FilterFiringOk(rules, Some(c), today);
    SortRulesSorted(firing);
  }

  /** Sorting rules already in priority order hands them back unchanged. */
  lemma SortRulesSorted(rules: seq<AlertRule>)
    requires AllPrioritized(rules) && SortedByPriority(rules)
    ensures SortRules(rules) == Ok(rules)
  {
    if |rules| >= 2 {
      SortSortedIdentity(rules);
    }
  }

  /** Rules whose enabled flag is set never make the filter throw. */
  lemma FilterFiringOk(rules: seq<AlertRule>, c: Option<Certificate>, today: int)
    requires forall x :: x in rules ==> x.enabled.Some?
    ensures FilterFiring(rules, c, today) == Ok(Firing(rules, c, today))
  {
    forall i | 0 <= i < |rules| ensures EvaluateRule(Some(rules[i]), c, today).Ok? {
      assert rules[i] in rules;
    }
  }

  /** The four built-in rules, described by what the scenarios need. */
  predicate LikeDefaults(d: seq<AlertRule>) {
    |d| == 4 &&
    (forall i :: 0 <= i < 4 ==> d[i].enabled == Some(true) && d[i].ruleType == Some(TimeBased) && d[i].priority == Some(i + 1)) &&
    d[0].daysBefore == Some(30) && d[1].daysBefore == Some(15) && d[2].daysBefore == Some(7) && d[3].daysBefore == Some(1)
  }

  lemma DefaultsAreLikeDefaults(now: int)
    ensures LikeDefaults(DefaultRules(now))
  {
  }

  lemma LikeDefaultsScenario(d: seq<AlertRule>, c: Certificate, today: int)
    requires LikeDefaults(d)
    ensures GetTriggeredRules(Some(ExpiringIn(c, today, 5)), d, today) == [d[0], d[1], d[2]]
    ensures GetTriggeredRules(Some(ExpiringIn(c, today, 0)), d, today) == d
    ensures !EvaluateRules(Some(ExpiringIn(c, today, 31)), d, today)
  {
    LikeDefaultsFiveDays(d, c, today);
    LikeDefaultsExpiryDay(d, c, today);
    LikeDefaultsThirtyOneDays(d, c, today);
  }

  /** A built-in-like rule fires exactly when the day count is within its
      `daysBefore`. */
  lemma LikeDefaultsFire(d: seq<AlertRule>, c: Certificate, today: int)
    requires LikeDefaults(d)
    ensures forall i :: 0 <= i < 4 ==>
      (Fires(Some(c), today, d[i]) <==> 0 <= CalculateDaysUntilExpiry(Some(c), today) <= d[i].daysBefore.value)
  {
  }

  /** Four elements listed one by one. */
  lemma ListFour<T>(d: seq<T>)
    requires |d| == 4
    ensures [d[0]] + ([d[1]] + ([d[2]] + [d[3]])) == d
    ensures [d[0]] + ([d[1]] + ([d[2]] + [])) == [d[0], d[1], d[2]]
  {
  }

  lemma LikeDefaultsFiveDays(d: seq<AlertRule>, c: Certificate, today: int)
    requires LikeDefaults(d)
    ensures GetTriggeredRules(Some(ExpiringIn(c, today, 5)), d, today) == [d[0], d[1], d[2]]
  {
    var c5 := ExpiringIn(c, today, 5);
    assert CalculateDaysUntilExpiry(Some(c5), today) == 5;
    LikeDefaultsFire(d, c5, today);
    FiringFour(d, Some(c5), today);
    ListFour(d);
    LikeDefaultsSorted(d);
    TriggeredOfSorted(c5, d, today);
  }

  lemma LikeDefaultsExpiryDay(d: seq<AlertRule>, c: Certificate, today: int)
    requires LikeDefaults(d)
    ensures GetTriggeredRules(Some(ExpiringIn(c, today, 0)), d, today) == d
  {
    var c0 := ExpiringIn(c, today, 0);
    assert CalculateDaysUntilExpiry(Some(c0), today) == 0;
    LikeDefaultsFire(d, c0, today);
    FiringFour(d, Some(c0), today);
    ListFour(d);
    LikeDefaultsSorted(d);
    TriggeredOfSorted(c0, d, today);
  }

  /** Built-in-like rules are enabled and already in priority order. */
  lemma LikeDefaultsSorted(d: seq<AlertRule>)
    requires LikeDefaults(d)
    ensures forall x :: x in d ==> x.enabled.Some?
    ensures AllPrioritized(d) && SortedByPriority(d)
  {
  }

  lemma LikeDefaultsThirtyOneDays(d: seq<AlertRule>, c: Certificate, today: int)
    requires LikeDefaults(d)
    ensures !EvaluateRules(Some(ExpiringIn(c, today, 31)), d, today)
  {
    var c31 := Some(ExpiringIn(c, today, 31));
    assert CalculateDaysUntilExpiry(c31, today) == 31;
    assert forall i :: 0 <= i < 4 ==> EvaluateRule(Some(d[i]), c31, today) == Ok(false);
  }

  lemma FiringCons(x: AlertRule, rest: seq<AlertRule>, c: Option<Certificate>, today: int)
    ensures Firing([x] + rest, c, today) == (if Fires(c, today, x) then [x] else []) + Firing(rest, c, today)
  {
    assert ([x] + rest)[1..] == rest;
  }

  /** The firing rules of a four-element list, written out. */
  lemma FiringFour(d: seq<AlertRule>, c: Option<Certificate>, today: int)
    requires |d| == 4
    ensures Firing(d, c, today) ==
      (if Fires(c, today, d[0]) then [d[0]] else []) + ((if Fires(c, today, d[1]) then [d[1]] else []) +
      ((if Fires(c, today, d[2]) then [d[2]] else []) + (if Fires(c, today, d[3]) then [d[3]] else [])))
  {
    var s3 := [d[3]];
    var s2 := [d[2]] + s3;
    var s1 := [d[1]] + s2;
    assert d == [d[0]] + s1;
    FiringCons(d[3], [], c, today);
    assert s3 == [d[3]] + [];
    assert Firing(s3, c, today) == (if Fires(c, today, d[3]) then [d[3]] else []);
    FiringCons(d[2], s3, c, today);
    FiringCons(d[1], s2, c, today);
    FiringCons(d[0], s1, c, today);
  }
}
