# Certificate lifecycle tracker: a Dafny model of its rules

This project models the rule layer of a certificate-expiry tracker. The tracker has a Spring backend and a Vue frontend, and the model states properties of that layer.

The backend half covers:
- the expiry-status rule and its bulk and paged applications;
- alert rules, the rule engine and the in-memory rule registry;
- the trigger condition and the fixed alert days;
- monitoring, the daily summary and the retrying status scheduler;
- the CRUD service and the converters;
- SMS and e-mail formatting, templates, phone validation and masking;
- the log-mode and "production" senders and their result objects;
- the configuration predicates;
- request validation, error codes and the HTTP status mapping;
- the response envelopes and the repository's sort mapping.

The frontend half covers:
- day offsets and relative labels;
- keyword highlighting, snippets and tag stripping;
- status and label maps;
- the HTTP client's envelope unwrapping and error messages;
- the certificate, system and auth stores;
- URL query synchronisation and the router guards.

Conventions:
- Dates are integer day numbers, and instants are integer seconds or milliseconds. "Today" and "now" are parameters.
- Java `null` is `Option`. A thrown exception is the error half of a `Result`.
- Java's 32-bit `int` is written out where the code relies on it: the narrowing cast from `long` and `Math.abs` (`JavaInts`).
- Repositories, loggers, HTTP calls and message senders are traces of effect events. Their answers and failures are parameters.
- A frontend store is an immutable record. Each action returns the new record, the value or throw the action completes with, and the API calls it made.
- JavaScript values are a small datatype (`JsValues`). Objects are maps and spread is map union, with the right operand winning.
- `localStorage` is a map from keys to strings.
- The relative-date labels and the message texts are the code's own Chinese strings.
- Two variants of the certificate class exist. The model uses the threshold-parameterised status rule that the tests assert, with 30 days as the default threshold.

## Model

| member | source | states |
|---|---|---|
| Certificates.ParseStatus | backend/src/main/java/com/example/certificate/domain/enums/CertificateStatus.java:3-6 | a parsed name is the name of the status it yields |
| Certificates.ParseStatusName | backend/src/main/java/com/example/certificate/domain/enums/CertificateStatus.java:3-6 | every status name parses back to that status |
| Certificates.DaysUntilExpiry | backend/src/main/java/com/example/certificate/domain/model/Certificate.java:64-69 | Long.MAX_VALUE without an expiry date; otherwise today plus the count is the expiry day, so past dates give negative counts |
| Certificates.Classify | backend/src/test/java/com/example/certificate/domain/model/CertificateStatusTest.java:105-129 | the threshold rule: EXPIRED iff d < 0, EXPIRING_SOON iff 0 <= d <= t, NORMAL iff d > t |
| Certificates.UpdateStatus | backend/src/main/java/com/example/certificate/domain/model/Certificate.java:43-59 | only the status changes; NORMAL without an expiry date; EXPIRED iff the day count is negative, EXPIRING_SOON iff it is 0..30, NORMAL iff it is above 30 |
| Certificates.UpdateStatusWithin | backend/src/test/java/com/example/certificate/domain/model/CertificateStatusTest.java:221-232 | only the status changes, and the new status is the one the threshold rule gives |
| Certificates.UpdateStatusIsDefaultWindow | backend/src/test/java/com/example/certificate/domain/model/CertificateStatusTest.java:105-129 | the fixed 30-day rule coincides with the threshold rule at t = 30 |
| Certificates.UpdateStatusIdempotent | backend/src/main/java/com/example/certificate/domain/model/Certificate.java:43-59 | recomputing the status twice is recomputing it once, for both rules |
| Certificates.ClassifyBoundaries | backend/src/test/java/com/example/certificate/domain/model/CertificateStatusTest.java:79-103 | day 0 and day t are EXPIRING_SOON, day -1 is EXPIRED and day t+1 is NORMAL |
| Certificates.SeverityMonotone | backend/src/main/java/com/example/certificate/domain/model/Certificate.java:52-58 | fewer days left never gives a less severe status |
| Certificates.SeverityMonotoneInWindow | backend/src/test/java/com/example/certificate/domain/model/CertificateStatusTest.java:105-129 | a wider threshold never gives a less severe status |
| StatusService.CalculateStatus | backend/src/main/java/com/example/certificate/service/impl/CertificateStatusServiceImpl.java:34-52 | NORMAL for a null certificate, otherwise the status the threshold rule gives the certificate |
| StatusService.BulkCalculateStatus | backend/src/main/java/com/example/certificate/service/impl/CertificateStatusServiceImpl.java:59-83 | null stays null; length and order are kept; each element keeps its fields and, in a non-empty list, gets the threshold rule's status |
| StatusService.ServiceDaysUntilExpiry | backend/src/main/java/com/example/certificate/service/impl/CertificateStatusServiceImpl.java:85-96 | Long.MAX_VALUE for a null certificate, otherwise the certificate's own day count |
| StatusService.PageOf | backend/src/main/java/com/example/certificate/service/impl/CertificateStatusServiceImpl.java:115 | a page is empty exactly when it starts past the last row, and never longer than the page size |
| StatusService.UpdateAllCertificateStatus | backend/src/main/java/com/example/certificate/service/impl/CertificateStatusServiceImpl.java:104-140 | every row is written once, in table order, with its recomputed status; the count is the number of writes that did not throw; reading stops at the first empty page |
| AlertRules.RuleTypeFromCode | backend/src/main/java/com/example/certificate/domain/model/AlertRuleType.java:35-42 | defined exactly on the three codes, and the type found carries the code asked for |
| AlertRules.NewRule | backend/src/main/java/com/example/certificate/domain/model/AlertRule.java:21-31 | the six fields as given, no id, the default trigger condition and both timestamps set to now |
| AlertRules.FirstUnsupported | backend/src/main/java/com/example/certificate/domain/model/AlertRule.java:150-154 | the first channel that is neither EMAIL nor SMS, or -1 when every channel is supported |
| AlertRules.Validate | backend/src/main/java/com/example/certificate/domain/model/AlertRule.java:124-155 | passes exactly the well-formed rules; otherwise reports the first failed check (name, type, priority, days, channel list, unsupported channel) with that check's message; an unsupported-channel message names the first channel, in list order, that is neither EMAIL nor SMS |
| AlertRules.IsValid | backend/src/main/java/com/example/certificate/domain/model/AlertRule.java:157-164 | true iff the rule is well formed, that is iff validation does not throw |
| AlertRules.ShouldTriggerFor | backend/src/main/java/com/example/certificate/domain/model/AlertRule.java:117-122 | true iff enabled, time based, the day count present and 0 <= d <= daysBefore; a null enabled flag, or a null daysBefore once compared, throws a NullPointerException |
| AlertRules.HigherPriorityStrictOrder | backend/src/main/java/com/example/certificate/domain/model/AlertRule.java:166-171 | between non-null rules the ranking is irreflexive, asymmetric and transitive |
| AlertRules.InsertByPriority | backend/src/main/java/com/example/certificate/service/impl/AlertRuleEngineImpl.java:64 | inserting into a priority-sorted list keeps it sorted and adds exactly that rule |
| AlertRules.SortByPriorityKeys | backend/src/main/java/com/example/certificate/service/impl/AlertRuleEngineImpl.java:64 | the result is sorted by priority and a permutation of the input, and the sort is stable: the rules of each priority keep their input order |
| AlertRules.InsertJoinsTieGroupFirst | backend/src/main/java/com/example/certificate/service/impl/AlertRuleEngineImpl.java:64 | inserting a rule into a sorted list places it ahead of the rules of its own priority and keeps the order of every priority's rules |
| AlertRules.SortRules | backend/src/main/java/com/example/certificate/service/impl/AlertRuleEngineImpl.java:64 | throws iff two or more rules are sorted and one has a null priority; otherwise a sorted permutation in which the rules of each priority keep their input order |
| AlertRules.Filter | backend/src/main/java/com/example/certificate/service/impl/AlertRuleEngineImpl.java:62-63 | exactly the rules that pass the test, each with its full multiplicity |
| TriggerConditions.StartOfDay | backend/src/main/java/com/example/certificate/domain/model/AlertTriggerCondition.java:86 | the midnight that starts the day holding the instant |
| TriggerConditions.HourOf | backend/src/main/java/com/example/certificate/domain/model/AlertTriggerCondition.java:76 | an hour of the day, 0..23 |
| TriggerConditions.DayOfWeek | backend/src/main/java/com/example/certificate/domain/model/AlertTriggerCondition.java:77 | an ISO day of the week, 1..7 |
| TriggerConditions.DefaultCondition | backend/src/main/java/com/example/certificate/domain/model/AlertTriggerCondition.java:14-18 | no status change required, no business-hours gate, no frequency limit |
| TriggerConditions.ConditionWithExpression | backend/src/main/java/com/example/certificate/domain/model/AlertTriggerCondition.java:20-23 | the defaults plus the given expression |
| TriggerConditions.CanTriggerNow | backend/src/main/java/com/example/certificate/domain/model/AlertTriggerCondition.java:73-95 | open iff the business-hours gate (Monday to Friday, 9:00 to before 18:00) passes when set, and no limited rule was triggered strictly after today's midnight |
| TriggerConditions.MarkTriggered | backend/src/main/java/com/example/certificate/domain/model/AlertTriggerCondition.java:97-99 | records now as the last trigger and changes nothing else |
| TriggerConditions.DefaultAlwaysOpen | backend/src/main/java/com/example/certificate/domain/model/AlertTriggerCondition.java:14-18 | the default condition can always trigger |
| TriggerConditions.LastTriggerIrrelevantWithoutLimit | backend/src/main/java/com/example/certificate/domain/model/AlertTriggerCondition.java:85-92 | without a frequency limit the last trigger time never changes the answer |
| TriggerConditions.MidnightTriggerNotLimited | backend/src/main/java/com/example/certificate/domain/model/AlertTriggerCondition.java:85-92 | a limited rule triggered exactly at midnight can trigger again later the same day |
| TriggerConditions.CanTriggerNowOncePerDay | backend/src/main/java/com/example/certificate/domain/model/AlertTriggerCondition.java:85-92 | the corrected gate is never more permissive than the one as written |
| TriggerConditions.OncePerDayHolds | backend/src/main/java/com/example/certificate/domain/model/AlertTriggerCondition.java:88-90 | under the corrected gate a trigger blocks the rest of its day, and a trigger on an earlier day leaves only the business-hours gate |
| AlertService.ShouldSendAlert | backend/src/main/java/com/example/certificate/service/impl/AlertServiceImpl.java:32-39 | only day counts in 1..30 can alert, and none at or after the expiry day |
| AlertService.ShouldSendMatchesDefaultRules | backend/src/main/java/com/example/certificate/service/impl/AlertServiceImpl.java:34-38 | the alert days are exactly the daysBefore values of the four built-in rules |
| AlertService.AlertDaysNameTheirBand | backend/src/main/java/com/example/certificate/service/impl/AlertServiceImpl.java:34-38 | on each alert day the alert-type band is named after that day, as is the built-in rule for it |
| AlertService.SendAlert | backend/src/main/java/com/example/certificate/service/impl/AlertServiceImpl.java:17-30 | a null certificate throws before any log; otherwise the EMAIL entry then the SMS entry, each of which may throw and end the call |
| AlertService.SendAlertUngated | backend/src/main/java/com/example/certificate/service/impl/AlertServiceImpl.java:17-30 | both entries are written even on days that are not alert days |
| RuleEngine.CalculateDaysUntilExpiry | backend/src/main/java/com/example/certificate/service/impl/AlertRuleEngineImpl.java:117-133 | Integer.MAX_VALUE without a certificate or expiry date; otherwise the day count, clamped to the int range |
| RuleEngine.EvaluateRule | backend/src/main/java/com/example/certificate/service/impl/AlertRuleEngineImpl.java:88-115 | false for a null rule or certificate; a null enabled flag throws; true iff enabled, time based, daysBefore present and 0 <= days <= daysBefore; status-change and custom rules never fire |
| RuleEngine.EvaluateRuleAgreesWithRule | backend/src/main/java/com/example/certificate/service/impl/AlertRuleEngineImpl.java:138-153 | the engine fires a rule exactly when the rule's own trigger check holds for the clamped day count |
| RuleEngine.ExpiredNeverFires | backend/src/main/java/com/example/certificate/service/impl/AlertRuleEngineImpl.java:147 | a certificate past its expiry day fires no rule |
| RuleEngine.EvaluateRules | backend/src/main/java/com/example/certificate/service/impl/AlertRuleEngineImpl.java:26-50 | false for a null certificate; true iff some rule fires with every rule before it answering false, since an exception ends the loop with false |
| RuleEngine.EvaluateRulesTail | backend/src/main/java/com/example/certificate/service/impl/AlertRuleEngineImpl.java:36-41 | after a first rule that answers false, the loop's answer is the answer on the remaining rules |
| RuleEngine.Firing | backend/src/main/java/com/example/certificate/service/impl/AlertRuleEngineImpl.java:62-63 | exactly the rules that fire, never more than given, kept in priority order when the input was, none for a null certificate |
| RuleEngine.FilterFiring | backend/src/main/java/com/example/certificate/service/impl/AlertRuleEngineImpl.java:62-63 | throws iff some rule's evaluation throws, otherwise the firing rules in order |
| RuleEngine.GetTriggeredRules | backend/src/main/java/com/example/certificate/service/impl/AlertRuleEngineImpl.java:52-74 | empty for a null certificate; only enabled rules that fire; when flags and priorities are present, exactly the firing rules sorted by ascending priority, the rules of equal priority in registry order |
| RuleEngine.EvaluateRulesIffTriggered | backend/src/main/java/com/example/certificate/service/impl/AlertRuleEngineImpl.java:26-74 | with flags and priorities present, evaluateRules is true iff getTriggeredRules is non-empty |
| RuleEngine.EvaluateRulesIffFiring | backend/src/main/java/com/example/certificate/service/impl/AlertRuleEngineImpl.java:26-50 | with no rule that throws, evaluateRules is true iff some rule fires |
| RuleEngine.TriggeredNonEmptyIffFiring | backend/src/main/java/com/example/certificate/service/impl/AlertRuleEngineImpl.java:60-65 | sorting neither adds nor drops rules: the triggered list is empty iff nothing fires |
| RuleEngine.FirstFiring | backend/src/main/java/com/example/certificate/service/impl/AlertRuleEngineImpl.java:36-41 | if any rule fires and none throws, evaluateRules is true |
| RuleEngine.FirstMinIndex | backend/src/main/java/com/example/certificate/service/impl/AlertRuleEngineImpl.java:84 | the first rule of smallest priority: no rule has a smaller one and every earlier rule a larger one |
| RuleEngine.MinByPriority | backend/src/main/java/com/example/certificate/service/impl/AlertRuleEngineImpl.java:84 | throws iff two or more rules are compared and one lacks a priority; a single rule is returned as is; otherwise the first rule of smallest priority, so ties go to the earlier rule as `minBy` keeps it |
| RuleEngine.GetHighestPriorityRule | backend/src/main/java/com/example/certificate/service/impl/AlertRuleEngineImpl.java:76-86 | null for a null list and null iff no rule is enabled; throws iff two or more rules are enabled and one of them lacks a priority; otherwise an enabled rule of the list, the first of smallest priority among the enabled rules in list order |
| RuleEngine.HighestAmong | backend/src/main/java/com/example/certificate/service/impl/AlertRuleEngineImpl.java:82-85 | null iff no rule is enabled; throws iff a null priority is compared; otherwise the first enabled rule of smallest priority |
| RuleEngine.FirstMinUnique | backend/src/main/java/com/example/certificate/service/impl/AlertRuleEngineImpl.java:84 | only one position can be the first of the smallest priority, so the tie-break determines the rule |
| RuleEngine.DefaultRulesScenario | backend/src/test/java/com/example/certificate/service/AlertRuleEngineTest.java:102-118 | with the built-in rules, day 5 triggers the 30, 15 and 7 day rules, day 0 all four, and day 31 none |
| RuleEngine.LikeDefaultsScenario | backend/src/test/java/com/example/certificate/service/AlertRuleIntegrationTest.java:78-80 | the same scenario for any four rules shaped like the built-in ones |
| RuleEngine.TriggeredOfSorted | backend/src/main/java/com/example/certificate/service/impl/AlertRuleEngineImpl.java:62-65 | on rules already in priority order the triggered rules are the firing rules in list order |
| RuleEngine.SortRulesSorted | backend/src/main/java/com/example/certificate/service/impl/AlertRuleEngineImpl.java:64 | sorting rules already in priority order returns them unchanged |
| RuleEngine.FilterFiringOk | backend/src/main/java/com/example/certificate/service/impl/AlertRuleEngineImpl.java:94 | when every rule has its enabled flag, the filter does not throw |
| RuleRegistry.KeysBetween | backend/src/main/java/com/example/certificate/service/impl/AlertRuleConfigServiceImpl.java:43 | exactly the stored ids in the range, strictly ascending |
| RuleRegistry.Values | backend/src/main/java/com/example/certificate/service/impl/AlertRuleConfigServiceImpl.java:43 | the map's values: only stored rules, and under the invariant every stored rule |
| RuleRegistry.GetEnabledRules | backend/src/main/java/com/example/certificate/service/impl/AlertRuleConfigServiceImpl.java:40-51 | the rules whose flag is true, sorted by ascending priority as a permutation, the rules of equal priority in registry order; empty when the sort throws on a null priority |
| RuleRegistry.GetAllRules | backend/src/main/java/com/example/certificate/service/impl/AlertRuleConfigServiceImpl.java:53-61 | exactly the stored rules |
| RuleRegistry.GetRulesByType | backend/src/main/java/com/example/certificate/service/impl/AlertRuleConfigServiceImpl.java:63-78 | empty for a null type; otherwise the rules of that type sorted by priority, the rules of equal priority in registry order, or empty when the sort throws |
| RuleRegistry.GetRuleById | backend/src/main/java/com/example/certificate/service/impl/AlertRuleConfigServiceImpl.java:80-92 | the rule stored under the id, null for a null or unknown id |
| RuleRegistry.InitializeDefaultRules | backend/src/main/java/com/example/certificate/service/impl/AlertRuleConfigServiceImpl.java:94-114 | exactly ids 1..4, next id 5, each rule enabled, time based, valid, with priority equal to its id and daysBefore 30, 15, 7, 1 |
| RuleRegistry.DefaultRulesFacts | backend/src/main/java/com/example/certificate/service/impl/AlertRuleConfigServiceImpl.java:104-107 | the built-in rule at position i is valid, enabled, time based, with id and priority i+1 and daysBefore 30, 15, 7, 1 |
| RuleRegistry.Init | backend/src/main/java/com/example/certificate/service/impl/AlertRuleConfigServiceImpl.java:32-38 | the invariant holds; four rules when defaults are enabled, none otherwise |
| RuleRegistry.DefaultEnabledRules | backend/src/test/java/com/example/certificate/service/AlertRuleConfigServiceTest.java:34-50 | after initialisation the enabled rules are the four built-in ones in the order 30, 15, 7, 1 days |
| RuleRegistry.DefaultValues | backend/src/main/java/com/example/certificate/service/impl/AlertRuleConfigServiceImpl.java:104-107 | after initialisation the map's values are the four built-in rules in id order |
| RuleRegistry.SortSortedIdentity | backend/src/main/java/com/example/certificate/service/impl/AlertRuleConfigServiceImpl.java:45 | sorting an already sorted list returns it unchanged |
| RuleRegistry.ValidateRule | backend/src/main/java/com/example/certificate/service/impl/AlertRuleConfigServiceImpl.java:214-226 | the null-rule message for null; otherwise empty iff the rule is well formed |
| RuleRegistry.HasDuplicateRule | backend/src/main/java/com/example/certificate/service/impl/AlertRuleConfigServiceImpl.java:235-250 | false for a null rule or type and for types other than TIME_BASED; otherwise true iff another id holds a time-based rule with the same daysBefore |
| RuleRegistry.AddRule | backend/src/main/java/com/example/certificate/service/impl/AlertRuleConfigServiceImpl.java:116-148 | null for null; an invalid or duplicate rule throws with the wrapped message and changes nothing; otherwise the rule is stored under the next id, which then advances |
| RuleRegistry.UpdateRule | backend/src/main/java/com/example/certificate/service/impl/AlertRuleConfigServiceImpl.java:150-179 | null for a null rule or id; an unknown id or invalid rule throws and changes nothing; otherwise exactly that entry is replaced and the next id is kept |
| RuleRegistry.DeleteRule | backend/src/main/java/com/example/certificate/service/impl/AlertRuleConfigServiceImpl.java:181-202 | true iff the id was present; only that entry is removed |
| RuleRegistry.SetRuleEnabled | backend/src/main/java/com/example/certificate/service/impl/AlertRuleConfigServiceImpl.java:204-212 | true iff the id is present; only that rule's flag and update time change |
| RuleRegistry.OperationsPreserveInv | backend/src/main/java/com/example/certificate/service/impl/AlertRuleConfigServiceImpl.java:101 | every operation keeps the next id above every stored id, and each rule under its own id |
| RuleRegistry.AddGrowsByOne | backend/src/test/java/com/example/certificate/service/AlertRuleConfigServiceTest.java:94-132 | a successful add grows the registry by exactly one rule, carrying the old next id |
| RuleRegistry.SetEnabledCountChange | backend/src/test/java/com/example/certificate/service/AlertRuleConfigServiceTest.java:211-225 | enabling or disabling changes the set of enabled rules by at most one, in the direction of the flag |
| Monitoring.Wrap | backend/src/main/java/com/example/certificate/service/impl/MonitoringServiceImpl.java:85-90 | a MonitoringException with code CERTIFICATE_MONITORING_FAILED, a message naming the certificate, and the failure as its cause |
| Monitoring.LoggedDays | backend/src/main/java/com/example/certificate/service/impl/MonitoringServiceImpl.java:98-101 | the long day count cast to int: always in int range, and unchanged when it already fits |
| Monitoring.NoExpiryLoggedAsMinusOne | backend/src/main/java/com/example/certificate/service/impl/MonitoringServiceImpl.java:98-101 | without an expiry date Long.MAX_VALUE is cast to -1 and logged as such |
| Monitoring.ComputedStatus | backend/src/main/java/com/example/certificate/service/impl/MonitoringServiceImpl.java:103-107 | the threshold rule with the configured threshold; NORMAL without an expiry date |
| Monitoring.Alerts | backend/src/main/java/com/example/certificate/service/impl/MonitoringServiceImpl.java:114-131 | no alerts when the engine throws; alerts only when evaluateRules is true, each for a configured rule that fires for this certificate |
| Monitoring.StatusLogs | backend/src/main/java/com/example/certificate/service/impl/MonitoringServiceImpl.java:69-80 | nothing when the stored status is the computed one; otherwise a status-change entry with the old and new status, then the update |
| Monitoring.MonitorCertificate | backend/src/main/java/com/example/certificate/service/impl/MonitoringServiceImpl.java:57-91 | a null certificate throws a bare NullPointerException; otherwise it succeeds iff no log or update call fails, a failure being wrapped; on success the result entry, the status entries and the alerts, in that order |
| Monitoring.UpdateIffChanged | backend/src/main/java/com/example/certificate/service/impl/MonitoringServiceImpl.java:69-80 | a successful pass writes the status change and the update exactly when the status changed, carrying the old and new status |
| Monitoring.PassRestoresConsistency | backend/src/main/java/com/example/certificate/service/impl/MonitoringServiceImpl.java:66-80 | after a successful pass the certificate with its written status agrees with the threshold rule |
| Monitoring.SecondPassNoChange | backend/src/main/java/com/example/certificate/service/impl/MonitoringServiceImpl.java:70 | a second pass over the corrected certificate finds no change |
| Monitoring.RuleFaultsSwallowed | backend/src/main/java/com/example/certificate/service/impl/MonitoringServiceImpl.java:128-130 | whatever the rule engine does, whether the pass fails is unchanged |
| Monitoring.NoFaultsSucceeds | backend/src/main/java/com/example/certificate/service/impl/MonitoringServiceImpl.java:61-90 | without collaborator faults a non-null certificate is always monitored successfully |
| Monitoring.Succeeded | backend/src/main/java/com/example/certificate/service/impl/MonitoringServiceImpl.java:42-51 | never more successes than passes |
| Monitoring.MonitorAll | backend/src/main/java/com/example/certificate/service/impl/MonitoringServiceImpl.java:34-55 | throws a NullPointerException iff the list holds a null certificate; otherwise success plus failure counts every certificate, the successes are the passes that succeed, and the entries are those of each pass in order |
| Monitoring.PassStep | backend/src/main/java/com/example/certificate/service/impl/MonitoringServiceImpl.java:43-50 | one loop turn appends that pass's entries and counts it once, as a success or a failure |
| Monitoring.FaultFreePassesSucceed | backend/src/main/java/com/example/certificate/service/impl/MonitoringServiceImpl.java:42-51 | in a list without null certificates, every pass without collaborator faults succeeds |
| DailySummary.WithStatus | backend/src/main/java/com/example/certificate/service/impl/DailySummaryServiceImpl.java:52-62 | only certificates carrying that status, never more than given |
| DailySummary.WithStatusCounts | backend/src/main/java/com/example/certificate/service/impl/DailySummaryServiceImpl.java:52-62 | each certificate with that status appears exactly as often as in the input, the others not at all |
| DailySummary.WithStatusAppend | backend/src/main/java/com/example/certificate/service/impl/DailySummaryServiceImpl.java:52-62 | the filter distributes over concatenation, so it keeps list order |
| DailySummary.StatusPartition | backend/src/main/java/com/example/certificate/service/impl/DailySummaryServiceImpl.java:52-65 | when every status is set, the three lists together are a permutation of the input and their sizes add up to the total |
| DailySummary.StatusListsDisjoint | backend/src/main/java/com/example/certificate/service/impl/DailySummaryServiceImpl.java:52-62 | no certificate is in two of the lists |
| DailySummary.GenerateAndSend | backend/src/main/java/com/example/certificate/service/impl/DailySummaryServiceImpl.java:36-91 | queries only when enabled; sends iff enabled, the query succeeds and no entry is null; what it sends goes to the given recipient with the EXPIRING_SOON and EXPIRED lists |
| DailySummary.GenerateAndSendDefault | backend/src/main/java/com/example/certificate/service/impl/DailySummaryServiceImpl.java:30-34 | queries iff the configuration is enabled; sends iff enabled, the query succeeds and no entry is null; a sent summary goes to the configured default recipient |
| DailySummary.DefaultRecipientUsed | backend/src/main/java/com/example/certificate/config/EmailConfig.java:29-41 | with the shipped settings the summary is sent to the default address |
| DailySummary.SizesBound | backend/src/main/java/com/example/certificate/service/impl/DailySummaryServiceImpl.java:52-58 | the two sent lists together never hold more than the input |
| Scheduler.CallsFrom | backend/src/main/java/com/example/certificate/scheduler/CertificateStatusScheduler.java:49-71 | at least one call while attempts remain, and never more than the attempts left |
| Scheduler.RunStatusJob | backend/src/main/java/com/example/certificate/scheduler/CertificateStatusScheduler.java:36-76 | nothing when disabled; at most maxRetries calls, each with the configured threshold; success iff the last call returned, and every earlier call threw |
| Scheduler.AllFailCallsMax | backend/src/main/java/com/example/certificate/scheduler/CertificateStatusScheduler.java:49-71 | when every attempt throws and no wait is interrupted, exactly maxRetries calls are made |
| Scheduler.FirstSuccessOneCall | backend/src/main/java/com/example/certificate/scheduler/CertificateStatusScheduler.java:49-54 | a first attempt that succeeds is the only call |
| CertificateService.NotFoundResponse | backend/src/main/java/com/example/certificate/service/impl/CertificateServiceImpl.java:59-61 | a missing certificate reaches the client as a 400 with code 10001 and the message 证书不存在 |
| CertificateService.Lookup | backend/src/main/java/com/example/certificate/service/impl/CertificateServiceImpl.java:58 | the row stored under the id; nothing for a null or unknown id |
| CertificateService.CopyFromDto | backend/src/main/java/com/example/certificate/service/impl/CertificateServiceImpl.java:69 | id and timestamps are kept; the six fields and the status are the request's, nulls included |
| CertificateService.ToServiceDto | backend/src/main/java/com/example/certificate/service/impl/CertificateServiceImpl.java:127-132 | every field copied without recomputing the status, plus the day count |
| CertificateService.FindById | backend/src/main/java/com/example/certificate/service/impl/CertificateServiceImpl.java:56-63 | not-found iff no row has the id; otherwise that row as a DTO |
| CertificateService.Create | backend/src/main/java/com/example/certificate/service/impl/CertificateServiceImpl.java:65-77 | exactly one new row under the next id, other rows untouched, with the request's fields, the fixed rule's status and no timestamps; one Created log entry; the DTO of that row |
| CertificateService.Update | backend/src/main/java/com/example/certificate/service/impl/CertificateServiceImpl.java:79-95 | not-found iff the id is missing, changing nothing; otherwise only that row changes: the request's six fields, nulls included, the recomputed status, id and timestamps kept; one Updated log entry |
| CertificateService.Delete | backend/src/main/java/com/example/certificate/service/impl/CertificateServiceImpl.java:97-108 | not-found iff the id is missing, changing nothing; otherwise exactly that row is removed and logged |
| CertificateService.DeleteThenFind | backend/src/main/java/com/example/certificate/service/impl/CertificateServiceImpl.java:97-108 | a deleted id is then not found |
| CertificateService.CreateThenFind | backend/src/main/java/com/example/certificate/service/impl/CertificateServiceImpl.java:65-77 | the created certificate is found under its new id, as the create call reported it |
| CertificateService.UpdateClearsMissingFields | backend/src/main/java/com/example/certificate/service/impl/CertificateServiceImpl.java:87 | an update without a name clears the stored name |
| CertificateService.Stale | backend/src/main/java/com/example/certificate/service/impl/CertificateServiceImpl.java:119 | exactly the rows whose status the fixed rule would change |
| CertificateService.UpdateAllCertificateStatus | backend/src/main/java/com/example/certificate/service/impl/CertificateServiceImpl.java:110-125 | every row gets the fixed rule's status, no row is added or dropped, and exactly the changed rows are written |
| CertificateService.UpdateAllIdempotent | backend/src/main/java/com/example/certificate/service/impl/CertificateServiceImpl.java:110-125 | a second run on the same day writes nothing |
| CertificateService.ConsistentRowsNotWritten | backend/src/main/java/com/example/certificate/service/impl/CertificateServiceImpl.java:119-123 | a row already agreeing with the rule is not written |
| CertificateService.InsertByExpiry | backend/src/main/java/com/example/certificate/service/impl/CertificateServiceImpl.java:49 | inserting into an expiry-ordered list keeps it ordered and adds exactly that certificate |
| CertificateService.SortByExpiry | backend/src/main/java/com/example/certificate/service/impl/CertificateServiceImpl.java:49 | ordered by expiry date, nulls first, and a permutation of the input |
| CertificateService.FilterMatches | backend/src/main/java/com/example/certificate/service/impl/CertificateServiceImpl.java:35-47 | only matching rows, and each matching row as often as stored |
| CertificateService.FindMatching | backend/src/main/java/com/example/certificate/service/impl/CertificateServiceImpl.java:30-54 | the matching rows in expiry order, each as its DTO |
| CertificateService.FindMatchingSpec | backend/src/main/java/com/example/certificate/service/impl/CertificateServiceImpl.java:35-49 | the matches are ordered by expiry, all match and are stored rows, and every matching row appears as often as stored |
| CertificateService.UnknownStatusIgnored | backend/src/main/java/com/example/certificate/service/impl/CertificateServiceImpl.java:40-47 | a status naming no constant filters nothing out |
| Converters.StatusValueOf | backend/src/main/java/com/example/certificate/infrastructure/converter/CertificateConverter.java:33 | defined iff the name is present and names a constant, whose name it is; a null name throws a NullPointerException |
| Converters.ToDomain | backend/src/main/java/com/example/certificate/infrastructure/converter/CertificateConverter.java:20-37 | null for null; succeeds iff the status column names a constant, and the status read is that constant |
| Converters.ToEntity | backend/src/main/java/com/example/certificate/infrastructure/converter/CertificateConverter.java:44-61 | null for null; throws a NullPointerException iff the status is null; otherwise the status column is the status name |
| Converters.DomainRoundTrip | backend/src/main/java/com/example/certificate/infrastructure/converter/CertificateConverter.java:20-61 | a certificate with a status survives a trip to the entity and back unchanged |
| Converters.EntityRoundTrip | backend/src/main/java/com/example/certificate/infrastructure/converter/CertificateConverter.java:20-61 | a row whose status names a constant survives a trip to the domain and back unchanged |
| Converters.ToCreateDomain | backend/src/main/java/com/example/certificate/service/converter/CertificateServiceConverter.java:23-39 | null iff the request is null; otherwise the six fields, no id or status, both timestamps now |
| Converters.Present | backend/src/main/java/com/example/certificate/service/converter/CertificateServiceConverter.java:54-66 | every field copied, plus the day count |
| Converters.ToDto | backend/src/main/java/com/example/certificate/service/converter/CertificateServiceConverter.java:46-67 | null iff null; the status is recomputed by the fixed rule first, and the day count is added |
| Converters.ToDtoWithin | backend/src/main/java/com/example/certificate/service/converter/CertificateServiceConverter.java:75-96 | null iff null; the status is the one the threshold rule gives |
| Converters.ToDtoDefaultWindow | backend/src/main/java/com/example/certificate/service/converter/CertificateServiceConverter.java:46-96 | both forms agree at the default 30-day window |
| Converters.MergeUpdateDto | backend/src/main/java/com/example/certificate/service/converter/CertificateServiceConverter.java:104-121 | unchanged when either side is null; otherwise each present request field replaces the stored one, id, status and createdAt are kept and updatedAt becomes now |
| Converters.MergeIdempotent | backend/src/main/java/com/example/certificate/service/converter/CertificateServiceConverter.java:104-121 | merging the same request twice equals merging it once, up to the update time |
| Converters.MergeExtremes | backend/src/main/java/com/example/certificate/service/converter/CertificateServiceConverter.java:111-116 | an empty request changes only the update time; a complete one replaces all six fields |
| AlertTypes.BandOf | backend/src/main/java/com/example/certificate/infrastructure/external/sms/SmsLogFormatter.java:122-136 | the band is decided by the thresholds in order: at most 0, at most 1, 7, 15 and 30 days, and the rest |
| AlertTypes.AlertTypeOf | backend/src/main/java/com/example/certificate/common/constant/SmsConstants.java:19-24 | each label is given for exactly its day range: expired at 0 or less, 1, 2..7, 8..15, 16..30, routine above 30 |
| AlertTypes.NameInjective | backend/src/main/java/com/example/certificate/common/constant/SmsConstants.java:19-24 | the six labels are distinct, so a label identifies its band |
| AlertTypes.BandMonotone | backend/src/main/java/com/example/certificate/infrastructure/external/sms/SmsLogFormatter.java:122-136 | fewer days left never gives a less urgent band |
| AlertTypes.BandUpperLimits | backend/src/main/java/com/example/certificate/common/constant/SmsConstants.java:61-64 | each named band ends at the threshold it is named after, and the next day falls in the next band |
| Phones.PhonePatternMeaning | backend/src/main/java/com/example/certificate/common/constant/SmsConstants.java:71 | the pattern accepts exactly the 11-character strings starting with 1, then 3..9, then nine ASCII digits |
| Phones.IsPhoneValid | backend/src/main/java/com/example/certificate/infrastructure/external/sms/SmsLogFormatter.java:115-117 | true iff non-null and matching the pattern as a whole |
| Phones.MaskPhone | backend/src/main/java/com/example/certificate/infrastructure/external/sms/SmsLogFormatter.java:151-157 | null stays null and other lengths are kept as they are; an 11-character string keeps its first three and last four characters with four stars between |
| Phones.MaskIdempotent | backend/src/main/java/com/example/certificate/infrastructure/external/sms/SmsLogFormatter.java:151-157 | masking a masked number changes nothing |
| Phones.MaskHidesNumber | backend/src/main/java/com/example/certificate/infrastructure/external/sms/SmsLogFormatter.java:151-157 | a masked valid number differs from the number and is not itself a valid number |
| Phones.DefaultRecipientValid | backend/src/main/java/com/example/certificate/config/SmsConfig.java:40 | the shipped default recipient is a valid mobile number |
| Configs.ModesExclusive | backend/src/main/java/com/example/certificate/config/SmsConfig.java:186-195 | log and real mode never hold together, and both ignore case |
| Configs.DefaultSmsConfig | backend/src/main/java/com/example/certificate/config/SmsConfig.java:28-47 | enabled, in log mode, with the shipped default recipient |
| Configs.SmsConfigValid | backend/src/main/java/com/example/certificate/config/SmsConfig.java:207-222 | always valid when disabled; in real mode iff provider, access key, secret key and signature are present; otherwise iff a default recipient is present |
| Configs.DefaultSmsConfigValidity | backend/src/main/java/com/example/certificate/config/SmsConfig.java:207-222 | the shipped settings are valid, and real mode without credentials is not |
| Configs.SmsValidityFields | backend/src/main/java/com/example/certificate/config/SmsConfig.java:207-222 | validity never depends on the templates; in real mode it ignores the recipient, in any other mode the provider |
| Configs.SmsValidInBothModes | backend/src/main/java/com/example/certificate/config/SmsConfig.java:207-222 | an enabled configuration valid in both real and log mode has every provider credential and a recipient |
| Configs.ConfigIsValidPhoneNumber | backend/src/main/java/com/example/certificate/config/SmsConfig.java:227-232 | the configuration's phone check agrees with the formatter's on every input |
| Configs.ConfigMaskPhoneNumber | backend/src/main/java/com/example/certificate/config/SmsConfig.java:237-242 | the configuration's masking agrees with the formatter's on every input |
| Configs.SmsTemplateFor | backend/src/main/java/com/example/certificate/config/SmsConfig.java:200-202 | the template stored under the type, null when there is none |
| Configs.AtMostOneProvider | backend/src/main/java/com/example/certificate/config/SmsConfig.java:260-276 | at most one provider test holds, and the default provider is Aliyun |
| Configs.DefaultEmailConfig | backend/src/main/java/com/example/certificate/config/EmailConfig.java:29-41 | enabled, in log mode, with the shipped default recipient |
| Configs.EmailConfigValid | backend/src/main/java/com/example/certificate/config/EmailConfig.java:187-201 | always valid when disabled; in real mode iff SMTP host and user are present; otherwise iff a default recipient is present |
| Configs.DefaultEmailConfigValidity | backend/src/main/java/com/example/certificate/config/EmailConfig.java:67-82 | the shipped settings are valid in both modes |
| Configs.EmailValidityFields | backend/src/main/java/com/example/certificate/config/EmailConfig.java:187-201 | validity never depends on the templates; in real mode it ignores the recipient, in any other mode the SMTP settings |
| Configs.EmailValidInBothModes | backend/src/main/java/com/example/certificate/config/EmailConfig.java:187-201 | an enabled configuration valid in both real and log mode has an SMTP host, an SMTP user and a recipient |
| Configs.EmailTemplateFor | backend/src/main/java/com/example/certificate/config/EmailConfig.java:180-182 | the template stored under the type, null when there is none |
| SendResults.Make | backend/src/main/java/com/example/certificate/service/dto/SmsResult.java:23-31 | the fields as given, a missing send time becoming now |
| SendResults.Success | backend/src/main/java/com/example/certificate/service/dto/SmsResult.java:68-77 | a success without error, carrying the message, recipient and any given send time |
| SendResults.Failure | backend/src/main/java/com/example/certificate/service/dto/SmsResult.java:82-91 | a failure with the channel's fixed message and the given code, error and recipient; it has an error iff a code or error text was given |
| SendResults.ResultEqualsIsIdentity | backend/src/main/java/com/example/certificate/service/dto/SmsResult.java:93-104 | equals holds exactly for identical results |
| SendResults.SuccessNeverEqualsFailure | backend/src/main/java/com/example/certificate/service/dto/EmailResult.java:93-104 | a success never equals a failure |
| SendResults.ChannelsNeverEqual | backend/src/main/java/com/example/certificate/service/dto/EmailResult.java:82-91 | an SMS failure never equals an e-mail failure, their fixed messages differing |
| JavaInts.NarrowToInt | backend/src/main/java/com/example/certificate/infrastructure/external/sms/LogSmsServiceImpl.java:179 | the narrowed day count is a 32-bit int congruent to the long modulo 2^32, and equal to it when it already fits |
| JavaInts.AbsInt | backend/src/main/java/com/example/certificate/infrastructure/external/sms/SmsLogFormatter.java:88-91 | Math.abs gives a non-negative value equal to x or -x, except Integer.MIN_VALUE, which comes back unchanged |
| JavaInts.NarrowLongMax | backend/src/main/java/com/example/certificate/domain/model/Certificate.java:64-67 | the Long.MAX_VALUE day count of a certificate without expiry narrows to -1 |
| JavaFormat.DateText | backend/src/main/java/com/example/certificate/infrastructure/external/sms/SmsLogFormatter.java:26 | every date renders as non-empty text |
| JavaFormat.FormatDate | backend/src/main/java/com/example/certificate/infrastructure/external/sms/SmsLogFormatter.java:141-145 | formatting fails with a null-pointer error exactly when the date is null, and otherwise renders it |
| LogFormat.FormatExpiryAlert | backend/src/main/java/com/example/certificate/infrastructure/external/sms/SmsLogFormatter.java:32-47 | fails exactly when the certificate or its expiry date is null; the line starts with the shown recipient, carries the day count and ends with the alert type of that count |
| LogFormat.SmsAlertHidesPhone | backend/src/main/java/com/example/certificate/infrastructure/external/sms/SmsLogFormatter.java:34 | in the SMS line the recipient field holds the masked number, never the valid number itself |
| LogFormat.EmailAlertShowsRecipient | backend/src/main/java/com/example/certificate/infrastructure/external/email/EmailLogFormatter.java:26-37 | the e-mail line shows the recipient exactly as given |
| LogFormat.FormatDailySummary | backend/src/main/java/com/example/certificate/infrastructure/external/sms/SmsLogFormatter.java:49-58 | the summary starts with the shown recipient and carries both counts |
| LogFormat.FormatCertificateDetails | backend/src/main/java/com/example/certificate/infrastructure/external/sms/SmsLogFormatter.java:63-76 | fails exactly when the certificate, its issue date or its expiry date is null; otherwise starts with the header, carries the day count and ends with the alert type |
| LogFormat.FormatBatchStatistics | backend/src/main/java/com/example/certificate/infrastructure/external/sms/SmsLogFormatter.java:81-83 | the statistics line carries the success, failure and total counts in that order |
| LogFormat.FormatSmsContent | backend/src/main/java/com/example/certificate/infrastructure/external/sms/SmsLogFormatter.java:88-96 | fails exactly for a null certificate; names the certificate; from day 0 downwards reports Math.abs of the count as days past, above it the days left |
| LogFormat.ExpiredContentCountsDaysPast | backend/src/main/java/com/example/certificate/infrastructure/external/sms/SmsLogFormatter.java:89-91 | the expired text reports the days past expiry as -d, except for Integer.MIN_VALUE, reported as -2147483648 |
| LogFormat.FormatDailySummarySmsContent | backend/src/main/java/com/example/certificate/infrastructure/external/sms/SmsLogFormatter.java:101-103 | the summary text carries the expiring count first and the expired count last |
| LogFormat.ContentValidity | backend/src/main/java/com/example/certificate/infrastructure/external/sms/SmsLogFormatter.java:108-110 | null content is invalid, validity survives shortening, and the limit admits 500 chars but not 501 |
| LogFormat.TruncateContent | backend/src/main/java/com/example/certificate/infrastructure/external/sms/LogSmsServiceImpl.java:68-71 | the result is always valid content; valid content is kept; an over-long text becomes its first 70 chars plus "..." |
| LogFormat.TruncateIdempotent | backend/src/main/java/com/example/certificate/infrastructure/external/sms/LogSmsServiceImpl.java:68-71 | truncating twice is truncating once |
| LogSenders.Fail | backend/src/main/java/com/example/certificate/infrastructure/external/sms/LogSmsServiceImpl.java:211-227 | the error-handling template turns an exception into a failure with the given code, the recipient and the prefixed exception message |
| LogSenders.PhoneRejected | backend/src/main/java/com/example/certificate/infrastructure/external/sms/LogSmsServiceImpl.java:49-55 | a malformed number gives a failure with the phone-invalid code, naming the number |
| LogSenders.LoggedSmsContent | backend/src/main/java/com/example/certificate/infrastructure/external/sms/LogSmsServiceImpl.java:66-71 | the SMS text that is logged is always valid content |
| LogSenders.AlertOperation | backend/src/main/java/com/example/certificate/infrastructure/external/sms/LogSmsServiceImpl.java:47-80 | the alert succeeds exactly when the recipient is accepted, both dates can be formatted and the log write does not fail; a success writes exactly one alert record, a failure none, with the phone-invalid or log-failed code |
| LogSenders.SendExpiryAlert | backend/src/main/java/com/example/certificate/infrastructure/external/sms/LogSmsServiceImpl.java:45-92 | as the operation, and a null certificate fails in the outer handler with the internal-error text; the SMS sender logs the possibly truncated text, the e-mail sender none |
| LogSenders.SendersAgreeOnValidPhone | backend/src/main/java/com/example/certificate/infrastructure/external/email/LogEmailServiceImpl.java:45-74 | with a well-formed phone number the SMS and e-mail senders succeed on the same inputs and write the same number of records |
| LogSenders.LongSmsContentTruncated | backend/src/main/java/com/example/certificate/infrastructure/external/sms/LogSmsServiceImpl.java:66-71 | an over-long SMS text is logged as its first 70 characters and "..." |
| LogSenders.SendDailySummary | backend/src/main/java/com/example/certificate/infrastructure/external/sms/LogSmsServiceImpl.java:95-154 | the summary succeeds exactly when the recipient is accepted, every listed certificate has an expiry date and the log write does not fail; it then writes one summary record; a failure carries the summary-failed code |
| LogSenders.FirstNull | backend/src/main/java/com/example/certificate/infrastructure/external/sms/LogSmsServiceImpl.java:177-190 | the position of the first null certificate, every entry before it present; the list length when none is null |
| LogSenders.BatchItem | backend/src/main/java/com/example/certificate/infrastructure/external/sms/LogSmsServiceImpl.java:177-187 | a present certificate succeeds exactly when the number is accepted, the text formats and the log write does not fail; a success writes the single alert record with the narrowed day count, a failure writes nothing |
| LogSenders.ItemResults | backend/src/main/java/com/example/certificate/infrastructure/external/sms/LogSmsServiceImpl.java:177-187 | one result per present certificate of the prefix |
| LogSenders.ItemResultsAt | backend/src/main/java/com/example/certificate/infrastructure/external/sms/LogSmsServiceImpl.java:177-187 | the result at each position is that certificate's own alert result, with its own log fault |
| LogSenders.BatchResults | backend/src/main/java/com/example/certificate/infrastructure/external/sms/LogSmsServiceImpl.java:157-204 | a malformed number rejects every entry; otherwise the call throws NullPointerException exactly when some certificate is null, and else returns each certificate's alert result, in order |
| LogSenders.SendBatchAlerts | backend/src/main/java/com/example/certificate/infrastructure/external/sms/LogSmsServiceImpl.java:157-204 | a malformed number writes nothing; one record per successful result; when the call throws, one record per success among the entries before the first null |
| LogSenders.BatchRecordsMatchSuccesses | backend/src/main/java/com/example/certificate/infrastructure/external/sms/LogSmsServiceImpl.java:177-199 | every prefix of present certificates has written one record per success so far |
| LogSenders.BatchFaultIsLocal | backend/src/main/java/com/example/certificate/infrastructure/external/sms/LogSmsServiceImpl.java:177-199 | a log fault on one entry neither decides whether the call throws nor changes any other entry's result |
| LogSenders.EmptyBatch | backend/src/main/java/com/example/certificate/infrastructure/external/sms/LogSmsServiceImpl.java:157-204 | an empty batch returns no results and writes nothing |
| ProductionSenders.NotImplemented | backend/src/main/java/com/example/certificate/service/impl/SmsServiceImpl.java:32-36 | every production result is a failure with the NOT_IMPLEMENTED code and the channel's message |
| ProductionSenders.SendExpiryAlert | backend/src/main/java/com/example/certificate/service/impl/SmsServiceImpl.java:24-37 | a null certificate throws (its name is read for the log); otherwise the not-implemented failure |
| ProductionSenders.ExpiryAlertIgnoresDays | backend/src/main/java/com/example/certificate/service/impl/EmailServiceImpl.java:24-37 | the outcome does not depend on the day count |
| ProductionSenders.SendDailySummary | backend/src/main/java/com/example/certificate/service/impl/SmsServiceImpl.java:39-53 | always the not-implemented failure for the recipient |
| ProductionSenders.SendBatchAlerts | backend/src/main/java/com/example/certificate/service/impl/SmsServiceImpl.java:55-67 | throws exactly when some certificate is null; otherwise one not-implemented failure per certificate |
| Placeholders.StripPlaceholders | backend/src/main/java/com/example/certificate/infrastructure/external/email/EmailTemplate.java:127 | the deletion keeps only characters of the input and leaves no '{' with a '}' after it |
| Placeholders.StripClean | backend/src/main/java/com/example/certificate/infrastructure/external/email/EmailTemplate.java:127 | text without a placeholder passes through unchanged |
| Placeholders.StripIdempotent | backend/src/main/java/com/example/certificate/infrastructure/external/email/EmailTemplate.java:127 | deleting the unknown placeholders twice is deleting them once |
| Placeholders.StripKeepsPrefix | backend/src/main/java/com/example/certificate/infrastructure/external/email/EmailTemplate.java:127 | a leading part without '{' is kept as it is |
| Placeholders.StripDeletesSegment | backend/src/main/java/com/example/certificate/infrastructure/external/email/EmailTemplate.java:127 | a '{', a run without '}' and the closing '}' are deleted together |
| Placeholders.ReplaceVariables | backend/src/main/java/com/example/certificate/infrastructure/external/email/EmailTemplate.java:113-130 | a null template gives the empty text; the result never holds a placeholder |
| Placeholders.SubstituteKnown | backend/src/main/java/com/example/certificate/infrastructure/external/email/EmailTemplate.java:119-124 | a known placeholder is replaced by its value and nothing else changes |
| Placeholders.SubstituteUnknown | backend/src/main/java/com/example/certificate/infrastructure/external/email/EmailTemplate.java:127 | a placeholder no variable names is deleted |
| EmailTemplates.OrElse | backend/src/main/java/com/example/certificate/infrastructure/external/email/EmailTemplate.java:64-74 | a present field is shown as it is, a null one as its fixed stand-in |
| EmailTemplates.ExpiryVariables | backend/src/main/java/com/example/certificate/infrastructure/external/email/EmailTemplate.java:62-78 | one variable per expiry key, in order, the name falling back to the unknown-name text |
| EmailTemplates.DefaultExpiryAlert | backend/src/main/java/com/example/certificate/infrastructure/external/email/EmailTemplate.java:135-163 | a plain-text alert whose subject names the certificate and whose body carries the name, domain, day count and alert type |
| EmailTemplates.GenerateExpiryAlertContent | backend/src/main/java/com/example/certificate/infrastructure/external/email/EmailTemplate.java:26-39 | fails exactly for a null certificate; without a configured template gives the built-in alert; with one, the configured texts with the variables substituted and no placeholder left |
| EmailTemplates.ConfiguredNameFallback | backend/src/main/java/com/example/certificate/infrastructure/external/email/EmailTemplate.java:64 | a configured name placeholder shows the name, or the unknown-name text when there is none, and the rest of the template is kept |
| EmailTemplates.ConfiguredUnknownVariableDeleted | backend/src/main/java/com/example/certificate/infrastructure/external/email/EmailTemplate.java:126-127 | a configured placeholder the alert does not define is deleted |
| EmailTemplates.DefaultDailySummary | backend/src/main/java/com/example/certificate/infrastructure/external/email/EmailTemplate.java:168-200 | a plain-text summary dated today, carrying both counts and a details section for each non-empty list |
| EmailTemplates.GenerateDailySummaryContent | backend/src/main/java/com/example/certificate/infrastructure/external/email/EmailTemplate.java:44-57 | without a configured template the built-in summary; with one, the configured HTML flag and texts without placeholders |
| EmailTemplates.ConfiguredSummaryCount | backend/src/main/java/com/example/certificate/infrastructure/external/email/EmailTemplate.java:86 | a configured expiring-count placeholder shows the size of the first list |
| EmailTemplates.AlertTypeScenarios | backend/src/main/java/com/example/certificate/infrastructure/external/email/EmailTemplate.java:205-218 | the day counts -5, 0, 1, 7, 15, 30 and 60 get the expired, 1-day, 7-day, 15-day, 30-day and routine labels |
| Errors.ValuesComplete | backend/src/main/java/com/example/certificate/common/exception/ErrorCode.java:10-51 | every constant is among the listed values |
| Errors.CodeRanges | backend/src/main/java/com/example/certificate/common/exception/ErrorCode.java:9-51 | a code is at least 10000 exactly for the domain constants; the general ones are HTTP statuses between 200 and 500 |
| Errors.CodesDistinct | backend/src/main/java/com/example/certificate/common/exception/ErrorCode.java:10-51 | no two constants share a code |
| Errors.FindCode | backend/src/main/java/com/example/certificate/common/exception/ErrorCode.java:73-77 | the loop finds a listed constant with the code, or reports that none has it |
| Errors.GetByCode | backend/src/main/java/com/example/certificate/common/exception/ErrorCode.java:72-79 | the constant with the code, or INTERNAL_SERVER_ERROR when none has it |
| Errors.GetByCodeRoundTrip | backend/src/main/java/com/example/certificate/common/exception/ErrorCode.java:72-79 | looking a constant's code up gives the constant back |
| Errors.GetByCodeUnknown | backend/src/main/java/com/example/certificate/common/exception/ErrorCode.java:78 | a code no constant has gives INTERNAL_SERVER_ERROR |
| Errors.BusinessOf | backend/src/main/java/com/example/certificate/common/exception/BusinessException.java:45-47 | a business exception with the given code and message |
| Errors.BusinessOfCode | backend/src/main/java/com/example/certificate/common/exception/BusinessException.java:52-54 | a business exception whose code looks up to the constant and whose message is the constant's |
| Errors.BusinessOfCodeWith | backend/src/main/java/com/example/certificate/common/exception/BusinessException.java:59-61 | the constant's code with the caller's message |
| Errors.ErrorOf | backend/src/main/java/com/example/certificate/common/response/ApiError.java:40-42 | an unsuccessful body with the code and message and no detail |
| Errors.ErrorOfDetail | backend/src/main/java/com/example/certificate/common/response/ApiError.java:47-49 | an unsuccessful body with the code, message and detail |
| Errors.ErrorOfThrowable | backend/src/main/java/com/example/certificate/common/response/ApiError.java:54-56 | an unsuccessful error carrying the given code and message, whose detail is the throwable's message |
| Errors.HttpStatusOf | backend/src/main/java/com/example/certificate/common/exception/GlobalExceptionHandler.java:138-147 | a 4xx code is the status itself, a domain code gives 400, anything else 500 |
| Errors.JoinMessages | backend/src/main/java/com/example/certificate/common/exception/GlobalExceptionHandler.java:48 | no messages join to the empty text, one message to itself |
| Errors.Handle | backend/src/main/java/com/example/certificate/common/exception/GlobalExceptionHandler.java:32-133 | every response is unsuccessful with the status of its code; a business exception keeps its code and message; validation failures are 400 VALIDATION_FAILED; type mismatches and illegal arguments 400 PARAMETER_INVALID; any other exception 500 with its message as detail |
| Errors.DomainBusinessIsBadRequest | backend/src/main/java/com/example/certificate/common/exception/GlobalExceptionHandler.java:141-143 | a business exception from a domain constant reaches the client as 400 with that constant's code and message |
| Errors.GeneralBusinessKeepsStatus | backend/src/main/java/com/example/certificate/common/exception/GlobalExceptionHandler.java:139-140 | a business exception from a general constant keeps that constant's status, except SUCCESS, which becomes 500 |
| Errors.HandledStatusIsError | backend/src/main/java/com/example/certificate/common/exception/GlobalExceptionHandler.java:138-147 | every error response has a status between 400 and 500 |
| Requests.IsValidSortField | backend/src/main/java/com/example/certificate/controller/request/PageRequest.java:43-51 | a sort field is valid exactly when it is present and one of name, domain, expiryDate and createdAt |
| Requests.IsValidSortOrder | backend/src/main/java/com/example/certificate/controller/request/PageRequest.java:56-62 | a valid order is present |
| Requests.NormalizedSortOrder | backend/src/main/java/com/example/certificate/controller/request/PageRequest.java:67-72 | a null order normalises to DESC; a present one keeps its length |
| Requests.NormalizeIdempotent | backend/src/main/java/com/example/certificate/controller/request/PageRequest.java:67-72 | normalising an already normalised order changes nothing |
| Requests.ValidSortOrderNormalizes | backend/src/main/java/com/example/certificate/controller/request/PageRequest.java:56-72 | an order is valid exactly when it is present and normalises to ASC or DESC |
| Requests.DefaultPageValid | backend/src/main/java/com/example/certificate/controller/request/PageRequest.java:18-38 | the default page request is within its bounds, sorts by a valid field and order, and normalises to DESC |
| Requests.IsValidDateRange | backend/src/main/java/com/example/certificate/controller/request/CertificateQueryRequest.java:54-59 | with both bounds the range is valid exactly when from is not after to; a missing bound is not checked |
| Requests.HasFilters | backend/src/main/java/com/example/certificate/controller/request/CertificateQueryRequest.java:64-70 | a request without filters has all five filter fields null |
| Requests.NoFiltersValidRange | backend/src/main/java/com/example/certificate/controller/request/CertificateQueryRequest.java:54-70 | a request without filters has a valid range |
| Requests.StatusAllowedIffName | backend/src/main/java/com/example/certificate/controller/request/CertificateQueryRequest.java:23 | the allowed status strings are exactly the names of the status constants |
| Requests.IsValidObject | backend/src/main/java/com/example/certificate/common/validation/ValidDateRangeValidator.java:26-57 | the validator rejects exactly an object that has both fields, both dates present, with the issue date not before the expiry date |
| Requests.InputValidIff | backend/src/main/java/com/example/certificate/common/validation/ValidDateRangeValidator.java:46-51 | a create or update request is rejected exactly when it has both dates and the issue date is not before the expiry date |
| Requests.ValidatorStricterThanRange | backend/src/main/java/com/example/certificate/common/validation/ValidDateRangeValidator.java:51 | a pair the validator accepts is a valid query range, while equal dates form a valid range the validator rejects |
| Responses.Success | backend/src/main/java/com/example/certificate/common/response/ApiResponse.java:42-44 | a success with code 200, the default message and no data |
| Responses.SuccessWith | backend/src/main/java/com/example/certificate/common/response/ApiResponse.java:49-51 | a success with code 200, the default message and the data as given |
| Responses.SuccessMessageOnly | backend/src/main/java/com/example/certificate/common/response/ApiResponse.java:56-58 | a success with code 200, the given message and no data |
| Responses.SuccessMessageWith | backend/src/main/java/com/example/certificate/common/response/ApiResponse.java:63-65 | a success with code 200, the given message and data |
| Responses.Error | backend/src/main/java/com/example/certificate/common/response/ApiResponse.java:70-72 | a failure with the given code and message and no data |
| Responses.ErrorDefault | backend/src/main/java/com/example/certificate/common/response/ApiResponse.java:77-79 | a failure with code 500 and the message |
| Responses.FactoriesAgree | backend/src/main/java/com/example/certificate/common/response/ApiResponse.java:42-79 | every factory carries data only on success, and the short forms equal the long forms with the defaults filled in |
| Repository.RowToDomain | backend/src/main/java/com/example/certificate/infrastructure/repository/impl/CertificateRepositoryImpl.java:36 | a row whose status names a constant converts to a certificate with that status |
| Repository.Save | backend/src/main/java/com/example/certificate/infrastructure/repository/impl/CertificateRepositoryImpl.java:46-60 | the status is recomputed; a certificate without id is inserted with both timestamps set and gets the generated id; one with an id is updated by id keeping its creation time; every other field is kept |
| Repository.SaveAgain | backend/src/main/java/com/example/certificate/infrastructure/repository/impl/CertificateRepositoryImpl.java:46-60 | saving a saved certificate again on the same day updates it in place without changing its status |
| Repository.ConvertSortField | backend/src/main/java/com/example/certificate/infrastructure/repository/impl/CertificateRepositoryImpl.java:252-264 | every field maps to a known column, any unknown field to created_at |
| Repository.ConvertSortFieldInjective | backend/src/main/java/com/example/certificate/infrastructure/repository/impl/CertificateRepositoryImpl.java:253-261 | the four valid sort fields map to four different columns |
| Repository.Ascending | backend/src/main/java/com/example/certificate/infrastructure/repository/impl/CertificateRepositoryImpl.java:91 | ascending unless the order is DESC in any letter case; a null order is ascending |
| Repository.OrderFor | backend/src/main/java/com/example/certificate/infrastructure/repository/impl/CertificateRepositoryImpl.java:88-93 | an ordering is added exactly when the sort field has text, on a known column in the requested direction |
| Repository.AscendingMatchesNormalized | backend/src/main/java/com/example/certificate/infrastructure/repository/impl/CertificateRepositoryImpl.java:91 | the repository sorts ascending exactly when the page request's normalised order is not DESC |
| Repository.DefaultPageOrder | backend/src/main/java/com/example/certificate/infrastructure/repository/impl/CertificateRepositoryImpl.java:169-174 | the default page request orders by created_at, newest first |
| Repository.TextCondition | backend/src/main/java/com/example/certificate/infrastructure/repository/impl/CertificateRepositoryImpl.java:123-133 | a condition is added exactly for an argument that has text |
| Repository.FilterConditionsSelect | backend/src/main/java/com/example/certificate/infrastructure/repository/impl/CertificateRepositoryImpl.java:108-145 | a row is selected exactly when it has the requested status and contains the requested domain and issuer text, blank or null requests being ignored |
| Repository.QueryConditionsNeedFilters | backend/src/main/java/com/example/certificate/infrastructure/repository/impl/CertificateRepositoryImpl.java:185-201 | a request that adds a condition has filters, and one without filters selects every row |
| Repository.InvalidRangeSelectsNothing | backend/src/main/java/com/example/certificate/infrastructure/repository/impl/CertificateRepositoryImpl.java:196-201 | a date range whose from is after its to selects no row |
| Repository.StatusInIffName | backend/src/main/java/com/example/certificate/infrastructure/repository/impl/CertificateRepositoryImpl.java:222-225 | a row matches the status list exactly when its status column names one of the statuses |
| Repository.RowsWithStatusIn | backend/src/main/java/com/example/certificate/infrastructure/repository/impl/CertificateRepositoryImpl.java:227-228 | every row found has one of the requested statuses |
| Repository.FindByStatusIn | backend/src/main/java/com/example/certificate/infrastructure/repository/impl/CertificateRepositoryImpl.java:216-229 | a null or empty list answers empty without querying; otherwise every row returned has a requested status |
| Repository.FindByStatusInComplete | backend/src/main/java/com/example/certificate/infrastructure/repository/impl/CertificateRepositoryImpl.java:216-229 | every row with a requested status is found |
| DateUtils.LocalMidnight | frontend/src/utils/date.js:57-58 | the start of the day holding an instant is at or before it, less than a day before, and on a day boundary |
| DateUtils.CeilDiv | frontend/src/utils/date.js:60 | the rounded-up quotient is the least integer whose multiple of the divisor reaches the dividend |
| DateUtils.GetDaysFromToday | frontend/src/utils/date.js:50-61 | a missing or unparsable date counts 0; otherwise the difference of the date's and today's day numbers |
| DateUtils.DaysIgnoreTimeOfDay | frontend/src/utils/date.js:56-60 | the count depends only on the two calendar days, not on either time of day |
| DateUtils.DayOfWithin | frontend/src/utils/date.js:57-58 | an instant inside a day lies on that day |
| DateUtils.DaysSign | frontend/src/utils/date.js:50-61 | the count is 0 exactly on today, positive exactly from tomorrow on, negative exactly before today |
| DateUtils.CalendarExamples | frontend/src/utils/date.js:50-61 | from 2024-01-01, the leap day 2024-02-29 is 59 days ahead, 2025-01-01 366 ahead and 2023-01-01 365 back |
| DateUtils.CivilDays | frontend/src/utils/date.js:53 | the day numbers of the example dates, counted from 1970-01-01 |
| DateUtils.NoonDay | frontend/src/utils/date.js:53 | noon of a date lies on that date's day |
| DateUtils.RelativeLabel | frontend/src/utils/date.js:71-75 | today, tomorrow and yesterday by name; other counts as the number of days ahead or back |
| DateUtils.FormatRelativeTime | frontend/src/utils/date.js:68-76 | the label of the day count; a missing or unparsable date reads as today |
| DateUtils.RelativeLabelsDiffer | frontend/src/utils/date.js:71-75 | distinct day counts get distinct labels |
| DateUtils.LabelLastChar | frontend/src/utils/date.js:71-75 | a label's last character tells later days, earlier days and the named days apart |
| DateUtils.SuffixedNumbersDiffer | frontend/src/utils/date.js:74-75 | two different numbers with the same suffix print differently |
| DateUtils.RelativeLabelInjective | frontend/src/utils/date.js:71-75 | the label determines the day count |
| DateUtils.RelativeTimeSameDay | frontend/src/utils/date.js:68-76 | two dates on the same day get the same label |
| DateUtils.FormatLocalDate | frontend/src/utils/date.js:10-21 | a missing or unparsable date gives the empty text, any other its rendering |
| FormatUtils.GetStatusType | frontend/src/utils/format.js:16-23 | each status name gets its own tag type, and anything else gets info |
| FormatUtils.GetStatusText | frontend/src/utils/format.js:26-33 | a status name gets its Chinese label; anything else passes through unchanged |
| FormatUtils.StatusDisplayAgrees | frontend/src/utils/format.js:26-33 | the frontend label of each status is the backend's description, and different statuses get different tag types |
| FormatUtils.ParseLogType | frontend/src/utils/format.js:36-43 | a name denotes the log type whose name it is, and no other |
| FormatUtils.GetLogTypeText | frontend/src/utils/format.js:36-43 | a known log type gets its label; anything else passes through unchanged |
| FormatUtils.LogTypeLabelsDistinct | frontend/src/utils/format.js:37-41 | distinct log types get distinct labels, and no label is itself a type name |
| FormatUtils.FormatOrDash | frontend/src/utils/format.js:4-13 | a missing date shows as "-", any other as its rendering |
| Highlight.FoldingAgrees | frontend/src/utils/highlight.js:20 | lower-case folding and upper-case folding identify the same characters |
| Highlight.LowerOccursIffMatch | frontend/src/utils/highlight.js:58 | an occurrence in the lower-cased strings is exactly a case-insensitive match in the originals |
| Highlight.FirstMatch | frontend/src/utils/highlight.js:71-73 | the first case-insensitive match, or -1 exactly when there is none |
| Highlight.ContainsKeyword | frontend/src/utils/highlight.js:55-59 | true exactly when both arguments are non-empty and the keyword occurs in the text ignoring case |
| Highlight.TagsAreTags | frontend/src/utils/highlight.js:22 | the inserted opening and closing markup are single tags when the class name holds no '>' |
| Highlight.StripLeavesNoTag | frontend/src/utils/highlight.js:123 | what remains after deleting tags holds no tag |
| Highlight.StripWithoutTags | frontend/src/utils/highlight.js:123 | text holding no tag is left as it is |
| Highlight.StripIdempotent | frontend/src/utils/highlight.js:123 | stripping tags twice is stripping them once |
| Highlight.StripHtmlTags | frontend/src/utils/highlight.js:120-124 | an empty or missing argument gives the empty text; the result holds no tag; text without tags is unchanged |
| Highlight.MarkStrip | frontend/src/utils/highlight.js:20-22 | stripping the inserted markup gives back the text, when the text has no '<' and the opening markup is one tag |
| Highlight.MarkChangesIffMatch | frontend/src/utils/highlight.js:20-22 | the text is unchanged without a match and grows with one |
| Highlight.HighlightText | frontend/src/utils/highlight.js:13-27 | a missing argument returns the text; with a keyword the text changes exactly when it contains the keyword; stripping the markup gives the text back |
| Highlight.HighlightExample | frontend/src/utils/highlight.js:20-22 | every occurrence is wrapped, keeping its own case |
| Highlight.Substring | frontend/src/utils/highlight.js:80 | within bounds the slice itself, and never longer than the string |
| Highlight.SnippetAround | frontend/src/utils/highlight.js:77-84 | the window at the match with the context on each side and "..." on each side that was cut |
| Highlight.SnippetAroundPlain | frontend/src/utils/highlight.js:77-84 | cutting a window adds no '<' |
| Highlight.ExtractSnippet | frontend/src/utils/highlight.js:68-87 | text without a match is returned as it is; with one, the window around the first match; no '<' is added |
| Highlight.SnippetFacts | frontend/src/utils/highlight.js:77-86 | the snippet keeps the match, is at most the keyword plus twice the context plus two markers long, and is the whole text when the context reaches both ends |
| Highlight.SnippetKeepsMatch | frontend/src/utils/highlight.js:77-80 | the window around a match holds that match |
| Highlight.Truncate | frontend/src/utils/highlight.js:101 | text within the limit is kept; longer text becomes its first characters and "..." |
| Highlight.HighlightAndTruncate | frontend/src/utils/highlight.js:97-113 | a missing text gives the empty text; without keyword a plain truncation; otherwise the highlighted snippet, or the highlighted truncation when there is no match |
| Highlight.PlainTruncate | frontend/src/utils/highlight.js:101 | truncating adds no '<' |
| Highlight.HighlightAndTruncateLength | frontend/src/utils/highlight.js:105-107 | what is shown, without markup, is at most the keyword, the two halves of the limit and two markers long |
| Highlight.TrimEnd | frontend/src/utils/highlight.js:137 | the trimmed prefix ends in a non-space character |
| Highlight.Trim | frontend/src/utils/highlight.js:137 | the trimmed text starts and ends with non-space characters, and text without spaces is kept |
| Highlight.SplitOnSpace | frontend/src/utils/highlight.js:137 | at least one piece, and no piece holds white space |
| Highlight.NonEmpty | frontend/src/utils/highlight.js:137 | the filter keeps only non-empty pieces drawn from the input |
| Highlight.Words | frontend/src/utils/highlight.js:137 | the keywords of a query are non-empty and hold no white space |
| Highlight.WordsOfBlank | frontend/src/utils/highlight.js:137-139 | a blank query has no keywords |
| Highlight.WordsOfWord | frontend/src/utils/highlight.js:137 | a query without white space is its own single keyword |
| Highlight.HighlightMultipleKeywords | frontend/src/utils/highlight.js:36-47 | a missing text or an empty list returns the text; the result is present exactly when the text is |
| Highlight.MultipleWithOneKeyword | frontend/src/utils/highlight.js:36-47 | with one keyword it is the single highlighting with that keyword trimmed |
| Highlight.SmartHighlight | frontend/src/utils/highlight.js:133-143 | a missing text or query or a blank query returns the text; a one-word query is the single highlighting |
| Highlight.SmartHighlightXX | frontend/src/utils/highlight.js:133-142 | the query "x x" highlights "x" twice in turn |
| Highlight.MarkEachXX | frontend/src/utils/highlight.js:40-44 | the second pass wraps the 'x' inside the class attribute the first pass inserted |
| Highlight.SequentialMarkingBreaksMarkup | frontend/src/utils/highlight.js:40-44 | highlighting the keywords one after another can break the markup: the text "x" with the class name "x" and the query "x x" no longer strips back to "x" |
| Highlight.MarkAnyStrip | frontend/src/utils/highlight.js:40-44 | highlighting all keywords in one scan always strips back to the text |
| Highlight.MarkAnySingle | frontend/src/utils/highlight.js:22 | with one keyword the single scan is the single highlighting |
| Highlight.OneScanStrip | frontend/src/utils/highlight.js:40-44 | the one-scan highlighting strips back to any text without '<' |
| Highlight.SmartHighlightOnePass | frontend/src/utils/highlight.js:133-143 | the corrected highlighting: same early returns, strips back to the text, and agrees with the original for a one-word query |
| HttpClient.WithRequestId | frontend/src/utils/request.js:18-32 | the request interceptor sets the request-id header to a fresh id and keeps every other header |
| HttpClient.RequestIdReplaced | frontend/src/utils/request.js:21 | passing a config through the interceptor again replaces the id and changes nothing else |
| HttpClient.OnResponse | frontend/src/utils/request.js:41-58 | a successful body resolves to its data; any other shows one message (the body's, or the default) and rejects with an error carrying it; a nullish body throws |
| HttpClient.ErrorMessage | frontend/src/utils/request.js:63-92 | the message the error interceptor shows: fixed texts for 403, 404 and 500, a timeout and no response; otherwise the body's message or the fallback naming the status |
| HttpClient.OnError | frontend/src/utils/request.js:59-95 | exactly one message is shown, then the very error given is rejected again |
| HttpClient.MessagesIdentifyCause | frontend/src/utils/request.js:68-91 | the five fixed messages are distinct, none is a fallback message, and a fallback message determines its status |
| HttpClient.FixedStatusIgnoresBody | frontend/src/utils/request.js:68-79 | for 403, 404 and 500 the body and error code do not matter |
| HttpClient.ErrorExamples | frontend/src/utils/request.js:54-86 | a 422 without body message names the status, one with a message shows it, and a failed business answer shows its message |
| HttpClient.Default | frontend/src/utils/request.js:117 | only an absent argument takes the default |
| HttpClient.WithConfig | frontend/src/utils/request.js:117-123 | the caller's config is spread last: its keys win and the helper's other keys stay |
| HttpClient.HttpGet | frontend/src/utils/request.js:117-124 | a GET with the given or empty params, unless the caller's config overrides them |
| HttpClient.HttpPost | frontend/src/utils/request.js:133-140 | a POST with the given or empty data, unless the caller's config overrides them |
| HttpClient.HttpPut | frontend/src/utils/request.js:149-156 | a PUT with the given or empty data, unless the caller's config overrides them |
| HttpClient.HttpDelete | frontend/src/utils/request.js:164-170 | a DELETE that sends no params or data of its own |
| HttpClient.HttpPatch | frontend/src/utils/request.js:179-186 | a PATCH with the given or empty data, unless the caller's config overrides them |
| HttpClient.HttpUpload | frontend/src/utils/request.js:195-205 | a multipart POST of the form data with the progress callback, with nothing else |
| HttpClient.HttpDownload | frontend/src/utils/request.js:214-220 | a GET for a blob with the given or empty params |
| HttpClient.ConfigSpreadLast | frontend/src/utils/request.js:117-186 | whatever the helper, a caller's config key overrides the helper's own value |
| HttpClient.NoConfig | frontend/src/utils/request.js:117 | without a config the helper's own request stands |
| HttpClient.GetDefaults | frontend/src/utils/request.js:117-124 | a GET with only a url asks for empty params |
| CertificateStore.FetchQuery | frontend/src/stores/modules/certificate.js:53-58 | the query holds page and size, the search parameters and the caller's params, later keys winning |
| CertificateStore.FetchList | frontend/src/stores/modules/certificate.js:49-72 | loading ends cleared; a rejection is rethrown unchanged; an answer without properties throws; otherwise the list and the total are taken from it |
| CertificateStore.FetchListFacts | frontend/src/stores/modules/certificate.js:62-63 | a successful fetch changes only the list and the total, a missing list or total becoming [] or 0 |
| CertificateStore.FetchDetail | frontend/src/stores/modules/certificate.js:75-87 | the answer becomes the current certificate; a rejection changes only the loading flag |
| CertificateStore.Create | frontend/src/stores/modules/certificate.js:90-105 | a failed creation is rethrown; a created certificate is followed by a list refetch, whose failure is the action's |
| CertificateStore.FetchStatistics | frontend/src/stores/modules/certificate.js:158-167 | the answer becomes the statistics, and the loading flag is not touched |
| CertificateStore.Refresh | frontend/src/stores/modules/certificate.js:200-205 | both fetches land; the action fails exactly when either fetch fails |
| CertificateStore.ReplaceFirst | frontend/src/stores/modules/certificate.js:119-122 | the list keeps its length, and the replacement fails exactly when the list is not an array or the search reads a null item |
| CertificateStore.ReplaceFirstOnlyFirst | frontend/src/stores/modules/certificate.js:119-122 | only the first item with the id is replaced; a list without the id is unchanged |
| CertificateStore.Update | frontend/src/stores/modules/certificate.js:108-131 | the current certificate is replaced when it has the id, even if the list search then throws; the list gets the answer at the first matching item; nothing else changes |
| CertificateStore.UpdateIdempotent | frontend/src/stores/modules/certificate.js:108-131 | updating twice with the same answer, carrying the updated id, is updating once |
| CertificateStore.FindIndexPrefix | frontend/src/stores/modules/certificate.js:119 | changing items from the found index on, where that item still matches, does not move the search |
| CertificateStore.RemoveAll | frontend/src/stores/modules/certificate.js:140 | the filter fails exactly when the list is not an array or holds a null item |
| CertificateStore.RemoveAllFacts | frontend/src/stores/modules/certificate.js:140 | the filter keeps exactly the items with another id, and kept plus dropped items make up the list |
| CertificateStore.Minus1 | frontend/src/stores/modules/certificate.js:141 | a numeric total goes down by one |
| CertificateStore.Remove | frontend/src/stores/modules/certificate.js:134-155 | after deletion the list loses the items with the id, the total goes down by one and a current certificate with the id is cleared; a rejection is rethrown |
| CertificateStore.RemoveTwice | frontend/src/stores/modules/certificate.js:140-141 | a second removal of the same id drops nothing more, yet lowers the total again |
| CertificateStore.SelectKeepsNone | frontend/src/stores/modules/certificate.js:140 | no kept item has the removed id |
| CertificateStore.SelectAllKept | frontend/src/stores/modules/certificate.js:140 | filtering items that all pass keeps them all |
| CertificateStore.UpdateSearchParams | frontend/src/stores/modules/certificate.js:170-172 | the search object becomes the merge of the old one and the params, the params winning, and nothing else changes |
| CertificateStore.UpdatePagination | frontend/src/stores/modules/certificate.js:175-177 | the pagination becomes the merge of the old one and the params, the params winning, and nothing else changes |
| CertificateStore.SetSortConfig | frontend/src/stores/modules/certificate.js:190-192 | the sort object becomes the merge of the old one and the config, the config winning, and nothing else changes |
| CertificateStore.ResetSearchParams | frontend/src/stores/modules/certificate.js:180-187 | the search is cleared and the page set to 1, keeping the other pagination keys and the rest of the state |
| CertificateStore.ClearCurrent | frontend/src/stores/modules/certificate.js:195-197 | no current certificate remains and nothing else changes |
| CertificateStore.ResetThenFetch | frontend/src/stores/modules/certificate.js:180-187 | after a reset the next fetch asks for page 1 with an empty keyword, status and sort |
| CertificateStore.ResetIdempotent | frontend/src/stores/modules/certificate.js:180-187 | resetting twice is resetting once |
| CertificateStore.SearchMergeIdempotent | frontend/src/stores/modules/certificate.js:170-172 | merging the same search params twice is merging them once |
| CertificateQueryStore.FetchCertificates | frontend/src/stores/certificate.js:20-31 | loading ends cleared and the query is kept; the list and total change only on a successful envelope, taken from its data; a failed envelope changes nothing else; a rejection is rethrown |
| CertificateQueryStore.FetchCertificateById | frontend/src/stores/certificate.js:34-45 | the data is returned whatever the envelope says, but becomes the current certificate only on success |
| CertificateQueryStore.ChangeThenRefetch | frontend/src/stores/certificate.js:48-72 | a change reporting success is followed by a list refetch, whose failure is the action's; otherwise the envelope is returned and nothing changes |
| CertificateQueryStore.FailedChangeLeavesState | frontend/src/stores/certificate.js:50-53 | a failed envelope changes nothing, not even the loading flag |
| CertificateQueryStore.SetQueryParams | frontend/src/stores/certificate.js:75-77 | the query becomes the merge of the old one and the params, the params winning, and nothing else changes |
| CertificateQueryStore.WithStatus | frontend/src/stores/certificate.js:82-89 | the filter throws exactly when the list is not an array or holds a null item, and otherwise keeps the items with the status |
| CertificateQueryStore.GettersDisjoint | frontend/src/stores/certificate.js:82-89 | a certificate is in a getter exactly when it is in the list with that status, so none is in both |
| CertificateQueryStore.GettersKeepOrder | frontend/src/stores/certificate.js:82-89 | the getters keep the list's order: they distribute over appending |
| SystemStore.ToggleTheme | frontend/src/stores/modules/system.js:33-39 | anything but light toggles to light, light to dark; the new theme is saved and applied to the document, and nothing else changes |
| SystemStore.ToggleThemeTwice | frontend/src/stores/modules/system.js:33-39 | on the two known themes, toggling twice restores the theme |
| SystemStore.SetTheme | frontend/src/stores/modules/system.js:42-46 | the theme is set, saved and applied, and nothing else changes |
| SystemStore.SetLanguage | frontend/src/stores/modules/system.js:49-52 | the language is set and saved, and nothing else changes |
| SystemStore.BoolText | frontend/src/stores/modules/system.js:57 | the text of a flag is "true" exactly when the flag is set |
| SystemStore.ToggleSidebar | frontend/src/stores/modules/system.js:55-58 | the flag flips and is saved as its text, and nothing else changes |
| SystemStore.ToggleSidebarTwice | frontend/src/stores/modules/system.js:55-58 | toggling twice restores the flag |
| SystemStore.SetSidebarCollapsed | frontend/src/stores/modules/system.js:61-64 | the flag is set and saved as its text, and nothing else changes |
| SystemStore.UpdateBreadcrumbs | frontend/src/stores/modules/system.js:67-69 | the list is replaced, and nothing else changes |
| SystemStore.AddBreadcrumb | frontend/src/stores/modules/system.js:72-74 | the item is appended after the existing ones |
| SystemStore.SpliceStart | frontend/src/stores/modules/system.js:78 | the position splice starts at: an index within the list, counted from the end when negative, always clamped to the list |
| SystemStore.RemoveBreadcrumb | frontend/src/stores/modules/system.js:77-79 | an index within the list, from either end, removes one item; past the end nothing changes |
| SystemStore.RemoveUndoesAdd | frontend/src/stores/modules/system.js:72-79 | removing at -1, or at the old length, undoes an addition |
| SystemStore.ClearBreadcrumbs | frontend/src/stores/modules/system.js:82-84 | the list is emptied, and nothing else changes |
| SystemStore.UpdateSettings | frontend/src/stores/modules/system.js:87-90 | the settings become the merge of the old ones and the new, the new winning, and the merged settings are saved as JSON |
| SystemStore.UpdateSystemHealth | frontend/src/stores/modules/system.js:93-99 | the health data is merged in, with the last-check time always the current time |
| SystemStore.RestoredSettings | frontend/src/stores/modules/system.js:122-129 | the saved settings are merged in only when present, non-empty and parseable |
| SystemStore.RestoredText | frontend/src/stores/modules/system.js:104-113 | a saved theme or language is taken only when present and non-empty |
| SystemStore.RestoredFlag | frontend/src/stores/modules/system.js:116-119 | a saved sidebar flag, when present, is true exactly for the text "true" |
| SystemStore.InitializeSystem | frontend/src/stores/modules/system.js:102-130 | each persisted field is restored as its rule says, the document theme applied when a theme was restored, and storage left unchanged |
| SystemStore.ResetSystemSettings | frontend/src/stores/modules/system.js:133-151 | the defaults are back, the four saved keys removed, and light applied to the document |
| SystemStore.ReloadRestores | frontend/src/stores/modules/system.js:102-130 | a fresh store loaded from any storage mirrors it, and a mirrored store comes back the same after a reload |
| SystemStore.LoadOther | frontend/src/stores/modules/system.js:35 | writing one key leaves what the others load unchanged |
| SystemStore.ThemeKeepsMirrored | frontend/src/stores/modules/system.js:33-46 | setting a non-empty theme, or toggling, keeps the store mirrored |
| SystemStore.LanguageKeepsMirrored | frontend/src/stores/modules/system.js:49-52 | setting a non-empty language keeps the store mirrored |
| SystemStore.SidebarKeepsMirrored | frontend/src/stores/modules/system.js:55-64 | setting or toggling the sidebar keeps the store mirrored |
| SystemStore.ResetKeepsMirrored | frontend/src/stores/modules/system.js:133-151 | the reset keeps the store mirrored |
| SystemStore.UpdateSettingsKeepsMirrored | frontend/src/stores/modules/system.js:87-90 | settings whose JSON reads back keep the store mirrored |
| SystemStore.DefaultsStayUnder | frontend/src/stores/modules/system.js:13-17 | a mirrored store's settings always hold the default keys |
| SystemStore.EmptyThemeNotRestored | frontend/src/stores/modules/system.js:104-107 | setting the empty theme breaks the mirror: the store shows "" but a reload shows light |
| AuthStore.Fresh | frontend/src/stores/modules/auth.js:10-12 | a new store holds the saved token, or the empty text, no user and no loading |
| AuthStore.HandleLogout | frontend/src/stores/modules/auth.js:55-68 | the logout API is called exactly when there is a token; the token, user and saved token are cleared whatever it answers |
| AuthStore.FetchUserInfo | frontend/src/stores/modules/auth.js:19-31 | without a token nothing is called and null returned; the user on success; on failure a logout and null |
| AuthStore.HandleLogin | frontend/src/stores/modules/auth.js:34-52 | loading ends cleared; a rejection, or an answer without properties, is thrown and changes nothing else; otherwise the token and user are taken from the answer and the token saved as text |
| AuthStore.CheckAuth | frontend/src/stores/modules/auth.js:71-76 | the user is fetched only with a token and no user; the answer is whether a token remains |
| AuthStore.FailedLookupLogsOut | frontend/src/stores/modules/auth.js:26-29 | a failed user lookup logs out, so the check answers false after calling the user and logout APIs |
| AuthStore.UpdateUserInfo | frontend/src/stores/modules/auth.js:79-81 | the user becomes an object holding the update's keys over the old user's, and nothing else changes |
| AuthStore.UpdateUserInfoIdempotent | frontend/src/stores/modules/auth.js:79-81 | applying the same update twice is applying it once |
| AuthStore.SessionKeepsMirrored | frontend/src/stores/modules/auth.js:10-76 | logging out, fetching the user and checking keep the token equal to what a reload would read |
| AuthStore.LoginKeepsMirrored | frontend/src/stores/modules/auth.js:39-43 | a failed login, or one answering a string token, keeps the token mirrored |
| AuthStore.LoginWithoutTokenSignsInOnReload | frontend/src/stores/modules/auth.js:39-43 | an answer without a token leaves the store signed out but saves the text "undefined", so a reload signs in |
| AuthStore.LogoutOnce | frontend/src/stores/modules/auth.js:55-68 | logging out twice calls the API at most once and leaves the same state |
| Guards.HasPermission | frontend/src/router/guards.js:11-21 | nothing required lets anyone through; otherwise one granted required permission is enough |
| Guards.HasPermissionMonotone | frontend/src/router/guards.js:11-21 | more granted permissions never deny a route that fewer allowed |
| Guards.AuthGuard | frontend/src/router/guards.js:46-55 | a route not marked public redirects to the login page exactly when no non-empty token is saved; otherwise it proceeds |
| Guards.AuthGuardAgreesWithStore | frontend/src/router/guards.js:46-55 | a protected route proceeds exactly when the auth store loaded from the same storage is signed in |
| Guards.PermissionGuard | frontend/src/router/guards.js:60-71 | the route proceeds exactly when the fixed permissions satisfy it, and otherwise goes to the dashboard |
| Guards.PermissionExamples | frontend/src/router/guards.js:27-41 | a route needing a listed permission passes, one needing only an unlisted one does not, and a route without permissions passes |
| Guards.TitleGuard | frontend/src/router/guards.js:76-87 | the title is the route title and the app name, or the app name alone; the route always proceeds |
| Guards.TitleShape | frontend/src/router/guards.js:80-84 | the title ends with the app name, and a titled route's title starts with its title |
| UrlSync.MergeQuery | frontend/src/composables/useUrlSync.js:19-29 | a parameter that is null, undefined or empty deletes its key, any other is written as its text, and keys not among the parameters are kept unchanged |
| UrlSync.MergeQueryIdempotent | frontend/src/composables/useUrlSync.js:19-29 | merging the same parameters a second time changes nothing |
| UrlSync.UpdateUrlParams | frontend/src/composables/useUrlSync.js:17-40 | no navigation happens exactly when the parameters are null or undefined; otherwise a push, or a replace when asked, to the same path with the merged query |
| UrlSync.GetUrlParam | frontend/src/composables/useUrlSync.js:48-50 | a non-empty query value is returned as is; otherwise the default, itself defaulting to the empty text |
| UrlSync.ParamReadsBack | frontend/src/composables/useUrlSync.js:17-50 | after a merge, a written parameter reads back as its text and a cleared one as the default |
| UrlSync.PageOf | frontend/src/composables/useUrlSync.js:101 | the page is never 0: a parsed non-zero number is kept, and anything else reads as 1 |
| UrlSync.QueryText | frontend/src/composables/useUrlSync.js:99-100 | the text of a query key agrees with reading it with that fallback |
| UrlSync.InitFromUrl | frontend/src/composables/useUrlSync.js:98-102 | the keyword and filter are read from the URL with empty defaults, and the page is parsed with default 1 |
| UrlSync.SyncParams | frontend/src/composables/useUrlSync.js:105-111 | the three keys are written, and the page is cleared exactly when it is 1 or less |
| UrlSync.SyncToUrl | frontend/src/composables/useUrlSync.js:105-111 | a push to the same path; the URL holds a page exactly when the page is past the first; other keys are kept |
| UrlSync.SyncedEntries | frontend/src/composables/useUrlSync.js:98-111 | the synced URL reads back the keyword, the filter, and the page, or 1 for a first page |
| UrlSync.SyncThenInit | frontend/src/composables/useUrlSync.js:98-111 | reading the synced URL back gives the state that wrote it for any page from 1 on, and page 1 for a page below 1 |
| UrlSync.UpdateSearch | frontend/src/composables/useUrlSync.js:130-134 | a new keyword sets the keyword and returns to the first page, and the synced URL holds no page |
| UrlSync.UpdateStatus | frontend/src/composables/useUrlSync.js:137-141 | a new filter sets the filter and returns to the first page, and the synced URL holds no page |
| UrlSync.UpdatePage | frontend/src/composables/useUrlSync.js:144-147 | only the page changes, and the URL holds it exactly when it is past the first |
| UrlSync.ClearSearch | frontend/src/composables/useUrlSync.js:150-154 | the keyword is emptied and the page reset while the filter stays; the URL loses the keyword and page |
| UrlSync.ResetParams | frontend/src/composables/useUrlSync.js:157-162 | the state returns to its initial value and the URL loses exactly the three keys |
| UrlSync.Changed | frontend/src/composables/useUrlSync.js:57-68 | a key is reported only when the new URL holds it, with its new value; on the first run every present key is reported |
| UrlSync.OnUrlChange | frontend/src/composables/useUrlSync.js:114-127 | an unreported key leaves its field unchanged, and a reported page is parsed with default 1 |
| UrlSync.FirstRunIsInit | frontend/src/composables/useUrlSync.js:98-127 | the watcher's immediate first run over the initial state gives what initialisation from the URL gives |
| UrlSync.PageOfDefaults | frontend/src/composables/useUrlSync.js:101 | the default page text and an empty one both read as page 1 |
| UrlSync.SyncedUrlIsStable | frontend/src/composables/useUrlSync.js:105-127 | the watcher, seeing the URL a state synced to, leaves that state unchanged |
| UrlSync.SyncedValues | frontend/src/composables/useUrlSync.js:105-111 | every key the synced URL holds carries the state's own value, and a page only past the first |
| UrlSync.RemovedKeywordIsKept | frontend/src/composables/useUrlSync.js:57-68 | a keyword removed from the URL is not reported, so the search box keeps its text |
| JsText.TrimStart | frontend/src/utils/highlight.js:41-42 | the result is a suffix of the input that does not start with white space |
| JsText.LeadingDigits | frontend/src/composables/useUrlSync.js:101 | the count covers a prefix of digits and stops before a non-digit |
| JsText.ParseIntOfIntToString | frontend/src/composables/useUrlSync.js:27-101 | parsing the decimal text of any integer gives that integer back |
| JsValues.Or | frontend/src/router/guards.js:78 | the first operand when truthy, and the second otherwise |
| JsValues.Get | frontend/src/utils/format.js:22 | the value stored under a key, and undefined for a missing key |
| JsValues.Prop | frontend/src/stores/modules/certificate.js:119 | an object's property read, and undefined on anything that is not an object |
| JsValues.Spread | frontend/src/stores/modules/certificate.js:171 | the keys of both objects, the second object's value winning |
| JsValues.SpreadLaws | frontend/src/stores/modules/certificate.js:171 | spreading is associative, and spreading the same object again changes nothing |
| JsValues.Load | frontend/src/stores/modules/auth.js:10 | a stored value exactly when the key is stored, and that value |
| JsValues.FindIndex | frontend/src/stores/modules/certificate.js:119 | a found index holds a matching item and every earlier item does not match; a throw happens only at a null or undefined item |
| JsValues.Select | frontend/src/stores/modules/certificate.js:140 | the filter returns exactly when no item is null or undefined, and never more items than it was given |
| JsValues.SelectMembers | frontend/src/stores/modules/certificate.js:140 | an item is kept exactly when it is in the array and passes the test |
| JsValues.SelectConcat | frontend/src/stores/modules/certificate.js:140 | filtering distributes over concatenation, so the order of kept items is preserved |
| JsValues.SelectPartitions | frontend/src/stores/certificate.js:83-88 | the items kept by a test and the items kept by its negation together number the whole array |
| Text.IndexOf | frontend/src/utils/highlight.js:73 | -1 exactly when the text does not occur, and otherwise the first position where it occurs |
| Text.ToLower | frontend/src/utils/highlight.js:71-72 | the same length, each character folded on its own |

## Left out

- Persistence, controllers, the frontend API wrappers, route tables, Vue components and Spring wiring are plumbing. They appear only as abstract maps, effect traces or answers given as parameters.
- Logging is modelled only as effect events. Log-line cosmetics beyond the message texts are not modelled.
- Time rendering is not modelled: `SimpleDateFormat`, `toLocaleString`, time zones and DST. Dates print as their numbers (`DateText`), and every `now()` is a parameter.
- Timers are left out: the scheduler's `Thread.sleep` back-off, the auto-refresh and debounce composables, and the cron wrappers. The retry loop is modelled with the waiting removed.
- `monitorCertificateStatus` is left out because it only logs.
- The interleavings of concurrent store actions and of `Promise.all` are left out. Each action is one atomic step.
- The DOM part of the download helper is left out: creating the link, clicking it and revoking the object URL.
- The request id's random part is a parameter.
- `JSON.stringify` and `JSON.parse` are parameters of the system store's actions.
- The watcher's reactive scheduling is left out. `UrlSync.OnUrlChange` is the callback applied to one old/new query pair.
- Query values that are arrays or `null` in the router's query are not modelled. A query maps keys to strings.
- `progressGuard` and `progressDoneGuard` are left out because they only start and stop a progress bar.
- ConcurrentHashMap iteration order in the rule registry (AlertRuleConfigServiceImpl.java:29) is modelled as ascending rule id. Long keys hash by value, so small ids in a table of the default size iterate in that order; larger ids may not.
- EmailTemplates: variables are substituted in the order of the variable list, which stands in for the HashMap's iteration order.
- Behaviour that only tests assert is not modelled: 401 handling in the request client, `isExpired` and `logStatusChange`.
- The SQL of the repository queries is not modelled. The conditions each query builds, the sort mapping and the rows a status list selects are modelled; the paging the database performs is not.
- Repository.QueryConditions: leaves out the status-list condition of `findPageWithQuery`. `getEffectiveStatusList` is not part of this model.
- Errors.HttpStatusOf: treats every 4xx code as a status of its own. Spring's `HttpStatus.valueOf` throws for codes without a constant, and that framework code is not part of this model.
- JsValues.Fields: a spread copies nothing from arrays and strings. JavaScript would copy their indexed entries.
- CertificateStore.Minus1: the decremented total is undefined when the stored total is a string, an array, an object or undefined. JavaScript gives `NaN`, or a number for a numeric string, and `NaN` is not a value of the model.
- SystemStore.SetTheme: takes only string themes.
- SystemStore.SetLanguage: takes only string languages.
- SystemStore.SetSidebarCollapsed: takes only a boolean flag. JavaScript's `collapsed.toString()` throws TypeError on null or undefined, and that failure is not modelled.
- Text.ToLower: folds ASCII only and keeps the length. JavaScript's and Java's full Unicode case mapping is not modelled.
- Text.ToUpper: folds ASCII only and keeps the length, for the same reason.
- Highlight.HighlightText: takes a class name holding `$` replacement patterns literally. `String.prototype.replace` would expand them.
- FormatUtils.GetStatusType: treats keys that a plain object inherits from its prototype (such as `constructor`) as absent.
- FormatUtils.GetStatusText: treats inherited prototype keys as absent, as GetStatusType does.
- FormatUtils.GetLogTypeText: treats inherited prototype keys as absent, as GetStatusType does.
- CertificateService.NotFoundResponse: the source throws `new BusinessException("证书不存在")`, and BusinessException declares no constructor taking only a message. The model picks the constant whose message that is, CERTIFICATE_NOT_FOUND (code 10001). The 400 status and the code follow from that choice, not from the source.
- CertificateService.FilterMatches: models SQL `LIKE '%text%'` as literal, case-sensitive containment. MyBatis-Plus binds the text unescaped, so a `%` or `_` in it is a wildcard, and MySQL's default collation compares case- and accent-insensitively. The model's matches are a subset of the database's; rows that match only through a wildcard or a case difference are not promised.
- CertificateService.FindMatching: models SQL `LIKE '%text%'` as literal, case-sensitive containment. MyBatis-Plus binds the text unescaped, so a `%` or `_` in it is a wildcard, and MySQL's default collation compares case- and accent-insensitively. The model's matches are a subset of the database's; rows that match only through a wildcard or a case difference are not promised.
- CertificateService.FindMatchingSpec: models SQL `LIKE '%text%'` as literal, case-sensitive containment. MyBatis-Plus binds the text unescaped, so a `%` or `_` in it is a wildcard, and MySQL's default collation compares case- and accent-insensitively. The model's matches are a subset of the database's; rows that match only through a wildcard or a case difference are not promised.
- Repository.FilterConditionsSelect: models SQL `LIKE '%text%'` as literal, case-sensitive containment. MyBatis-Plus binds the text unescaped, so a `%` or `_` in it is a wildcard, and MySQL's default collation compares case- and accent-insensitively. The model's matches are a subset of the database's; rows that match only through a wildcard or a case difference are not promised.
- Repository.Selects: the same holds for the DomainLike and IssuerLike conditions, and for StatusEq under a case-insensitive collation.
- Numbers in the frontend: JavaScript numbers are doubles, and the model's numbers are unbounded integers. `String(n)` prints exponent form from 1e21 on, and `parseInt` rounds any value above 2^53. So these members are faithful only for pages and counts below 2^53:
  - UrlSync.PageOf: a page text of more than 15 digits parses to a rounded number in JavaScript.
  - UrlSync.SyncedEntries: a page of 2^53 or more is written and read back rounded, or in exponent form from 1e21 on.
  - UrlSync.SyncThenInit: the round trip from state to URL and back fails in JavaScript for such pages.
  - UrlSync.SyncedUrlIsStable: for such pages the watcher sees a different number and would change the state.
  - UrlSync.SyncedValues: the text the URL holds for such a page is not the page's decimal text.
  - JsText.ParseIntOfIntToString: holds for every integer in the model; in JavaScript only for safe integers below 2^53 in magnitude.
  - JsValues.ToJsString: prints every number in plain decimal; JavaScript switches to exponent form from 1e21 on.
- Strings are sequences of Unicode characters. Java's `length()`/`substring` and JavaScript's `.length`/`substring`/`indexOf` count UTF-16 code units. The two counts differ on text outside the Basic Multilingual Plane, and such text is not modelled faithfully by these members:
  - LogFormat.TruncateContent: Java's `substring(0, 70)` can split a surrogate pair.
  - LogFormat.IsContentValid: the 500 limit counts code units in Java.
  - Phones.MaskPhone: the length-11 test counts code units in Java.
  - Highlight.ExtractSnippet, Highlight.Truncate and Text.IndexOf: the snippet widths, cut positions and match positions count code units in JavaScript.
- Object identity and in-place mutation are not modelled. Each operation returns new values, and no alias of the caller's object is updated:
  - StatusService.BulkCalculateStatus: Java updates the caller's certificates in place through `peek(updateStatus)`. A null element, on which Java throws NullPointerException, cannot be expressed, because the list holds certificates and not optional ones.
  - Converters.ToDto: Java also updates the status of the certificate passed in (CertificateServiceConverter.java:52). The model returns only the DTO.
  - Repository.Save: Java also updates the status of the caller's object before saving it.
  - RuleRegistry.AddRule: the registry stores the caller's own AlertRule object, so later changes through either reference are shared. The same holds for RuleRegistry.UpdateRule and RuleRegistry.SetRuleEnabled.
  - EmailTemplates.GenerateDailySummaryContent: the lists hold certificates and not optional ones, so the NullPointerException that a null element causes in the Java loop cannot be expressed.

## Findings

| source | as written | input that shows it | evidently intended | confidence | as-written member | corrected member |
|---|---|---|---|---|---|---|
| backend/src/main/java/com/example/certificate/domain/model/AlertTriggerCondition.java:85-92 | the once-per-day limit blocks only when the last trigger is strictly after the start of today | a rule with a daily limit triggered at exactly 00:00 may trigger again at 10:00 the same day | a trigger at any moment of today, midnight included, blocks the rest of the day | not executed | TriggerConditions.MidnightTriggerNotLimited | TriggerConditions.OncePerDayHolds |
| frontend/src/utils/highlight.js:40-44 | keywords are highlighted one after another on the already marked text, so a later keyword can match inside the markup an earlier one inserted | text "x", query "x x", class name "x": the second pass marks the `x` of the class attribute, and stripping the tags gives `x">x` rather than "x" | every keyword is marked in one scan of the original text, so stripping the tags gives the text back | not executed | Highlight.SequentialMarkingBreaksMarkup | Highlight.SmartHighlightOnePass |
