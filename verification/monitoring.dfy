/** The monitoring service: one pass over a certificate logs its day count,
    corrects its status when the configured threshold says otherwise, and
    raises the alerts its rules call for; a pass over all certificates keeps
    going past individual failures.

    The monitoring log service and the certificate service are outside the
    model. Each call to them is recorded, and whether it throws is a
    parameter (`Faults`). The rule engine is `RuleEngine` over the enabled
    rules in `Context`, with a parameter for it throwing. */
module Monitoring {
  import opened Wrappers
  import opened Exceptions
  import opened Certificates
  import opened JavaInts
  import opened Text
  import opened AlertRules
  import RuleEngine

  /** The configured expiring-soon threshold, the current day, and the
      enabled rules the engine reads. */
  datatype Context = Context(threshold: int, today: int, enabledRules: seq<AlertRule>)

  /** Which collaborator calls throw during one certificate's pass. */
  datatype Faults = Faults(
    logResult: Option<Exception>,
    logChange: Option<Exception>,
    update: Option<Exception>,
    rules: Option<Exception>)

  const NoFaults: Faults := Faults(None, None, None, None)

  /** The calls a pass makes, in order. */
  datatype MonitorLog =
    | ResultLogged(certificate: Certificate, days: int)
    | StatusChangeLogged(certificate: Certificate, oldStatus: Option<Status>, newStatus: Status)
    | StatusUpdated(id: Option<int>, status: Status)
    | AlertRaised(certificate: Certificate, rule: AlertRule, days: int)

  datatype Run = Run(logs: seq<MonitorLog>, thrown: Option<Exception>)

  const MonitoringFailedCode: string := "CERTIFICATE_MONITORING_FAILED"

  /** `String.format("监控证书 %s (ID: %s) 时发生异常", name, id)`. */
  function FailureMessage(c: Certificate): string {
    "监控证书 " + Show(c.name) + " (ID: " + (if c.id.Some? then IntToString(c.id.value) else "null") + ") 时发生异常"
  }

  /** The MonitoringException a failed pass throws, wrapping the cause. */
  function Wrap(c: Certificate, cause: Exception): (e: Exception)
    ensures e.Monitoring? && e.errorCode == MonitoringFailedCode && e.cause == cause
    ensures StartsWith(e.message, "监控证书 ")
  {
    Monitoring(MonitoringFailedCode, FailureMessage(c), cause)
  }

  /** `calculateDaysUntilExpiry`: the long day count cast to int. */
  function LoggedDays(c: Certificate, today: int): (d: int)
    ensures IsInt(d)
    ensures IsInt(DaysUntilExpiry(c, today)) ==> d == DaysUntilExpiry(c, today)
  {
    NarrowToInt(DaysUntilExpiry(c, today))
  }

  /** Without an expiry date the day count Long.MAX_VALUE is logged as -1. */
  lemma NoExpiryLoggedAsMinusOne(c: Certificate, today: int)
    requires c.expiryDate.None?
    ensures LoggedDays(c, today) == -1
  {
    NarrowLongMax();
  }

  /** `checkCertificateStatusWithConfig`. */
  function ComputedStatus(c: Certificate, ctx: Context): (s: Status)
    ensures c.expiryDate.Some? ==> s == Classify(DaysUntilExpiry(c, ctx.today), ctx.threshold)
    ensures c.expiryDate.None? ==> s == Normal
  {
    ExpectedStatus(c, ctx.today, ctx.threshold)
  }

  predicate StatusChanged(c: Certificate, ctx: Context) {
    c.status != Some(ComputedStatus(c, ctx))
  }

  /** `evaluateAndSendAlerts`: when some rule fires, one alert per triggered
      rule in the engine's order; an exception from the engine is caught and
      ends the step without alerts. */
  function Alerts(c: Certificate, ctx: Context, fault: Option<Exception>): (r: seq<MonitorLog>)
    ensures fault.Some? ==> r == []
    ensures |r| > 0 ==> RuleEngine.EvaluateRules(Some(c), ctx.enabledRules, ctx.today)
    ensures forall i :: 0 <= i < |r| ==>
      r[i].AlertRaised? && r[i].certificate == c && r[i].rule in ctx.enabledRules &&
      RuleEngine.Fires(Some(c), ctx.today, r[i].rule)
  {
    if fault.Some? || !RuleEngine.EvaluateRules(Some(c), ctx.enabledRules, ctx.today) then []
    else
      var rules := RuleEngine.GetTriggeredRules(Some(c), ctx.enabledRules, ctx.today);
      var days := RuleEngine.CalculateDaysUntilExpiry(Some(c), ctx.today);
      seq(|rules|, i requires 0 <= i < |rules| => AlertRaised(c, rules[i], days))
  }

  /** The status-change entry and the update a pass writes before the
      alerts: none when the stored status is already the computed one. */
  function StatusLogs(c: Certificate, ctx: Context): (r: seq<MonitorLog>)
    ensures !StatusChanged(c, ctx) ==> r == []
    ensures StatusChanged(c, ctx) ==>
      |r| == 2 && r[0].StatusChangeLogged? && r[0].oldStatus == c.status &&
      r[0].newStatus == ComputedStatus(c, ctx) && r[1] == StatusUpdated(c.id, ComputedStatus(c, ctx))
  {
    if StatusChanged(c, ctx) then [StatusChangeLogged(c, c.status, ComputedStatus(c, ctx)), StatusUpdated(c.id, ComputedStatus(c, ctx))]
    else []
  }

  /** The first collaborator fault a pass runs into. */
  function FirstFault(c: Certificate, ctx: Context, f: Faults): Option<Exception> {
    if f.logResult.Some? then f.logResult
    else if StatusChanged(c, ctx) && f.logChange.Some? then f.logChange
    else if StatusChanged(c, ctx) then f.update
    else None
  }

  /** `monitorCertificate(certificate)`. Reading the name of a null
      certificate for the debug line happens before the try block, so that
      NullPointerException escapes unwrapped. Inside, a failing log or update
      call ends the pass with a MonitoringException around it. */
  function MonitorCertificate(c: Option<Certificate>, ctx: Context, f: Faults): (r: Run)
    ensures c.None? ==> r == Run([], Some(NullPointer))
    ensures c.Some? ==>
      (r.thrown.None? <==> f.logResult.None? && (StatusChanged(c.value, ctx) ==> f.logChange.None? && f.update.None?))
    ensures c.Some? && r.thrown.Some? ==>
      FirstFault(c.value, ctx, f).Some? && r.thrown == Some(Wrap(c.value, FirstFault(c.value, ctx, f).value))
    ensures c.Some? && r.thrown.None? ==>
      r.logs == [ResultLogged(c.value, LoggedDays(c.value, ctx.today))] + StatusLogs(c.value, ctx) + Alerts(c.value, ctx, f.rules)
  {
    if c.None? then Run([], Some(NullPointer))
    else
      var cert := c.value;
      var logged := [ResultLogged(cert, LoggedDays(cert, ctx.today))];
      if f.logResult.Some? then Run([], Some(Wrap(cert, f.logResult.value)))
      else if StatusChanged(cert, ctx) && f.logChange.Some? then Run(logged, Some(Wrap(cert, f.logChange.value)))
      else if StatusChanged(cert, ctx) && f.update.Some? then Run(logged + [StatusLogs(cert, ctx)[0]], Some(Wrap(cert, f.update.value)))
      else Run(logged + StatusLogs(cert, ctx) + Alerts(cert, ctx, f.rules), None)
  }

  // ---------------------------------------------------------------------------
  // Properties of one pass
  // ---------------------------------------------------------------------------

  predicate IsStatusUpdate(l: MonitorLog) { l.StatusUpdated? }
  predicate IsStatusChange(l: MonitorLog) { l.StatusChangeLogged? }

  /** A successful pass writes a status-change entry and then an update
      exactly when the computed status differs from the stored one, and these
      carry the old and the new status. */
  lemma UpdateIffChanged(c: Certificate, ctx: Context, f: Faults)
    requires MonitorCertificate(Some(c), ctx, f).thrown.None?
    ensures var logs := MonitorCertificate(Some(c), ctx, f).logs;
      StatusChanged(c, ctx) ==>
        |logs| >= 3 && logs[1] == StatusChangeLogged(c, c.status, ComputedStatus(c, ctx)) &&
        logs[2] == StatusUpdated(c.id, ComputedStatus(c, ctx))
    ensures var logs := MonitorCertificate(Some(c), ctx, f).logs;
      !StatusChanged(c, ctx) ==> forall i :: 0 <= i < |logs| ==> !IsStatusUpdate(logs[i]) && !IsStatusChange(logs[i])
  {
    var logs := MonitorCertificate(Some(c), ctx, f).logs;
    if !StatusChanged(c, ctx) {
      var a := Alerts(c, ctx, f.rules);
      assert logs == [ResultLogged(c, LoggedDays(c, ctx.today))] + a;
      forall i | 0 <= i < |logs| ensures !IsStatusUpdate(logs[i]) && !IsStatusChange(logs[i]) {
        if i > 0 { assert logs[i] == a[i - 1]; }
      }
    }
  }

  /** The status an update entry writes back, if any. */
  function WrittenStatus(logs: seq<MonitorLog>, stored: Option<Status>): Option<Status>
    decreases |logs|
  {
    if |logs| == 0 then stored
    else if logs[|logs| - 1].StatusUpdated? then Some(logs[|logs| - 1].status)
    else WrittenStatus(logs[..|logs| - 1], stored)
  }

  /** After a successful pass the certificate, with the status written back,
      is consistent with the threshold rule. */
  lemma {:induction false} PassRestoresConsistency(c: Certificate, ctx: Context, f: Faults)
    requires MonitorCertificate(Some(c), ctx, f).thrown.None?
    ensures StatusConsistent(c.(status := WrittenStatus(MonitorCertificate(Some(c), ctx, f).logs, c.status)), ctx.today, ctx.threshold)
  {
    var logs := MonitorCertificate(Some(c), ctx, f).logs;
    var prefix := [ResultLogged(c, LoggedDays(c, ctx.today))] + StatusLogs(c, ctx);
    var a := Alerts(c, ctx, f.rules);
    assert logs == prefix + a;
    WrittenAfterAlerts(prefix, a, c.status);
    if StatusChanged(c, ctx) {
      assert prefix[..|prefix| - 1][..1] == prefix[..1];
    }
  }

  /** Alert entries after a prefix leave the written status as the prefix
      left it. */
  lemma {:induction false} WrittenAfterAlerts(prefix: seq<MonitorLog>, a: seq<MonitorLog>, stored: Option<Status>)
    requires forall i :: 0 <= i < |a| ==> a[i].AlertRaised?
    ensures WrittenStatus(prefix + a, stored) == WrittenStatus(prefix, stored)
    decreases |a|
  {
    if |a| > 0 {
      var all := prefix + a;
      assert all[..|all| - 1] == prefix + a[..|a| - 1];
      WrittenAfterAlerts(prefix, a[..|a| - 1], stored);
    } else {
      assert prefix + a == prefix;
    }
  }

  /** A second pass over the corrected certificate changes no status. */
  lemma SecondPassNoChange(c: Certificate, ctx: Context)
    ensures !StatusChanged(c.(status := Some(ComputedStatus(c, ctx))), ctx)
  {
  }

  /** Whatever the rule engine does, including throwing, the pass succeeds or
      fails exactly as it would otherwise: rule errors never fail monitoring. */
  lemma RuleFaultsSwallowed(c: Option<Certificate>, ctx: Context, f: Faults, e: Option<Exception>)
    ensures MonitorCertificate(c, ctx, f.(rules := e)).thrown == MonitorCertificate(c, ctx, f).thrown
  {
  }

  /** Without collaborator faults a non-null certificate is always monitored
      successfully. */
  lemma NoFaultsSucceeds(c: Certificate, ctx: Context)
    ensures MonitorCertificate(Some(c), ctx, NoFaults).thrown.None?
  {
  }

  // ---------------------------------------------------------------------------
  // monitorAllCertificates
  // ---------------------------------------------------------------------------

  function FaultsAt(faults: seq<Faults>, i: nat): Faults {
    if i < |faults| then faults[i] else NoFaults
  }

  /** The pass over certificate `i`. */
  function Pass(certs: seq<Option<Certificate>>, ctx: Context, faults: seq<Faults>, i: nat): Run
    requires i < |certs|
  {
    MonitorCertificate(certs[i], ctx, FaultsAt(faults, i))
  }

  /** How many of the first `n` passes succeed. */
  function Succeeded(certs: seq<Option<Certificate>>, ctx: Context, faults: seq<Faults>, n: nat): (k: nat)
    requires n <= |certs|
    ensures k <= n
  {
    if n == 0 then 0
    else Succeeded(certs, ctx, faults, n - 1) + (if Pass(certs, ctx, faults, n - 1).thrown.None? then 1 else 0)
  }

  /** The entries written by the first `n` passes, in order. */
  function LogsUpTo(certs: seq<Option<Certificate>>, ctx: Context, faults: seq<Faults>, n: nat): seq<MonitorLog>
    requires n <= |certs|
  {
    if n == 0 then [] else LogsUpTo(certs, ctx, faults, n - 1) + Pass(certs, ctx, faults, n - 1).logs
  }

  /** `logs` and `success` are what the first `n` passes wrote and how many
      of them succeeded. */
  predicate Tallied(certs: seq<Option<Certificate>>, ctx: Context, faults: seq<Faults>, n: nat,
                    logs: seq<MonitorLog>, success: nat)
    requires n <= |certs|
  {
    success == Succeeded(certs, ctx, faults, n) && logs == LogsUpTo(certs, ctx, faults, n)
  }

  /** `monitorAllCertificates()` over the repository's `findAll()` list. Each
      failure is caught and counted, and the loop goes on; but the catch block
      reads the certificate's name for its log line, so a null entry throws
      out of the loop. */
  method MonitorAll(certs: seq<Option<Certificate>>, ctx: Context, faults: seq<Faults>)
    returns (logs: seq<MonitorLog>, success: nat, failure: nat, thrown: Option<Exception>)
    ensures thrown.Some? <==> None in certs
    ensures thrown.Some? ==> thrown.value == NullPointer
    ensures thrown.None? ==> success + failure == |certs|
    ensures thrown.None? ==> success == Succeeded(certs, ctx, faults, |certs|)
    ensures thrown.None? ==> logs == LogsUpTo(certs, ctx, faults, |certs|)
    ensures thrown.None? ==> forall i :: 0 <= i < |certs| && FaultsAt(faults, i) == NoFaults ==> Pass(certs, ctx, faults, i).thrown.None?
  {
    logs, success, failure, thrown := [], 0, 0, None;
    var i := 0;
    while i < |certs| && certs[i].Some?
      invariant 0 <= i <= |certs|
      invariant success + failure == i
      invariant Tallied(certs, ctx, faults, i, logs, success)
      invariant None !in certs[..i]
    {
      assert certs[..i + 1] == certs[..i] + [certs[i]];
      logs, success, failure := PassStep(certs, ctx, faults, i, logs, success, failure);
      i := i + 1;
    }
    if i < |certs| {
      thrown := Some(NullPointer);
    } else {
      assert certs[..i] == certs;
      FaultFreePassesSucceed(certs, ctx, faults);
    }
  }

  /** One turn of the loop: the entries of pass `i` appended, and the pass
      counted as a success or a failure. */
  method PassStep(certs: seq<Option<Certificate>>, ctx: Context, faults: seq<Faults>, i: nat,
                  logs: seq<MonitorLog>, success: nat, failure: nat)
    returns (logs': seq<MonitorLog>, success': nat, failure': nat)
    requires i < |certs|
    requires Tallied(certs, ctx, faults, i, logs, success)
    ensures Tallied(certs, ctx, faults, i + 1, logs', success')
    ensures success' + failure' == success + failure + 1
  {
    var run := Pass(certs, ctx, faults, i);
    logs' := logs + run.logs;
    if run.thrown.None? {
      success', failure' := success + 1, failure;
    } else {
      success', failure' := success, failure + 1;
    }
  }

  /** Every pass over a certificate without collaborator faults succeeds. */
  lemma FaultFreePassesSucceed(certs: seq<Option<Certificate>>, ctx: Context, faults: seq<Faults>)
    requires None !in certs
    ensures forall i :: 0 <= i < |certs| && FaultsAt(faults, i) == NoFaults ==> Pass(certs, ctx, faults, i).thrown.None?
  {
    forall j | 0 <= j < |certs| && FaultsAt(faults, j) == NoFaults ensures Pass(certs, ctx, faults, j).thrown.None? {
      assert certs[j] in certs;
      NoFaultsSucceeds(certs[j].value, ctx);
    }
  }
}
