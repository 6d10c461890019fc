/** The MVP alert service: which day counts warrant an alert, and the two
    alert log entries (e-mail, then SMS) written for a certificate. The
    monitoring log service that receives the entries lies outside the model:
    each call is recorded, and whether it throws is a parameter. */
module AlertService {
  import opened Wrappers
  import opened Exceptions
  import opened Certificates
  import opened AlertRules
  import RuleRegistry
  import AlertTypes

  /** `shouldSendAlert(daysUntilExpiry)`. */
  function ShouldSendAlert(d: int): (b: bool)
    ensures b ==> 1 <= d <= 30
    ensures d <= 0 ==> !b
  {
    d == 30 || d == 15 || d == 7 || d == 1
  }

  /** The alert days are exactly the `daysBefore` of the four built-in rules. */
  lemma ShouldSendMatchesDefaultRules(d: int, now: int)
    ensures ShouldSendAlert(d) <==> exists i :: 0 <= i < |RuleRegistry.DefaultRules(now)| && RuleRegistry.DefaultRules(now)[i].daysBefore == Some(d)
  {
    var rules := RuleRegistry.DefaultRules(now);
    assert rules[0].daysBefore == Some(30) && rules[1].daysBefore == Some(15);
    assert rules[2].daysBefore == Some(7) && rules[3].daysBefore == Some(1);
  }

  /** On an alert day the alert type is the band named after that very day,
      and that name is the name of the built-in rule for the day. */
  lemma AlertDaysNameTheirBand(d: int, now: int)
    requires ShouldSendAlert(d)
    ensures exists i :: 0 <= i < |RuleRegistry.DefaultRules(now)| && RuleRegistry.DefaultRules(now)[i].daysBefore == Some(d) &&
                        RuleRegistry.DefaultRules(now)[i].name == Some(AlertTypes.AlertTypeOf(d))
  {
    var rules := RuleRegistry.DefaultRules(now);
    if d == 30 { assert rules[0].name == Some(AlertTypes.AlertTypeOf(d)); }
    else if d == 15 { assert rules[1].name == Some(AlertTypes.AlertTypeOf(d)); }
    else if d == 7 { assert rules[2].name == Some(AlertTypes.AlertTypeOf(d)); }
    else { assert rules[3].name == Some(AlertTypes.AlertTypeOf(d)); }
  }

  /** One `logCertificateAlert(certificate, channel)` call. */
  datatype AlertLog = AlertLog(certificate: Certificate, channel: string)

  /** What a call did before it returned or threw. */
  datatype Run = Run(logs: seq<AlertLog>, thrown: Option<Exception>)

  /** `sendAlert(certificate)`: the day count is read first, so a null
      certificate throws before anything is logged; then the e-mail entry and
      the SMS entry, each of which may throw and end the call. The call does
      not consult `shouldSendAlert`. */
  function SendAlert(c: Option<Certificate>, emailFault: Option<Exception>, smsFault: Option<Exception>): (r: Run)
    ensures r.thrown.None? <==> c.Some? && emailFault.None? && smsFault.None?
    ensures c.None? ==> r == Run([], Some(NullPointer))
    ensures c.Some? ==> r.logs <= [AlertLog(c.value, "EMAIL"), AlertLog(c.value, "SMS")]
    ensures c.Some? && emailFault.Some? ==> r == Run([], emailFault)
    ensures c.Some? && emailFault.None? ==> (|r.logs| == 2 <==> smsFault.None?)
    ensures r.thrown.Some? && c.Some? ==> r.thrown == emailFault || r.thrown == smsFault
  {
    if c.None? then Run([], Some(NullPointer))
    else if emailFault.Some? then Run([], emailFault)
    else if smsFault.Some? then Run([AlertLog(c.value, "EMAIL")], smsFault)
    else Run([AlertLog(c.value, "EMAIL"), AlertLog(c.value, "SMS")], None)
  }

  /** A certificate gets both entries whatever its day count: an expired one,
      or one far from expiry, is logged just the same. */
  lemma SendAlertUngated(c: Certificate, today: int)
    requires !ShouldSendAlert(DaysUntilExpiry(c, today))
    ensures SendAlert(Some(c), None, None).logs == [AlertLog(c, "EMAIL"), AlertLog(c, "SMS")]
  {
  }
}
