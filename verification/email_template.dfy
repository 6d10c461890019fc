/** E-mail subject and body generation: a configured template with `{name}`
    variables, or the built-in text when no template is configured. */
module EmailTemplates {
  import opened Wrappers
  import opened Text
  import opened Exceptions
  import opened Certificates
  import opened JavaFormat
  import opened Placeholders
  import AlertTypes
  import Configs

  datatype EmailContent = EmailContent(subject: string, content: string, htmlEnabled: bool)

  /** A present field, or its fixed stand-in when null. */
  function OrElse(s: Option<string>, fallback: string): (r: string)
    ensures s.Some? ==> r == s.value
    ensures s.None? ==> r == fallback
  {
    if s.Some? then s.value else fallback
  }

  const UnknownName: string := "未知证书"
  const UnknownDomain: string := "未知域名"
  const UnknownIssuer: string := "未知颁发机构"
  const UnknownDate: string := "未知日期"
  const UnknownStatus: string := "未知状态"
  const UnknownType: string := "未知类型"

  /** A null date is shown as the unknown-date text instead of being formatted. */
  function DateOrUnknown(t: Option<int>): string {
    if t.Some? then DateText(t.value) else UnknownDate
  }

  /** The names of an expiry alert's variables, in the order they are put. */
  const ExpiryKeys: seq<string> := ["certificateName", "domain", "issuer", "expiryDate", "issueDate",
    "daysUntilExpiry", "alertType", "status", "certificateType", "currentDate", "currentDateOnly"]

  /** No variable name holds a brace. */
  lemma ExpiryKeysHaveNoBraces()
    ensures forall k :: k in ExpiryKeys ==> NoBraces(k)
  {
    assert NoBraces("certificateName") && NoBraces("domain") && NoBraces("issuer") && NoBraces("expiryDate");
    assert NoBraces("issueDate") && NoBraces("daysUntilExpiry") && NoBraces("alertType") && NoBraces("status");
    assert NoBraces("certificateType") && NoBraces("currentDate") && NoBraces("currentDateOnly");
  }

  /** The variables of an expiry alert. */
  function ExpiryVariables(c: Certificate, d: int, now: int): (vars: Variables)
    ensures |vars| == |ExpiryKeys| && forall i :: 0 <= i < |vars| ==> vars[i].0 == ExpiryKeys[i]
    ensures vars[0].1 == Some(OrElse(c.name, UnknownName))
  {
    var values := [OrElse(c.name, UnknownName), OrElse(c.domain, UnknownDomain), OrElse(c.issuer, UnknownIssuer),
      DateOrUnknown(c.expiryDate), DateOrUnknown(c.issueDate), Num(d), AlertTypes.AlertTypeOf(d),
      if c.status.Some? then StatusName(c.status.value) else UnknownStatus,
      OrElse(c.certificateType, UnknownType), DateText(now), DateText(now)];
    seq(|ExpiryKeys|, i requires 0 <= i < |ExpiryKeys| => (ExpiryKeys[i], Some(values[i])))
  }

  /** The built-in expiry alert. */
  function DefaultExpiryAlert(c: Certificate, d: int, now: int): (e: EmailContent)
    ensures !e.htmlEnabled
    ensures e.subject == "🚨 证书即将过期预警 - " + OrElse(c.name, UnknownName)
    ensures Contains(e.content, "证书名称：" + OrElse(c.name, UnknownName) + "\n")
    ensures Contains(e.content, "证书域名：" + OrElse(c.domain, UnknownDomain) + "\n")
    ensures Contains(e.content, "剩余天数：" + Num(d) + "天\n")
    ensures Contains(e.content, "预警类型：" + AlertTypes.AlertTypeOf(d) + "\n")
  {
    var parts := ["尊敬的管理员，\n\n" + "证书预警通知：\n\n",
                  "证书名称：" + OrElse(c.name, UnknownName) + "\n",
                  "证书域名：" + OrElse(c.domain, UnknownDomain) + "\n",
                  "颁发机构：" + OrElse(c.issuer, UnknownIssuer) + "\n",
                  "证书类型：" + OrElse(c.certificateType, UnknownType) + "\n",
                  "到期日期：" + DateOrUnknown(c.expiryDate) + "\n",
                  "剩余天数：" + Num(d) + "天\n",
                  "预警类型：" + AlertTypes.AlertTypeOf(d) + "\n",
                  "\n请及时处理证书续期事宜。\n\n" + "此邮件由证书生命周期管理系统自动发送。\n" + "发送时间：" + DateText(now)];
    ConcatContains(parts, 1);
    ConcatContains(parts, 2);
    ConcatContains(parts, 6);
    ConcatContains(parts, 7);
    EmailContent("🚨 证书即将过期预警 - " + OrElse(c.name, UnknownName), Concat(parts), false)
  }

  /** `generateExpiryAlertContent(certificate, daysUntilExpiry, templateConfig)`. */
  function GenerateExpiryAlertContent(c: Option<Certificate>, d: int, cfg: Option<Configs.EmailTemplateConfig>, now: int)
    : (r: Result<EmailContent, Exception>)
    ensures c.None? <==> r.Err?
    ensures r.Err? ==> r.error == NullPointer
    ensures c.Some? && cfg.None? ==> r == Ok(DefaultExpiryAlert(c.value, d, now))
    ensures c.Some? && cfg.Some? ==>
      r.value.htmlEnabled == cfg.value.htmlEnabled &&
      NoPlaceholder(r.value.subject) && NoPlaceholder(r.value.content) &&
      (cfg.value.subject.None? ==> r.value.subject == "") &&
      (cfg.value.contentTemplate.None? ==> r.value.content == "")
  {
    if c.None? then Err(NullPointer)
    else if cfg.None? then Ok(DefaultExpiryAlert(c.value, d, now))
    else
      var vars := ExpiryVariables(c.value, d, now);
      Ok(EmailContent(ReplaceVariables(cfg.value.subject, vars),
                      ReplaceVariables(cfg.value.contentTemplate, vars),
                      cfg.value.htmlEnabled))
  }

  /** A configured `{certificateName}` shows the name, or the unknown-name
      text for a certificate without one; the rest of the template is kept. */
  lemma ConfiguredNameFallback(c: Certificate, d: int, now: int, a: string, b: string, html: bool)
    requires NoBraces(a) && NoBraces(b) && NoBraces(OrElse(c.name, UnknownName))
    ensures var cfg := Configs.EmailTemplateConfig(Some(a + Placeholder("certificateName") + b), None, None, html);
      GenerateExpiryAlertContent(Some(c), d, Some(cfg), now).value.subject == a + OrElse(c.name, UnknownName) + b
  {
    var vars := ExpiryVariables(c, d, now);
    assert vars == [("certificateName", Some(OrElse(c.name, UnknownName)))] + vars[1..];
    SubstituteKnown(a, "certificateName", OrElse(c.name, UnknownName), b, vars[1..]);
  }

  /** A configured placeholder the alert does not define is deleted. */
  lemma ConfiguredUnknownVariableDeleted(c: Certificate, d: int, now: int, a: string, name: string, b: string)
    requires NoBraces(a) && NoBraces(name) && NoBraces(b) && name !in ExpiryKeys
    ensures var cfg := Configs.EmailTemplateConfig(None, None, Some(a + Placeholder(name) + b), false);
      GenerateExpiryAlertContent(Some(c), d, Some(cfg), now).value.content == a + b
  {
    var vars := ExpiryVariables(c, d, now);
    ExpiryKeysHaveNoBraces();
    forall v | v in vars ensures NoBraces(v.0) && v.0 != name {
      var i :| 0 <= i < |vars| && vars[i] == v;
      assert v.0 == ExpiryKeys[i];
    }
    SubstituteUnknown(a, name, b, vars);
  }

  // ---------------------------------------------------------------------------
  // Daily summary
  // ---------------------------------------------------------------------------

  /** `cert.getDaysUntilExpiry()` as of `today`. */
  function Days(c: Certificate, today: int): int {
    DaysUntilExpiry(c, today)
  }

  function Abs(x: int): nat {
    if x < 0 then -x else x
  }

  /** One line per expiring certificate: name, domain and days left. */
  function ExpiringLines(certs: seq<Certificate>, today: int): (s: string)
    decreases |certs|
  {
    if |certs| == 0 then ""
    else "- " + Str(certs[0].name) + " (" + Str(certs[0].domain) + ") - 剩余" + Num(Days(certs[0], today)) + "天\n"
         + ExpiringLines(certs[1..], today)
  }

  /** One line per expired certificate: name, domain and days past expiry. */
  function ExpiredLines(certs: seq<Certificate>, today: int): (s: string)
    decreases |certs|
  {
    if |certs| == 0 then ""
    else "- " + Str(certs[0].name) + " (" + Str(certs[0].domain) + ") - 已过期" + Num(Abs(Days(certs[0], today))) + "天\n"
         + ExpiredLines(certs[1..], today)
  }

  /** The variables of a daily summary, in the order they are put. */
  function SummaryVariables(soon: seq<Certificate>, expired: seq<Certificate>, today: int, now: int): Variables
  {
    [("expiringSoonCount", Some(Num(|soon|))),
     ("expiredCount", Some(Num(|expired|))),
     ("currentDate", Some(DateText(today))),
     ("currentDateTime", Some(DateText(now))),
     ("expiringSoonDetails", Some(ExpiringLines(soon, today))),
     ("expiredDetails", Some(ExpiredLines(expired, today)))]
  }

  const SummaryHeader: string := "证书状态每日摘要报告\n\n"

  /** The built-in daily summary: both counts, then a details section for each
      non-empty list. */
  function DefaultDailySummary(soon: seq<Certificate>, expired: seq<Certificate>, today: int, now: int): (e: EmailContent)
    ensures !e.htmlEnabled
    ensures e.subject == "📊 证书状态每日摘要 - " + DateText(today)
    ensures StartsWith(e.content, SummaryHeader)
    ensures Contains(e.content, "即将过期证书：" + Num(|soon|) + "个")
    ensures Contains(e.content, "已过期证书：" + Num(|expired|) + "个")
    ensures |soon| > 0 ==> Contains(e.content, "即将过期的证书详情：\n" + ExpiringLines(soon, today))
    ensures |expired| > 0 ==> Contains(e.content, "已过期的证书详情：\n" + ExpiredLines(expired, today))
  {
    var soonCount := "即将过期证书：" + Num(|soon|) + "个";
    var expiredCount := "已过期证书：" + Num(|expired|) + "个";
    var soonDetails := if |soon| > 0 then "即将过期的证书详情：\n" + ExpiringLines(soon, today) else "";
    var expiredDetails := if |expired| > 0 then "已过期的证书详情：\n" + ExpiredLines(expired, today) else "";
    var footer := "详细信息请查看系统管理界面。\n\n" + "此邮件由证书生命周期管理系统自动发送。\n" + "发送时间：" + DateText(now);
    var parts := [SummaryHeader, soonCount, "\n", expiredCount, "\n\n",
                  soonDetails, if |soon| > 0 then "\n" else "",
                  expiredDetails, if |expired| > 0 then "\n" else "",
                  footer];
    TenParts(parts);
    EmailContent("📊 证书状态每日摘要 - " + DateText(today), Concat(parts), false)
  }

  /** `generateDailySummaryContent(expiringSoon, expired, templateConfig)`. */
  function GenerateDailySummaryContent(soon: seq<Certificate>, expired: seq<Certificate>,
                                       cfg: Option<Configs.EmailTemplateConfig>, today: int, now: int): (e: EmailContent)
    ensures cfg.None? ==> e == DefaultDailySummary(soon, expired, today, now)
    ensures cfg.Some? ==>
      e.htmlEnabled == cfg.value.htmlEnabled && NoPlaceholder(e.subject) && NoPlaceholder(e.content)
  {
    if cfg.None? then DefaultDailySummary(soon, expired, today, now)
    else
      var vars := SummaryVariables(soon, expired, today, now);
      EmailContent(ReplaceVariables(cfg.value.subject, vars),
                   ReplaceVariables(cfg.value.contentTemplate, vars),
                   cfg.value.htmlEnabled)
  }

  /** A configured `{expiringSoonCount}` shows the size of the first list. */
  lemma ConfiguredSummaryCount(soon: seq<Certificate>, expired: seq<Certificate>, today: int, now: int, a: string, b: string)
    requires NoBraces(a) && NoBraces(b)
    ensures var cfg := Configs.EmailTemplateConfig(Some(a + Placeholder("expiringSoonCount") + b), None, None, false);
      GenerateDailySummaryContent(soon, expired, Some(cfg), today, now).subject == a + Num(|soon|) + b
  {
    var vars := SummaryVariables(soon, expired, today, now);
    assert vars == [("expiringSoonCount", Some(Num(|soon|)))] + vars[1..];
    assert NoBraces(Num(|soon|)) by {
      forall i | 0 <= i < |Num(|soon|)| ensures Num(|soon|)[i] != '{' && Num(|soon|)[i] != '}' {
        assert IsDigit(NatToString(|soon|)[i]);
      }
    }
    SubstituteKnown(a, "expiringSoonCount", Num(|soon|), b, vars[1..]);
  }

  /** The built-in alert labels the test day counts with the expected types. */
  lemma AlertTypeScenarios()
    ensures AlertTypes.AlertTypeOf(-5) == "已过期预警" && AlertTypes.AlertTypeOf(0) == "已过期预警"
    ensures AlertTypes.AlertTypeOf(1) == "1天预警" && AlertTypes.AlertTypeOf(7) == "7天预警"
    ensures AlertTypes.AlertTypeOf(15) == "15天预警" && AlertTypes.AlertTypeOf(30) == "30天预警"
    ensures AlertTypes.AlertTypeOf(60) == "常规监控"
  {
  }
}
