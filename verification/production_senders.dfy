/** The "real"-mode SMS and e-mail senders. No provider is wired in yet: every
    send fails with NOT_IMPLEMENTED. The only way a call does anything else is
    a null certificate, whose name is read for the log line and throws. */
module ProductionSenders {
  import opened Wrappers
  import opened Exceptions
  import opened Certificates
  import opened JavaInts
  import opened SendResults

  const NotImplementedCode: string := "NOT_IMPLEMENTED"

  function NotImplementedMessage(ch: Channel): string {
    match ch
    case Sms => "生产环境短信服务尚未实现短信发送功能"
    case Email => "生产环境邮件服务尚未实现SMTP发送功能"
  }

  /** The one result every call returns. */
  function NotImplemented(ch: Channel, recipient: Option<string>, now: Instant): (r: SendResult)
    ensures IsFailure(r) && HasError(r) && r.channel == ch && r.recipient == recipient
    ensures r.message == Some(FailureMessage(ch))
    ensures r.errorCode == Some(NotImplementedCode) && r.errorMessage == Some(NotImplementedMessage(ch))
  {
    SendResults.Failure(ch, Some(NotImplementedMessage(ch)), Some(NotImplementedCode), recipient, None, now)
  }

  /** `sendExpiryAlertSms` / `sendExpiryAlertEmail`. */
  function SendExpiryAlert(ch: Channel, c: Option<Certificate>, d: int, recipient: Option<string>, now: Instant)
    : (r: Result<SendResult, Exception>)
    ensures r.Err? <==> c.None?
    ensures r.Err? ==> r.error == NullPointer
    ensures r.Ok? ==> IsFailure(r.value) && r.value.recipient == recipient && r.value.errorCode == Some(NotImplementedCode)
  {
    if c.None? then Err(NullPointer) else Ok(NotImplemented(ch, recipient, now))
  }

  /** The outcome does not depend on the day count. */
  lemma ExpiryAlertIgnoresDays(ch: Channel, c: Option<Certificate>, d1: int, d2: int, recipient: Option<string>, now: Instant)
    ensures SendExpiryAlert(ch, c, d1, recipient, now) == SendExpiryAlert(ch, c, d2, recipient, now)
  {
  }

  /** `sendDailySummary`: only the two list sizes are read. */
  function SendDailySummary(ch: Channel, soon: seq<Option<Certificate>>, expired: seq<Option<Certificate>>,
                            recipient: Option<string>, now: Instant): (r: SendResult)
    ensures IsFailure(r) && r.channel == ch && r.recipient == recipient
    ensures r.errorCode == Some(NotImplementedCode) && r.errorMessage == Some(NotImplementedMessage(ch))
  {
    NotImplemented(ch, recipient, now)
  }

  /** `sendBatchAlerts`: one result per certificate. The day count of a null
      certificate throws out of the loop, so the whole call throws. */
  function SendBatchAlerts(ch: Channel, certs: seq<Option<Certificate>>, recipient: Option<string>, today: int, now: Instant)
    : (r: Result<seq<SendResult>, Exception>)
    ensures r.Err? <==> exists i :: 0 <= i < |certs| && certs[i].None?
    ensures r.Ok? ==> |r.value| == |certs| && forall i :: 0 <= i < |certs| ==> r.value[i] == NotImplemented(ch, recipient, now)
    decreases |certs|
  {
    if |certs| == 0 then Ok([])
    else if certs[0].None? then Err(NullPointer)
    else
      var first := SendExpiryAlert(ch, certs[0], NarrowToInt(DaysUntilExpiry(certs[0].value, today)), recipient, now);
      match SendBatchAlerts(ch, certs[1..], recipient, today, now)
      case Err(e) =>
        assert exists i :: 0 <= i < |certs[1..]| && certs[1..][i].None?;
        Err(e)
      case Ok(rest) =>
        assert forall i :: 1 <= i < |certs| ==> certs[i] == certs[1..][i - 1];
        Ok([first.value] + rest)
  }
}
