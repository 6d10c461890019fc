/** The log-mode SMS and e-mail senders: instead of sending, they format the
    notification into log lines and ask the monitoring-log service to record
    it. Both senders run the same steps; the SMS sender alone checks the phone
    number and renders (and if need be truncates) the SMS text. The
    monitoring-log service is outside the model: `logFault` says whether its
    call throws, and a successful call is recorded as a `LogEffect`. */
module LogSenders {
  import opened Wrappers
  import opened Text
  import opened Exceptions
  import opened Certificates
  import opened JavaInts
  import opened SendResults
  import LogFormat
  import Phones
  import opened SeqLaws

  /** A record written through the monitoring-log service. */
  datatype LogEffect =
    | AlertLogged(channel: Channel, certificate: Certificate, days: int, recipient: Option<string>)
    | SummaryLogged(channel: Channel, expiringSoon: seq<Option<Certificate>>,
                    expired: seq<Option<Certificate>>, recipient: Option<string>)

  /** One call's result, the records it wrote, and the SMS text it logged. */
  datatype Sent = Sent(result: SendResult, effects: seq<LogEffect>, smsContent: Option<string>)

  const PhoneInvalidCode: string := "PHONE_INVALID"
  const LogSummaryFailedCode: string := "LOG_SUMMARY_FAILED"

  const PhoneInvalidPrefix: string := "手机号格式不正确: "
  const InternalErrorPrefix: string := "系统内部错误: "
  const SummaryFailedPrefix: string := "每日摘要记录失败: "
  const SummarySuccessMessage: string := "每日摘要已记录 (MVP模式)"

  function LogFailedCode(ch: Channel): string {
    match ch
    case Sms => "LOG_SMS_FAILED"
    case Email => "LOG_EMAIL_FAILED"
  }

  function OperationFailedPrefix(ch: Channel): string {
    match ch
    case Sms => "短信操作失败: "
    case Email => "邮件操作失败: "
  }

  function AlertSuccessMessage(ch: Channel): string {
    match ch
    case Sms => "短信预警已记录 (MVP模式)"
    case Email => "邮件预警已记录 (MVP模式)"
  }

  /** A failure result whose error message is `prefix + e.getMessage()`. */
  function Fail(ch: Channel, prefix: string, e: Exception, code: string, recipient: Option<string>, now: Instant): (r: SendResult)
    ensures IsFailure(r) && r.channel == ch && r.recipient == recipient
    ensures r.errorCode == Some(code) && r.errorMessage == Some(prefix + Show(GetMessage(e)))
  {
    SendResults.Failure(ch, Some(prefix + Show(GetMessage(e))), Some(code), recipient, None, now)
  }

  /** Only the SMS sender checks the recipient; the e-mail sender takes any. */
  predicate RecipientAccepted(ch: Channel, recipient: Option<string>) {
    ch == Email || Phones.IsPhoneValid(recipient)
  }

  /** The result for a malformed phone number. */
  function PhoneRejected(recipient: Option<string>, now: Instant): (r: SendResult)
    ensures IsFailure(r) && r.channel == Sms && r.recipient == recipient
    ensures r.errorCode == Some(PhoneInvalidCode) && r.errorMessage == Some(PhoneInvalidPrefix + Show(recipient))
  {
    SendResults.Failure(Sms, Some(PhoneInvalidPrefix + Show(recipient)), Some(PhoneInvalidCode), recipient, None, now)
  }

  /** Both log lines need the expiry date, the details also the issue date. */
  predicate Formattable(c: Certificate) {
    c.issueDate.Some? && c.expiryDate.Some?
  }

  /** The SMS text as logged: rendered, then cut down when over-long. */
  function LoggedSmsContent(c: Certificate, d: int): (s: string)
    requires IsInt(d)
    ensures LogFormat.IsContentValid(Some(s))
  {
    LogFormat.TruncateContent(LogFormat.FormatSmsContent(Some(c), d).value)
  }

  // ---------------------------------------------------------------------------
  // Expiry alert
  // ---------------------------------------------------------------------------

  /** The operation the error-handling template runs for a present certificate. */
  function AlertOperation(ch: Channel, c: Certificate, d: int, recipient: Option<string>,
                          logFault: Option<Exception>, now: Instant): (s: Sent)
    requires IsInt(d)
    ensures s.result.channel == ch && s.result.recipient == recipient
    ensures s.result.success <==> RecipientAccepted(ch, recipient) && Formattable(c) && logFault.None?
    ensures s.result.success ==>
      s.result.message == Some(AlertSuccessMessage(ch)) && !HasError(s.result) &&
      s.effects == [AlertLogged(ch, c, d, recipient)]
    ensures !s.result.success ==> s.effects == [] && s.result.message == Some(FailureMessage(ch))
    ensures !RecipientAccepted(ch, recipient) ==> s.result == PhoneRejected(recipient, now)
    ensures RecipientAccepted(ch, recipient) && !Formattable(c) ==>
      s.result.errorCode == Some(LogFailedCode(ch)) && s.result.errorMessage.Some? &&
      StartsWith(s.result.errorMessage.value, OperationFailedPrefix(ch))
    ensures RecipientAccepted(ch, recipient) && Formattable(c) && logFault.Some? ==>
      s.result.errorCode == Some(LogFailedCode(ch)) &&
      s.result.errorMessage == Some(OperationFailedPrefix(ch) + Show(GetMessage(logFault.value)))
    ensures ch == Sms && RecipientAccepted(ch, recipient) && Formattable(c) ==> s.smsContent == Some(LoggedSmsContent(c, d))
    ensures ch == Email ==> s.smsContent.None?
  {
    if !RecipientAccepted(ch, recipient) then Sent(PhoneRejected(recipient, now), [], None)
    else
      match LogFormat.FormatExpiryAlert(ch, Some(c), d, recipient)
      case Err(e) => Sent(Fail(ch, OperationFailedPrefix(ch), e, LogFailedCode(ch), recipient, now), [], None)
      case Ok(_) =>
        match LogFormat.FormatCertificateDetails(ch, Some(c), d, recipient)
        case Err(e) => Sent(Fail(ch, OperationFailedPrefix(ch), e, LogFailedCode(ch), recipient, now), [], None)
        case Ok(_) =>
          var content := if ch == Sms then Some(LoggedSmsContent(c, d)) else None;
          match logFault
          case Some(e) => Sent(Fail(ch, OperationFailedPrefix(ch), e, LogFailedCode(ch), recipient, now), [], content)
          case None =>
            Sent(Success(ch, Some(AlertSuccessMessage(ch)), recipient, None, now), [AlertLogged(ch, c, d, recipient)], content)
  }

  /** `sendExpiryAlertSms` / `sendExpiryAlertEmail`. A null certificate fails
      before the template runs, when its name is read for the error log, and
      ends in the outer handler. */
  function SendExpiryAlert(ch: Channel, c: Option<Certificate>, d: int, recipient: Option<string>,
                           logFault: Option<Exception>, now: Instant): (s: Sent)
    requires IsInt(d)
    ensures s.result.channel == ch && s.result.recipient == recipient
    ensures s.result.success <==>
      c.Some? && RecipientAccepted(ch, recipient) && Formattable(c.value) && logFault.None?
    ensures s.result.success ==>
      s.result.message == Some(AlertSuccessMessage(ch)) && !HasError(s.result) &&
      s.effects == [AlertLogged(ch, c.value, d, recipient)]
    ensures !s.result.success ==> s.effects == [] && s.result.message == Some(FailureMessage(ch))
    ensures c.None? ==>
      s.result.errorCode == Some(LogFailedCode(ch)) && s.result.errorMessage.Some? && StartsWith(s.result.errorMessage.value, InternalErrorPrefix)
    ensures c.Some? && !RecipientAccepted(ch, recipient) ==> s.result == PhoneRejected(recipient, now)
    ensures c.Some? && RecipientAccepted(ch, recipient) && !Formattable(c.value) ==>
      s.result.errorCode == Some(LogFailedCode(ch)) && s.result.errorMessage.Some? && StartsWith(s.result.errorMessage.value, OperationFailedPrefix(ch))
    ensures c.Some? && RecipientAccepted(ch, recipient) && Formattable(c.value) && logFault.Some? ==>
      s.result.errorCode == Some(LogFailedCode(ch)) &&
      s.result.errorMessage == Some(OperationFailedPrefix(ch) + Show(GetMessage(logFault.value)))
    ensures ch == Sms && c.Some? && RecipientAccepted(ch, recipient) && Formattable(c.value) ==>
      s.smsContent == Some(LoggedSmsContent(c.value, d))
    ensures ch == Email ==> s.smsContent.None?
  {
    if c.None? then Sent(Fail(ch, InternalErrorPrefix, NullPointer, LogFailedCode(ch), recipient, now), [], None)
    else AlertOperation(ch, c.value, d, recipient, logFault, now)
  }

  /** With a well-formed phone number the two senders succeed and fail on
      exactly the same certificates and log faults. */
  lemma SendersAgreeOnValidPhone(c: Option<Certificate>, d: int, phone: Option<string>, logFault: Option<Exception>, now: Instant)
    requires IsInt(d) && Phones.IsPhoneValid(phone)
    ensures SendExpiryAlert(Sms, c, d, phone, logFault, now).result.success ==
            SendExpiryAlert(Email, c, d, phone, logFault, now).result.success
    ensures |SendExpiryAlert(Sms, c, d, phone, logFault, now).effects| ==
            |SendExpiryAlert(Email, c, d, phone, logFault, now).effects|
  {
  }

  /** An over-long SMS text is logged as its first 70 chars and "...". */
  lemma LongSmsContentTruncated(c: Certificate, d: int, phone: Option<string>, now: Instant)
    requires IsInt(d) && Phones.IsPhoneValid(phone) && Formattable(c)
    requires |LogFormat.FormatSmsContent(Some(c), d).value| > 500
    ensures var text := LogFormat.FormatSmsContent(Some(c), d).value;
      SendExpiryAlert(Sms, Some(c), d, phone, None, now).smsContent == Some(text[..70] + "...")
  {
  }

  // ---------------------------------------------------------------------------
  // Daily summary
  // ---------------------------------------------------------------------------

  /** Every listed certificate is present and has an expiry date, so each
      listing line can be written. */
  predicate Listable(certs: seq<Option<Certificate>>) {
    forall i :: 0 <= i < |certs| ==> certs[i].Some? && certs[i].value.expiryDate.Some?
  }

  /** `sendDailySummary(expiringSoon, expired, recipient)`: a listing line per
      certificate formats its expiry date, so a null certificate or date
      throws and is reported as a summary failure. */
  function SendDailySummary(ch: Channel, soon: seq<Option<Certificate>>, expired: seq<Option<Certificate>>,
                            recipient: Option<string>, logFault: Option<Exception>, now: Instant): (s: Sent)
    ensures s.result.channel == ch && s.result.recipient == recipient
    ensures s.result.success <==>
      RecipientAccepted(ch, recipient) && Listable(soon) && Listable(expired) && logFault.None?
    ensures s.result.success ==>
      s.result.message == Some(SummarySuccessMessage) && s.effects == [SummaryLogged(ch, soon, expired, recipient)]
    ensures !s.result.success ==> s.effects == []
    ensures !RecipientAccepted(ch, recipient) ==> s.result == PhoneRejected(recipient, now)
    ensures RecipientAccepted(ch, recipient) && !s.result.success ==>
      s.result.errorCode == Some(LogSummaryFailedCode) && s.result.errorMessage.Some? && StartsWith(s.result.errorMessage.value, SummaryFailedPrefix)
    ensures RecipientAccepted(ch, recipient) && Listable(soon) && Listable(expired) && logFault.Some? ==>
      s.result.errorMessage == Some(SummaryFailedPrefix + Show(GetMessage(logFault.value)))
    ensures ch == Sms && RecipientAccepted(ch, recipient) ==>
      s.smsContent == Some(LogFormat.FormatDailySummarySmsContent(|soon|, |expired|))
    ensures ch == Email ==> s.smsContent.None?
  {
    if !RecipientAccepted(ch, recipient) then Sent(PhoneRejected(recipient, now), [], None)
    else
      var content := if ch == Sms then Some(LogFormat.FormatDailySummarySmsContent(|soon|, |expired|)) else None;
      if !Listable(soon) || !Listable(expired) then
        Sent(Fail(ch, SummaryFailedPrefix, NullPointer, LogSummaryFailedCode, recipient, now), [], content)
      else
        match logFault
        case Some(e) => Sent(Fail(ch, SummaryFailedPrefix, e, LogSummaryFailedCode, recipient, now), [], content)
        case None =>
          Sent(Success(ch, Some(SummarySuccessMessage), recipient, None, now),
               [SummaryLogged(ch, soon, expired, recipient)], content)
  }

  // ---------------------------------------------------------------------------
  // Batch
  // ---------------------------------------------------------------------------

  /** The log fault of the `i`-th call; calls past the end of `faults` succeed. */
  function FaultAt(faults: seq<Option<Exception>>, i: nat): Option<Exception> {
    if i < |faults| then faults[i] else None
  }

  /** The first `n` certificates of the batch are non-null. */
  predicate NonNullPrefix(certs: seq<Option<Certificate>>, n: nat) {
    n <= |certs| && forall j :: 0 <= j < n ==> certs[j].Some?
  }

  /** The position of the first null certificate, or the length of the
      batch when there is none. */
  function FirstNull(certs: seq<Option<Certificate>>): (n: nat)
    ensures NonNullPrefix(certs, n)
    ensures n < |certs| ==> certs[n].None?
    decreases |certs|
  {
    if |certs| == 0 || certs[0].None? then 0
    else
      var k := FirstNull(certs[1..]);
      assert forall j :: 1 <= j < k + 1 ==> certs[j] == certs[1..][j - 1];
      k + 1
  }

  /** One batch entry for a non-null certificate: the single alert with the
      day count narrowed to int. The alert catches its own failures, so the
      loop's catch block is never entered from here. */
  function BatchItem(ch: Channel, c: Certificate, recipient: Option<string>,
                     fault: Option<Exception>, today: int, now: Instant): (s: Sent)
    ensures s.result.channel == ch && s.result.recipient == recipient
    ensures s.result.success <==> RecipientAccepted(ch, recipient) && Formattable(c) && fault.None?
    ensures s.result.success ==> s.effects == [AlertLogged(ch, c, NarrowToInt(DaysUntilExpiry(c, today)), recipient)]
    ensures |s.effects| == if s.result.success then 1 else 0
  {
    SendExpiryAlert(ch, Some(c), NarrowToInt(DaysUntilExpiry(c, today)), recipient, fault, now)
  }

  /** The results of the first `n` entries, all of them non-null. */
  function ItemResults(ch: Channel, certs: seq<Option<Certificate>>, recipient: Option<string>,
                       faults: seq<Option<Exception>>, today: int, now: Instant, n: nat): (r: seq<SendResult>)
    requires NonNullPrefix(certs, n)
    ensures |r| == n
  {
    if n == 0 then []
    else ItemResults(ch, certs, recipient, faults, today, now, n - 1)
         + [BatchItem(ch, certs[n - 1].value, recipient, FaultAt(faults, n - 1), today, now).result]
  }

  /** Entry `i` of the results is the alert of certificate `i`. */
  lemma {:induction false} ItemResultsAt(ch: Channel, certs: seq<Option<Certificate>>, recipient: Option<string>,
                                         faults: seq<Option<Exception>>, today: int, now: Instant, n: nat)
    requires NonNullPrefix(certs, n)
    ensures forall i :: 0 <= i < n ==>
      ItemResults(ch, certs, recipient, faults, today, now, n)[i] ==
      BatchItem(ch, certs[i].value, recipient, FaultAt(faults, i), today, now).result
  {
    if n > 0 {
      var rs := ItemResults(ch, certs, recipient, faults, today, now, n);
      var shorter := ItemResults(ch, certs, recipient, faults, today, now, n - 1);
      var last := BatchItem(ch, certs[n - 1].value, recipient, FaultAt(faults, n - 1), today, now).result;
      assert rs == shorter + [last];
      ItemResultsAt(ch, certs, recipient, faults, today, now, n - 1);
      forall i | 0 <= i < n
        ensures rs[i] == BatchItem(ch, certs[i].value, recipient, FaultAt(faults, i), today, now).result
      {
        if i < n - 1 {
          assert rs[i] == shorter[i];
        }
      }
    }
  }

  /** The batch results. With a malformed phone number every entry is
      rejected. Otherwise a null certificate throws twice: its day count
      throws inside the loop, and the catch block then reads its name for
      the error log, which throws out of the call. So any null entry makes
      the whole call throw, and the batch-processing failure is never
      produced. */
  function BatchResults(ch: Channel, certs: seq<Option<Certificate>>, recipient: Option<string>,
                        faults: seq<Option<Exception>>, today: int, now: Instant): (r: Result<seq<SendResult>, Exception>)
    ensures r.Err? <==> RecipientAccepted(ch, recipient) && exists i :: 0 <= i < |certs| && certs[i].None?
    ensures r.Err? ==> r.error == NullPointer
    ensures r.Ok? ==> |r.value| == |certs|
    ensures r.Ok? ==> forall i :: 0 <= i < |r.value| ==> r.value[i].recipient == recipient && r.value[i].channel == ch
    ensures !RecipientAccepted(ch, recipient) ==> r.Ok? && forall i :: 0 <= i < |r.value| ==> r.value[i] == PhoneRejected(recipient, now)
    ensures RecipientAccepted(ch, recipient) && r.Ok? ==>
      forall i :: 0 <= i < |certs| ==>
        certs[i].Some? && r.value[i] == BatchItem(ch, certs[i].value, recipient, FaultAt(faults, i), today, now).result
  {
    if !RecipientAccepted(ch, recipient) then Ok(seq(|certs|, _ => PhoneRejected(recipient, now)))
    else
      var n := FirstNull(certs);
      if n < |certs| then Err(NullPointer)
      else
        ItemResultsAt(ch, certs, recipient, faults, today, now, n);
        Ok(ItemResults(ch, certs, recipient, faults, today, now, n))
  }

  /** The records written by the first `n` batch entries. */
  function BatchEffects(ch: Channel, certs: seq<Option<Certificate>>, recipient: Option<string>,
                        faults: seq<Option<Exception>>, today: int, now: Instant, n: nat): seq<LogEffect>
    requires NonNullPrefix(certs, n)
  {
    if n == 0 then []
    else BatchEffects(ch, certs, recipient, faults, today, now, n - 1)
         + BatchItem(ch, certs[n - 1].value, recipient, FaultAt(faults, n - 1), today, now).effects
  }

  /** The number of successful results. */
  function CountSuccess(rs: seq<SendResult>): (n: nat)
    ensures n <= |rs|
  {
    if |rs| == 0 then 0 else CountSuccess(rs[..|rs| - 1]) + (if rs[|rs| - 1].success then 1 else 0)
  }

  /** How a batch call ends, and the records written before it ended. */
  datatype BatchRun = BatchRun(results: Result<seq<SendResult>, Exception>, effects: seq<LogEffect>)

  /** `sendBatchAlerts(certificates, recipient)`: one result per certificate
      in order, and the records of the entries that went through; a malformed
      phone number rejects every entry without writing anything. When the
      call throws at a null certificate, the entries before it have already
      written their records. */
  function SendBatchAlerts(ch: Channel, certs: seq<Option<Certificate>>, recipient: Option<string>,
                           faults: seq<Option<Exception>>, today: int, now: Instant): (r: BatchRun)
    ensures r.results == BatchResults(ch, certs, recipient, faults, today, now)
    ensures !RecipientAccepted(ch, recipient) ==> r.effects == []
    ensures r.results.Ok? ==> |r.effects| == CountSuccess(r.results.value)
    ensures r.results.Err? ==>
      var n := FirstNull(certs);
      n < |certs| && |r.effects| == CountSuccess(ItemResults(ch, certs, recipient, faults, today, now, n))
  {
    var results := BatchResults(ch, certs, recipient, faults, today, now);
    if !RecipientAccepted(ch, recipient) then
      AllRejectedCount(results.value, recipient, now);
      BatchRun(results, [])
    else
      var n := FirstNull(certs);
      BatchRecordsMatchSuccesses(ch, certs, recipient, faults, today, now, n);
      BatchRun(results, BatchEffects(ch, certs, recipient, faults, today, now, n))
  }

  /** The first `n` entries write one record per successful result. */
  predicate RecordsMatch(ch: Channel, certs: seq<Option<Certificate>>, recipient: Option<string>,
                         faults: seq<Option<Exception>>, today: int, now: Instant, n: nat)
    requires NonNullPrefix(certs, n)
  {
    |BatchEffects(ch, certs, recipient, faults, today, now, n)| ==
    CountSuccess(ItemResults(ch, certs, recipient, faults, today, now, n))
  }

  /** Every prefix of the batch writes one record per successful result. */
  lemma {:induction false} BatchRecordsMatchSuccesses(ch: Channel, certs: seq<Option<Certificate>>, recipient: Option<string>,
                                                      faults: seq<Option<Exception>>, today: int, now: Instant, n: nat)
    requires NonNullPrefix(certs, n)
    ensures RecordsMatch(ch, certs, recipient, faults, today, now, n)
  {
    if n > 0 {
      BatchRecordsMatchSuccesses(ch, certs, recipient, faults, today, now, n - 1);
      BatchRecordsStep(ch, certs, recipient, faults, today, now, n);
    }
  }

  /** One more entry keeps records and successes in step. */
  lemma BatchRecordsStep(ch: Channel, certs: seq<Option<Certificate>>, recipient: Option<string>,
                         faults: seq<Option<Exception>>, today: int, now: Instant, n: nat)
    requires 0 < n && NonNullPrefix(certs, n)
    requires RecordsMatch(ch, certs, recipient, faults, today, now, n - 1)
    ensures RecordsMatch(ch, certs, recipient, faults, today, now, n)
  {
    var shorter := ItemResults(ch, certs, recipient, faults, today, now, n - 1);
    var item := BatchItem(ch, certs[n - 1].value, recipient, FaultAt(faults, n - 1), today, now);
    var before := BatchEffects(ch, certs, recipient, faults, today, now, n - 1);
    CountStep(shorter, before, item);
  }

  /** Appending a call with one record per success keeps the records and
      the successes in step. */
  lemma CountStep(rs: seq<SendResult>, effects: seq<LogEffect>, item: Sent)
    requires |effects| == CountSuccess(rs)
    requires |item.effects| == if item.result.success then 1 else 0
    ensures |effects + item.effects| == CountSuccess(rs + [item.result])
  {
    assert (rs + [item.result])[..|rs|] == rs;
  }

  lemma {:induction false} AllRejectedCount(rs: seq<SendResult>, recipient: Option<string>, now: Instant)
    requires forall i :: 0 <= i < |rs| ==> rs[i] == PhoneRejected(recipient, now)
    ensures CountSuccess(rs) == 0
  {
    if |rs| > 0 {
      AllRejectedCount(rs[..|rs| - 1], recipient, now);
    }
  }

  /** A log fault on one entry changes that entry's result and no other. */
  lemma BatchFaultIsLocal(ch: Channel, certs: seq<Option<Certificate>>, recipient: Option<string>,
                          faults1: seq<Option<Exception>>, faults2: seq<Option<Exception>>, today: int, now: Instant, j: nat)
    requires |faults1| == |faults2| == |certs| && j < |certs|
    requires forall i :: 0 <= i < |certs| && i != j ==> faults1[i] == faults2[i]
    ensures BatchResults(ch, certs, recipient, faults1, today, now).Ok? <==> BatchResults(ch, certs, recipient, faults2, today, now).Ok?
    ensures BatchResults(ch, certs, recipient, faults1, today, now).Ok? ==>
      forall i :: 0 <= i < |certs| && i != j ==>
        BatchResults(ch, certs, recipient, faults1, today, now).value[i] == BatchResults(ch, certs, recipient, faults2, today, now).value[i]
  {
  }

  /** An empty batch returns nothing and writes nothing. */
  lemma EmptyBatch(ch: Channel, recipient: Option<string>, faults: seq<Option<Exception>>, today: int, now: Instant)
    ensures BatchResults(ch, [], recipient, faults, today, now) == Ok([])
    ensures SendBatchAlerts(ch, [], recipient, faults, today, now).effects == []
  {
  }
}
