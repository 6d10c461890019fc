/** The immutable result objects the notification senders return. The SMS and
    e-mail result classes are identical except for the text a failure carries,
    so one datatype tagged with its channel stands for both; results of
    different channels are never equal, as `getClass()` makes them in Java. */
module SendResults {
  import opened Wrappers

  /** A local date-time in seconds; `now` stands for `LocalDateTime.now()`. */
  type Instant = int

  datatype Channel = Sms | Email

  datatype SendResult = SendResult(
    channel: Channel,
    success: bool,
    message: Option<string>,
    recipient: Option<string>,
    sentAt: Instant,
    errorCode: Option<string>,
    errorMessage: Option<string>)

  /** The fixed message of every failure result. */
  function FailureMessage(ch: Channel): string {
    match ch
    case Sms => "短信发送失败"
    case Email => "邮件发送失败"
  }

  /** The private constructor: a missing send time becomes `now`. */
  function Make(ch: Channel, success: bool, message: Option<string>, recipient: Option<string>,
                sentAt: Option<Instant>, now: Instant, errorCode: Option<string>,
                errorMessage: Option<string>): (r: SendResult)
    ensures r.sentAt == (if sentAt.Some? then sentAt.value else now)
    ensures r.(sentAt := 0) == SendResult(ch, success, message, recipient, 0, errorCode, errorMessage)
  {
    SendResult(ch, success, message, recipient, sentAt.GetOr(now), errorCode, errorMessage)
  }

  /** `success(message, recipient[, sentAt])`. */
  function Success(ch: Channel, message: Option<string>, recipient: Option<string>,
                   sentAt: Option<Instant>, now: Instant): (r: SendResult)
    ensures r.success && !HasError(r) && !IsFailure(r)
    ensures r.channel == ch && r.message == message && r.recipient == recipient
    ensures sentAt.Some? ==> r.sentAt == sentAt.value
  {
    Make(ch, true, message, recipient, sentAt, now, None, None)
  }

  /** `failure(errorMessage, errorCode, recipient[, sentAt])`. */
  function Failure(ch: Channel, errorMessage: Option<string>, errorCode: Option<string>,
                   recipient: Option<string>, sentAt: Option<Instant>, now: Instant): (r: SendResult)
    ensures IsFailure(r) && r.message == Some(FailureMessage(ch))
    ensures r.channel == ch && r.recipient == recipient
    ensures r.errorCode == errorCode && r.errorMessage == errorMessage
    ensures HasError(r) <==> errorCode.Some? || errorMessage.Some?
    ensures sentAt.Some? ==> r.sentAt == sentAt.value
  {
    Make(ch, false, Some(FailureMessage(ch)), recipient, sentAt, now, errorCode, errorMessage)
  }

  predicate IsFailure(r: SendResult) {
    !r.success
  }

  predicate HasError(r: SendResult) {
    r.errorCode.Some? || r.errorMessage.Some?
  }

  /** `equals`: same class and every field equal. */
  predicate ResultEquals(a: SendResult, b: SendResult) {
    a.channel == b.channel && a.success == b.success && a.message == b.message &&
    a.recipient == b.recipient && a.sentAt == b.sentAt &&
    a.errorCode == b.errorCode && a.errorMessage == b.errorMessage
  }

  /** Field-wise equality is value equality, so `equals` is an equivalence
      relation and equal results are interchangeable. */
  lemma ResultEqualsIsIdentity(a: SendResult, b: SendResult)
    ensures ResultEquals(a, b) <==> a == b
  {
  }

  /** A success and a failure are never equal, whatever their fields. */
  lemma SuccessNeverEqualsFailure(ch1: Channel, m: Option<string>, rc1: Option<string>, t1: Option<Instant>,
                                  ch2: Channel, em: Option<string>, ec: Option<string>, rc2: Option<string>,
                                  t2: Option<Instant>, now: Instant)
    ensures !ResultEquals(Success(ch1, m, rc1, t1, now), Failure(ch2, em, ec, rc2, t2, now))
  {
  }

  /** An SMS failure and an e-mail failure differ even with identical fields. */
  lemma ChannelsNeverEqual(em: Option<string>, ec: Option<string>, rc: Option<string>, t: Option<Instant>, now: Instant)
    ensures !ResultEquals(Failure(Sms, em, ec, rc, t, now), Failure(Email, em, ec, rc, t, now))
    ensures FailureMessage(Sms) != FailureMessage(Email)
  {
  }
}
