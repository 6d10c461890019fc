/** The log lines written by the SMS and e-mail log-mode senders. The two
    formatter classes differ only in their channel word and in the recipient:
    the SMS formatter masks the phone number, the e-mail formatter shows the
    address as given. Every `certificate.getX()` on a null certificate and
    every `formatDate(null)` throws, which is `Err(NullPointer)`. */
module LogFormat {
  import opened Wrappers
  import opened Text
  import opened Exceptions
  import opened Certificates
  import opened JavaInts
  import opened JavaFormat
  import opened SendResults
  import AlertTypes
  import Phones

  /** The recipient as the formatter prints it. */
  function ShownRecipient(ch: Channel, recipient: Option<string>): string {
    match ch
    case Sms => Str(Phones.MaskPhone(recipient))
    case Email => Str(recipient)
  }

  const RecipientLabel: string := "收件人: "

  function AlertTypeLine(d: int): string {
    " | 预警类型: " + AlertTypes.AlertTypeOf(d)
  }

  /** `formatExpiryAlert(certificate, daysUntilExpiry, recipient)`. */
  function FormatExpiryAlert(ch: Channel, c: Option<Certificate>, d: int, recipient: Option<string>): (r: Result<string, Exception>)
    ensures r.Err? <==> c.None? || c.value.expiryDate.None?
    ensures r.Err? ==> r.error == NullPointer
    ensures r.Ok? ==> StartsWith(r.value, RecipientLabel + ShownRecipient(ch, recipient) + " | 证书: ")
    ensures r.Ok? ==> EndsWith(r.value, AlertTypeLine(d))
    ensures r.Ok? ==> Contains(r.value, "剩余天数: " + Num(d) + "天")
  {
    if c.None? then Err(NullPointer)
    else
      var cert := c.value;
      match FormatDate(cert.expiryDate)
      case Err(e) => Err(e)
      case Ok(date) =>
        var head := RecipientLabel + ShownRecipient(ch, recipient) + " | 证书: ";
        var mid := Str(cert.name) + " | 域名: " + Str(cert.domain) + " | 到期日期: " + date + " | ";
        var days := "剩余天数: " + Num(d) + "天";
        Framed(head, mid, days, AlertTypeLine(d));
        Ok(head + mid + days + AlertTypeLine(d))
  }

  /** In the SMS line the recipient field holds the masked number, which for a
      valid number is never the number itself. */
  lemma SmsAlertHidesPhone(c: Option<Certificate>, d: int, phone: string)
    requires Phones.IsPhoneValid(Some(phone))
    requires FormatExpiryAlert(Sms, c, d, Some(phone)).Ok?
    ensures var line := FormatExpiryAlert(Sms, c, d, Some(phone)).value;
      line[|RecipientLabel|..|RecipientLabel| + 11] == Phones.MaskPhone(Some(phone)).value != phone
  {
    Phones.MaskHidesNumber(phone);
    var line := FormatExpiryAlert(Sms, c, d, Some(phone)).value;
    var m := Phones.MaskPhone(Some(phone)).value;
    PrefixPart(line, RecipientLabel, m, " | 证书: ");
  }

  /** The e-mail line shows the recipient exactly as given. */
  lemma EmailAlertShowsRecipient(c: Option<Certificate>, d: int, address: string)
    requires FormatExpiryAlert(Email, c, d, Some(address)).Ok?
    ensures StartsWith(FormatExpiryAlert(Email, c, d, Some(address)).value, RecipientLabel + address + " | ")
  {
    var line := FormatExpiryAlert(Email, c, d, Some(address)).value;
    var head := RecipientLabel + address + " | 证书: ";
    assert line[..|head|] == head;
    assert (RecipientLabel + address + " | ") == head[..|RecipientLabel + address + " | "|];
  }

  /** `formatDailySummary(expiringSoon, expired, recipient)`, sent at `now`. */
  function FormatDailySummary(ch: Channel, expiringSoonCount: nat, expiredCount: nat, recipient: Option<string>, now: int): (r: string)
    ensures StartsWith(r, RecipientLabel + ShownRecipient(ch, recipient) + " | ")
    ensures Contains(r, "即将过期证书: " + Num(expiringSoonCount) + "个")
    ensures Contains(r, "已过期证书: " + Num(expiredCount) + "个")
  {
    var head := RecipientLabel + ShownRecipient(ch, recipient) + " | ";
    var soon := "即将过期证书: " + Num(expiringSoonCount) + "个";
    var expired := "已过期证书: " + Num(expiredCount) + "个";
    FramedTwo(head, soon, " | ", expired, " | 发送时间: ", DateText(now));
    head + soon + " | " + expired + (" | 发送时间: " + DateText(now))
  }

  const DetailsHeader: string := "证书详情:\n"

  function AlertTypeDetail(d: int): string {
    "    🏷️ 预警类型: " + AlertTypes.AlertTypeOf(d)
  }

  /** `formatCertificateDetails(certificate, daysUntilExpiry, recipient)`: both
      dates are formatted, so either being null throws. */
  function FormatCertificateDetails(ch: Channel, c: Option<Certificate>, d: int, recipient: Option<string>): (r: Result<string, Exception>)
    ensures r.Err? <==> c.None? || c.value.issueDate.None? || c.value.expiryDate.None?
    ensures r.Ok? ==> StartsWith(r.value, DetailsHeader)
    ensures r.Ok? ==> EndsWith(r.value, AlertTypeDetail(d))
    ensures r.Ok? ==> Contains(r.value, "剩余天数: " + Num(d) + "天\n")
  {
    if c.None? then Err(NullPointer)
    else
      var cert := c.value;
      match FormatDate(cert.issueDate)
      case Err(e) => Err(e)
      case Ok(issued) =>
        match FormatDate(cert.expiryDate)
        case Err(e) => Err(e)
        case Ok(expires) =>
          var body := "    📋 证书名称: " + Str(cert.name) + "\n"
            + "    🌐 域名: " + Str(cert.domain) + "\n"
            + "    📅 颁发日期: " + issued + "\n"
            + "    ⏰ 到期日期: " + expires + "\n"
            + "    📊 证书状态: " + StatusText(cert.status) + "\n"
            + "    ⏳ ";
          var days := "剩余天数: " + Num(d) + "天\n";
          var line := "    " + (if ch == Sms then "📱" else "📧") + " 收件人: " + ShownRecipient(ch, recipient) + "\n";
          FramedSplitTail(DetailsHeader, body, days, line, AlertTypeDetail(d));
          Ok(DetailsHeader + body + days + (line + AlertTypeDetail(d)))
  }

  /** `formatBatchStatistics(total, success, failure)`. */
  function FormatBatchStatistics(ch: Channel, total: int, success: int, failure: int): (r: string)
    ensures Contains(r, "成功: " + Num(success) + ",")
    ensures Contains(r, "失败: " + Num(failure) + ",")
    ensures EndsWith(r, "总计: " + Num(total))
  {
    var head := if ch == Sms then "批量短信预警完成 - " else "批量邮件预警完成 - ";
    var s := "成功: " + Num(success) + ",";
    var f := "失败: " + Num(failure) + ",";
    var t := "总计: " + Num(total);
    FramedTwo(head, s, " ", f, " ", t);
    head + s + " " + f + (" " + t)
  }

  // ---------------------------------------------------------------------------
  // SMS content (SmsLogFormatter only)
  // ---------------------------------------------------------------------------

  const ExpiredContentSuffix: string := "天，请立即处理！"
  const UpcomingContentSuffix: string := "天后过期，请及时处理。"

  /** `formatSmsContent(certificate, daysUntilExpiry)`: an expired text with
      `Math.abs(days)` from day 0 downwards, the reminder template above it. */
  function FormatSmsContent(c: Option<Certificate>, d: int): (r: Result<string, Exception>)
    requires IsInt(d)
    ensures r.Err? <==> c.None?
    ensures r.Ok? ==> StartsWith(r.value, "【证书管理】证书" + Str(c.value.name))
    ensures r.Ok? && d <= 0 ==> EndsWith(r.value, "已过期" + Num(AbsInt(d)) + ExpiredContentSuffix)
    ensures r.Ok? && d > 0 ==> EndsWith(r.value, "将在" + Num(d) + UpcomingContentSuffix)
  {
    if c.None? then Err(NullPointer)
    else
      var head := "【证书管理】证书" + Str(c.value.name);
      var tail := if d <= 0 then "已过期" + Num(AbsInt(d)) + ExpiredContentSuffix
                  else "将在" + Num(d) + UpcomingContentSuffix;
      assert (head + tail)[..|head|] == head;
      Ok(head + tail)
  }

  /** The expired text reports the days past expiry as a non-negative count,
      except for `Integer.MIN_VALUE`, whose `Math.abs` is itself. */
  lemma ExpiredContentCountsDaysPast(c: Certificate, d: int)
    requires IsInt(d) && d <= 0
    ensures d != IntMin ==> EndsWith(FormatSmsContent(Some(c), d).value, "已过期" + NatToString(-d) + ExpiredContentSuffix)
    ensures d == IntMin ==> EndsWith(FormatSmsContent(Some(c), d).value, "已过期" + "-2147483648" + ExpiredContentSuffix)
  {
    if d == IntMin {
      IntMinText();
    }
  }

  /** The decimal text of `Integer.MIN_VALUE`. */
  lemma IntMinText()
    ensures IntToString(IntMin) == "-2147483648"
  {
    assert NatToString(2) == "2";
    AppendDigit(2, 1);
    AppendDigit(21, 4);
    AppendDigit(214, 7);
    AppendDigit(2147, 4);
    AppendDigit(21474, 8);
    AppendDigit(214748, 3);
    AppendDigit(2147483, 6);
    AppendDigit(21474836, 4);
    AppendDigit(214748364, 8);
  }

  /** `formatDailySummarySmsContent(expiringSoonCount, expiredCount)`. */
  function FormatDailySummarySmsContent(expiringSoonCount: int, expiredCount: int): (r: string)
    ensures StartsWith(r, "【证书管理】今日摘要：即将过期" + Num(expiringSoonCount) + "个，")
    ensures EndsWith(r, "已过期" + Num(expiredCount) + "个证书。")
  {
    var head := "【证书管理】今日摘要：即将过期" + Num(expiringSoonCount) + "个，";
    var tail := "已过期" + Num(expiredCount) + "个证书。";
    assert (head + tail)[..|head|] == head;
    head + tail
  }

  /** `isContentValid`: non-null and at most `MAX_SMS_LENGTH_LONG` chars. */
  predicate IsContentValid(s: Option<string>) {
    s.Some? && |s.value| <= 500
  }

  /** Null content is never valid, validity survives cutting a text short,
      and the bound sits exactly between 500 and 501 chars. */
  lemma ContentValidity(s: string, k: nat)
    requires k <= |s|
    ensures !IsContentValid(None)
    ensures IsContentValid(Some(s)) ==> IsContentValid(Some(s[..k]))
    ensures |s| == 500 ==> IsContentValid(Some(s)) && !IsContentValid(Some(s + "."))
  {
  }

  /** The truncation the log sender applies to an over-long text: the first
      `MAX_SMS_LENGTH` chars followed by "...". */
  function TruncateContent(s: string): (r: string)
    ensures IsContentValid(Some(r))
    ensures IsContentValid(Some(s)) ==> r == s
    ensures !IsContentValid(Some(s)) ==> |r| == 73 && StartsWith(r, s[..70]) && EndsWith(r, "...")
  {
    if IsContentValid(Some(s)) then s else s[..70] + "..."
  }

  /** Truncation never changes a text twice. */
  lemma TruncateIdempotent(s: string)
    ensures TruncateContent(TruncateContent(s)) == TruncateContent(s)
  {
  }
}
