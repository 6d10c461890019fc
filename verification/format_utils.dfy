/** The frontend's display maps: the tag colour and the label of a
    certificate status, and the label of a monitoring-log type. Each is a
    lookup in a three-entry object, falling back to a default (or to the
    argument itself) for anything else, including a missing argument. */
module FormatUtils {
  import opened Wrappers
  import opened Certificates

  /** `getStatusType(status)`. */
  function GetStatusType(status: Option<string>): (r: string)
    ensures status == Some("NORMAL") ==> r == "success"
    ensures status == Some("EXPIRING_SOON") ==> r == "warning"
    ensures status == Some("EXPIRED") ==> r == "danger"
    ensures r == "info" <==> status.None? || ParseStatus(status.value).None?
  {
    if status == Some("NORMAL") then "success"
    else if status == Some("EXPIRING_SOON") then "warning"
    else if status == Some("EXPIRED") then "danger"
    else "info"
  }

  /** `getStatusText(status)`: the Chinese label, or the argument itself. */
  function GetStatusText(status: Option<string>): (r: Option<string>)
    ensures status.None? ==> r.None?
    ensures status.Some? && ParseStatus(status.value).None? ==> r == status
    ensures status.Some? && ParseStatus(status.value).Some? ==> r == Some(Description(ParseStatus(status.value).value))
  {
    if status == Some("NORMAL") then Some("正常")
    else if status == Some("EXPIRING_SOON") then Some("即将过期")
    else if status == Some("EXPIRED") then Some("已过期")
    else status
  }

  /** The frontend's labels agree with the backend's `getDescription()`,
      and each status has its own colour. */
  lemma StatusDisplayAgrees(s: Status, t: Status)
    ensures GetStatusText(Some(StatusName(s))) == Some(Description(s))
    ensures s != t ==> GetStatusType(Some(StatusName(s))) != GetStatusType(Some(StatusName(t)))
    ensures GetStatusType(Some(StatusName(s))) != "info"
  {
    ParseStatusName(s);
    ParseStatusName(t);
  }

  /** The monitoring-log types the frontend names. */
  datatype LogType = Monitoring | AlertEmail | AlertSms

  function LogTypeName(t: LogType): string {
    match t
    case Monitoring => "MONITORING"
    case AlertEmail => "ALERT_EMAIL"
    case AlertSms => "ALERT_SMS"
  }

  function LogTypeLabel(t: LogType): string {
    match t
    case Monitoring => "监控检查"
    case AlertEmail => "邮件预警"
    case AlertSms => "短信预警"
  }

  /** The log type a name denotes, if any. */
  function ParseLogType(name: string): (r: Option<LogType>)
    ensures r.Some? ==> LogTypeName(r.value) == name
    ensures forall t: LogType :: LogTypeName(t) == name ==> r == Some(t)
  {
    if name == "MONITORING" then Some(Monitoring)
    else if name == "ALERT_EMAIL" then Some(AlertEmail)
    else if name == "ALERT_SMS" then Some(AlertSms)
    else None
  }

  /** `getLogTypeText(type)`: the label of a known type, or the argument. */
  function GetLogTypeText(logType: Option<string>): (r: Option<string>)
    ensures logType.Some? && ParseLogType(logType.value).Some? ==> r == Some(LogTypeLabel(ParseLogType(logType.value).value))
    ensures logType.None? || ParseLogType(logType.value).None? ==> r == logType
  {
    if logType == Some("MONITORING") then Some("监控检查")
    else if logType == Some("ALERT_EMAIL") then Some("邮件预警")
    else if logType == Some("ALERT_SMS") then Some("短信预警")
    else logType
  }

  /** Distinct log types get distinct labels, and no label is itself a type
      name, so a label never passes through unchanged. */
  lemma LogTypeLabelsDistinct(a: LogType, b: LogType)
    ensures a != b ==> LogTypeLabel(a) != LogTypeLabel(b)
    ensures GetLogTypeText(Some(LogTypeName(a))) == Some(LogTypeLabel(a)) != Some(LogTypeName(a))
  {
  }

  /** `formatDate` and `formatDateTime` of the format helpers: "-" for a
      falsy date; the dayjs rendering of any other value is a parameter. */
  function FormatOrDash(date: Option<int>, render: int -> string): (r: string)
    ensures date.None? ==> r == "-"
    ensures date.Some? ==> r == render(date.value)
  {
    match date
    case None => "-"
    case Some(d) => render(d)
  }
}
