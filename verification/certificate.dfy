/** The certificate record and its expiry-status rule.

    Dates are day numbers; `today` stands for `LocalDate.now()`, so the
    day count `ChronoUnit.DAYS.between(today, expiry)` is `expiry - today`. */
module Certificates {
  import opened Wrappers

  /** The three statuses, in increasing severity. */
  datatype Status = Normal | ExpiringSoon | Expired

  /** The enum constant's `name()`. */
  function StatusName(s: Status): string {
    match s
    case Normal => "NORMAL"
    case ExpiringSoon => "EXPIRING_SOON"
    case Expired => "EXPIRED"
  }

  /** `CertificateStatus.valueOf`: None where Java throws IllegalArgumentException. */
  function ParseStatus(name: string): (r: Option<Status>)
    ensures r.Some? ==> StatusName(r.value) == name
  {
    if name == "NORMAL" then Some(Normal)
    else if name == "EXPIRING_SOON" then Some(ExpiringSoon)
    else if name == "EXPIRED" then Some(Expired)
    else None
  }

  /** Names and parsing are inverse. */
  lemma ParseStatusName(s: Status)
    ensures ParseStatus(StatusName(s)) == Some(s)
  {
  }

  /** The enum's Chinese description. */
  function Description(s: Status): string {
    match s
    case Normal => "正常"
    case ExpiringSoon => "即将过期"
    case Expired => "已过期"
  }

  function Severity(s: Status): nat {
    match s
    case Normal => 0
    case ExpiringSoon => 1
    case Expired => 2
  }

  /** Days ahead of expiry at which a certificate becomes EXPIRING_SOON when no
      threshold is configured. */
  const DefaultThreshold: int := 30

  /** Java's `Long.MAX_VALUE`, the day count reported for a missing expiry. */
  const LongMax: int := 9223372036854775807

  datatype Certificate = Certificate(
    id: Option<int>,
    name: Option<string>,
    domain: Option<string>,
    issuer: Option<string>,
    issueDate: Option<int>,
    expiryDate: Option<int>,
    certificateType: Option<string>,
    status: Option<Status>,
    createdAt: Option<int>,
    updatedAt: Option<int>)

  /** `getDaysUntilExpiry`: days from today to the expiry day, or Long.MAX_VALUE. */
  function DaysUntilExpiry(c: Certificate, today: int): (d: int)
    ensures c.expiryDate.None? ==> d == LongMax
    ensures c.expiryDate.Some? ==> today + d == c.expiryDate.value
  {
    match c.expiryDate
    case None => LongMax
    case Some(e) => e - today
  }

  /** The threshold rule for a day count `d`: EXPIRED before the expiry day,
      EXPIRING_SOON from `t` days ahead up to and including the day itself,
      NORMAL further out. */
  function Classify(d: int, t: int): (s: Status)
    ensures s == Expired <==> d < 0
    ensures s == ExpiringSoon <==> 0 <= d <= t
    ensures s == Normal <==> 0 <= d && t < d
  {
    if d < 0 then Expired else if d <= t then ExpiringSoon else Normal
  }

  /** The status a certificate should carry on `today` under threshold `t`. */
  function ExpectedStatus(c: Certificate, today: int, t: int): Status {
    match c.expiryDate
    case None => Normal
    case Some(e) => Classify(e - today, t)
  }

  predicate StatusConsistent(c: Certificate, today: int, t: int) {
    c.status == Some(ExpectedStatus(c, today, t))
  }

  /** `updateStatus()`, with its fixed 30-day window. */
  function UpdateStatus(c: Certificate, today: int): (r: Certificate)
    ensures r.(status := c.status) == c
    ensures c.expiryDate.None? ==> r.status == Some(Normal)
    ensures c.expiryDate.Some? ==>
      (r.status == Some(Expired) <==> DaysUntilExpiry(c, today) < 0) &&
      (r.status == Some(ExpiringSoon) <==> 0 <= DaysUntilExpiry(c, today) <= 30) &&
      (r.status == Some(Normal) <==> DaysUntilExpiry(c, today) > 30)
  {
    if c.expiryDate.None? then c.(status := Some(Normal))
    else
      var days := c.expiryDate.value - today;
      if days < 0 then c.(status := Some(Expired))
      else if days <= 30 then c.(status := Some(ExpiringSoon))
      else c.(status := Some(Normal))
  }

  /** `updateStatus(t)`: the same rule with a configurable window. */
  function UpdateStatusWithin(c: Certificate, today: int, t: int): (r: Certificate)
    ensures r.(status := c.status) == c
    ensures StatusConsistent(r, today, t)
  {
    c.(status := Some(ExpectedStatus(c, today, t)))
  }

  /** The fixed rule is the configurable one at the default window. */
  lemma UpdateStatusIsDefaultWindow(c: Certificate, today: int)
    ensures UpdateStatus(c, today) == UpdateStatusWithin(c, today, DefaultThreshold)
  {
  }

  /** Recomputing the status a second time changes nothing. */
  lemma UpdateStatusIdempotent(c: Certificate, today: int, t: int)
    ensures UpdateStatusWithin(UpdateStatusWithin(c, today, t), today, t) == UpdateStatusWithin(c, today, t)
    ensures UpdateStatus(UpdateStatus(c, today), today) == UpdateStatus(c, today)
  {
  }

  /** The boundary days: the expiry day itself and exactly `t` days ahead are
      both EXPIRING_SOON. */
  lemma ClassifyBoundaries(t: int)
    requires t >= 0
    ensures Classify(0, t) == ExpiringSoon && Classify(t, t) == ExpiringSoon
    ensures Classify(-1, t) == Expired && Classify(t + 1, t) == Normal
  {
  }

  /** Fewer days left never means a less severe status. */
  lemma SeverityMonotone(d1: int, d2: int, t: int)
    requires d1 <= d2
    ensures Severity(Classify(d1, t)) >= Severity(Classify(d2, t))
  {
  }

  /** A wider window never means a less severe status. */
  lemma SeverityMonotoneInWindow(d: int, t1: int, t2: int)
    requires t1 <= t2
    ensures Severity(Classify(d, t1)) <= Severity(Classify(d, t2))
  {
  }
}
