/** The certificate's other shapes and the conversions between them: the
    database row, whose status is the enum's name; the service DTO handed to
    the API, which adds the day count; and the six user-editable fields of
    the create and update requests. */
module Converters {
  import opened Wrappers
  import opened Exceptions
  import opened Certificates

  /** `CertificateEntity`: the table row. */
  datatype CertificateEntity = CertificateEntity(
    id: Option<int>,
    name: Option<string>,
    domain: Option<string>,
    issuer: Option<string>,
    issueDate: Option<int>,
    expiryDate: Option<int>,
    certificateType: Option<string>,
    status: Option<string>,
    createdAt: Option<int>,
    updatedAt: Option<int>)

  /** `CertificateDto`: the certificate as the API returns it. */
  datatype CertificateDto = CertificateDto(
    id: Option<int>,
    name: Option<string>,
    domain: Option<string>,
    issuer: Option<string>,
    issueDate: Option<int>,
    expiryDate: Option<int>,
    certificateType: Option<string>,
    status: Option<Status>,
    daysUntilExpiry: Option<int>,
    createdAt: Option<int>,
    updatedAt: Option<int>)

  /** `CertificateCreateDto` and `CertificateUpdateDto`: the same six fields. */
  datatype CertificateInput = CertificateInput(
    name: Option<string>,
    domain: Option<string>,
    issuer: Option<string>,
    issueDate: Option<int>,
    expiryDate: Option<int>,
    certificateType: Option<string>)

  // ---------------------------------------------------------------------------
  // Row <-> domain
  // ---------------------------------------------------------------------------

  /** `CertificateStatus.valueOf(name)`: a null name throws
      NullPointerException, an unknown one IllegalArgumentException. */
  function StatusValueOf(name: Option<string>): (r: Result<Status, Exception>)
    ensures r.Ok? <==> name.Some? && ParseStatus(name.value).Some?
    ensures r.Ok? ==> StatusName(r.value) == name.value
    ensures name.None? ==> r == Err(NullPointer)
  {
    match name
    case None => Err(NullPointer)
    case Some(n) =>
      match ParseStatus(n)
      case None => Err(IllegalArgument("No enum constant com.example.certificate.domain.model.CertificateStatus." + n))
      case Some(s) => ParseStatusName(s); Ok(s)
  }

  /** `CertificateConverter.toDomain`. */
  function ToDomain(e: Option<CertificateEntity>): (r: Result<Option<Certificate>, Exception>)
    ensures e.None? ==> r == Ok(None)
    ensures e.Some? ==> (r.Ok? <==> StatusValueOf(e.value.status).Ok?)
    ensures r.Ok? && e.Some? ==>
      r.value.Some? && r.value.value.status.Some? &&
      StatusName(r.value.value.status.value) == e.value.status.value
  {
    match e
    case None => Ok(None)
    case Some(row) =>
      match StatusValueOf(row.status)
      case Err(x) => Err(x)
      case Ok(s) =>
        Ok(Some(Certificate(row.id, row.name, row.domain, row.issuer, row.issueDate, row.expiryDate,
                            row.certificateType, Some(s), row.createdAt, row.updatedAt)))
  }

  /** `CertificateConverter.toEntity`: reading the name of a null status
      throws. */
  function ToEntity(c: Option<Certificate>): (r: Result<Option<CertificateEntity>, Exception>)
    ensures c.None? ==> r == Ok(None)
    ensures c.Some? ==> (r.Err? <==> c.value.status.None?)
    ensures r.Err? ==> r.error == NullPointer
    ensures r.Ok? && c.Some? ==> r.value.Some? && r.value.value.status == Some(StatusName(c.value.status.value))
  {
    match c
    case None => Ok(None)
    case Some(x) =>
      if x.status.None? then Err(NullPointer)
      else
        Ok(Some(CertificateEntity(x.id, x.name, x.domain, x.issuer, x.issueDate, x.expiryDate,
                                  x.certificateType, Some(StatusName(x.status.value)), x.createdAt, x.updatedAt)))
  }

  /** Storing a certificate and reading it back gives the same certificate,
      provided it has a status. */
  lemma DomainRoundTrip(c: Certificate)
    requires c.status.Some?
    ensures ToEntity(Some(c)).Ok? && ToDomain(ToEntity(Some(c)).value) == Ok(Some(c))
  {
    ParseStatusName(c.status.value);
  }

  /** A row whose status column names a constant survives the trip through
      the domain unchanged. */
  lemma EntityRoundTrip(e: CertificateEntity)
    requires e.status.Some? && ParseStatus(e.status.value).Some?
    ensures ToDomain(Some(e)).Ok? && ToEntity(ToDomain(Some(e)).value) == Ok(Some(e))
  {
  }

  // ---------------------------------------------------------------------------
  // Service converter
  // ---------------------------------------------------------------------------

  /** `toCreateDomain`: the six request fields, both timestamps `now`, no id
      and no status yet. */
  function ToCreateDomain(dto: Option<CertificateInput>, now: int): (r: Option<Certificate>)
    ensures dto.None? <==> r.None?
    ensures r.Some? ==>
      r.value.id.None? && r.value.status.None? &&
      r.value.createdAt == Some(now) && r.value.updatedAt == r.value.createdAt &&
      Fields(r.value) == dto.value
  {
    match dto
    case None => None
    case Some(d) =>
      Some(Certificate(None, d.name, d.domain, d.issuer, d.issueDate, d.expiryDate, d.certificateType, None, Some(now), Some(now)))
  }

  /** The six user-editable fields of a certificate. */
  function Fields(c: Certificate): CertificateInput {
    CertificateInput(c.name, c.domain, c.issuer, c.issueDate, c.expiryDate, c.certificateType)
  }

  /** A certificate as the API shows it, with its day count. */
  function Present(c: Certificate, today: int): (d: CertificateDto)
    ensures d.daysUntilExpiry == Some(DaysUntilExpiry(c, today)) && d.status == c.status
    ensures d.id == c.id && d.createdAt == c.createdAt && d.updatedAt == c.updatedAt
    ensures CertificateInput(d.name, d.domain, d.issuer, d.issueDate, d.expiryDate, d.certificateType) == Fields(c)
  {
    CertificateDto(c.id, c.name, c.domain, c.issuer, c.issueDate, c.expiryDate, c.certificateType,
                   c.status, Some(DaysUntilExpiry(c, today)), c.createdAt, c.updatedAt)
  }

  /** `toDto(certificate)`: the status is recomputed with the fixed 30-day
      window before it is copied. */
  function ToDto(c: Option<Certificate>, today: int): (r: Option<CertificateDto>)
    ensures c.None? <==> r.None?
    ensures r.Some? ==> r.value.status.Some? && r.value.status == UpdateStatus(c.value, today).status
    ensures r.Some? ==> r.value.daysUntilExpiry == Some(DaysUntilExpiry(c.value, today))
  {
    match c
    case None => None
    case Some(x) => Some(Present(UpdateStatus(x, today), today))
  }

  /** `toDto(certificate, threshold)`: the same with a configurable window. */
  function ToDtoWithin(c: Option<Certificate>, today: int, t: int): (r: Option<CertificateDto>)
    ensures c.None? <==> r.None?
    ensures r.Some? ==> r.value.status == Some(ExpectedStatus(c.value, today, t))
  {
    match c
    case None => None
    case Some(x) => Some(Present(UpdateStatusWithin(x, today, t), today))
  }

  /** The converter's status is the one the threshold rule gives; with the
      default window both forms agree. */
  lemma ToDtoDefaultWindow(c: Certificate, today: int)
    ensures ToDto(Some(c), today) == ToDtoWithin(Some(c), today, DefaultThreshold)
  {
    UpdateStatusIsDefaultWindow(c, today);
  }

  /** A present field replaces the old one, a null field keeps it. */
  function Pick<T>(given: Option<T>, stored: Option<T>): (r: Option<T>)
    ensures given.Some? ==> r == given
    ensures given.None? ==> r == stored
  {
    if given.Some? then given else stored
  }

  /** Each field of `r` is the request's when the request has one, and the
      old value otherwise. */
  predicate Overlaid(r: CertificateInput, request: CertificateInput, stored: CertificateInput) {
    r.name == (if request.name.Some? then request.name else stored.name) &&
    r.domain == (if request.domain.Some? then request.domain else stored.domain) &&
    r.issuer == (if request.issuer.Some? then request.issuer else stored.issuer) &&
    r.issueDate == (if request.issueDate.Some? then request.issueDate else stored.issueDate) &&
    r.expiryDate == (if request.expiryDate.Some? then request.expiryDate else stored.expiryDate) &&
    r.certificateType == (if request.certificateType.Some? then request.certificateType else stored.certificateType)
  }

  /** `mergeUpdateDto`: each present request field replaces the stored
      one; id, status and createdAt are kept, and updatedAt becomes `now`. */
  function MergeUpdateDto(existing: Option<Certificate>, dto: Option<CertificateInput>, now: int): (r: Option<Certificate>)
    ensures existing.None? || dto.None? ==> r == existing
    ensures existing.Some? && dto.Some? ==>
      r.Some? && r.value.id == existing.value.id && r.value.status == existing.value.status &&
      r.value.createdAt == existing.value.createdAt && r.value.updatedAt == Some(now) &&
      Overlaid(Fields(r.value), dto.value, Fields(existing.value))
  {
    if existing.None? || dto.None? then existing
    else
      var c := existing.value;
      var d := dto.value;
      Some(Certificate(c.id, Pick(d.name, c.name), Pick(d.domain, c.domain), Pick(d.issuer, c.issuer),
                       Pick(d.issueDate, c.issueDate), Pick(d.expiryDate, c.expiryDate),
                       Pick(d.certificateType, c.certificateType), c.status, c.createdAt, Some(now)))
  }

  /** Merging the same request twice gives what merging it once gives, up
      to the update time. */
  lemma MergeIdempotent(c: Certificate, d: CertificateInput, now1: int, now2: int)
    ensures var once := MergeUpdateDto(Some(c), Some(d), now1);
      MergeUpdateDto(once, Some(d), now2) == Some(once.value.(updatedAt := Some(now2)))
  {
  }

  /** An empty request changes nothing but the update time; a complete one
      replaces all six fields. */
  lemma MergeExtremes(c: Certificate, d: CertificateInput, now: int)
    ensures MergeUpdateDto(Some(c), Some(CertificateInput(None, None, None, None, None, None)), now) == Some(c.(updatedAt := Some(now)))
    ensures d.name.Some? && d.domain.Some? && d.issuer.Some? && d.issueDate.Some? && d.expiryDate.Some? && d.certificateType.Some? ==>
      Fields(MergeUpdateDto(Some(c), Some(d), now).value) == d
  {
  }
}
