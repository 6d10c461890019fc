/** The request objects of the certificate API: paging and sorting
    parameters, the certificate query filters, and the validator that
    requires a certificate's issue date to come before its expiry date.
    Dates are instants (integers), compared as `Date.before`/`after` do. */
module Requests {
  import opened Wrappers
  import opened Text
  import opened Certificates
  import Converters

  // ---------------------------------------------------------------------------
  // PageRequest
  // ---------------------------------------------------------------------------

  datatype PageRequest = PageRequest(pageNum: int, pageSize: int, sortBy: Option<string>, sortOrder: Option<string>)

  /** The field initialisers. */
  const DefaultPage: PageRequest := PageRequest(1, 10, Some("createdAt"), Some("DESC"))

  const MaxPageSize: int := 100

  /** The `@Min`/`@Max` constraints on the page number and size. */
  predicate PageBoundsOk(p: PageRequest) {
    1 <= p.pageNum && 1 <= p.pageSize <= MaxPageSize
  }

  /** The fields a page may be sorted by. */
  const SortFields: set<string> := {"name", "domain", "expiryDate", "createdAt"}

  /** `isValidSortField()`. */
  function IsValidSortField(p: PageRequest): (b: bool)
    ensures b <==> p.sortBy.Some? && p.sortBy.value in SortFields
  {
    match p.sortBy
    case None => false
    case Some(f) => f == "name" || f == "domain" || f == "expiryDate" || f == "createdAt"
  }

  /** `isValidSortOrder()`. */
  function IsValidSortOrder(p: PageRequest): (b: bool)
    ensures b ==> p.sortOrder.Some?
  {
    match p.sortOrder
    case None => false
    case Some(o) => EqualsIgnoreCase("ASC", o) || EqualsIgnoreCase("DESC", o)
  }

  /** `getNormalizedSortOrder()`. */
  function NormalizedSortOrder(p: PageRequest): (r: string)
    ensures p.sortOrder.None? ==> r == "DESC"
    ensures p.sortOrder.Some? ==> |r| == |p.sortOrder.value|
  {
    match p.sortOrder
    case None => "DESC"
    case Some(o) => ToUpper(o)
  }

  lemma UpperCharIdempotent(c: char)
    ensures UpperChar(UpperChar(c)) == UpperChar(c)
  {
  }

  /** Normalising an already normalised order changes nothing. */
  lemma NormalizeIdempotent(p: PageRequest)
    ensures var q := p.(sortOrder := Some(NormalizedSortOrder(p)));
      NormalizedSortOrder(q) == NormalizedSortOrder(p)
  {
    var n := NormalizedSortOrder(p);
    var q := p.(sortOrder := Some(n));
    forall i | 0 <= i < |n| ensures ToUpper(n)[i] == n[i] {
      if p.sortOrder.Some? {
        UpperCharIdempotent(p.sortOrder.value[i]);
      }
    }
  }

  /** A valid sort order normalises to ASC or DESC, and an order that
      normalises to one of them is valid. */
  lemma ValidSortOrderNormalizes(p: PageRequest)
    ensures IsValidSortOrder(p) <==> p.sortOrder.Some? && NormalizedSortOrder(p) in {"ASC", "DESC"}
  {
    assert ToUpper("ASC") == "ASC";
    assert ToUpper("DESC") == "DESC";
  }

  /** The defaults are within bounds and sort by a valid field and order. */
  lemma DefaultPageValid()
    ensures PageBoundsOk(DefaultPage) && IsValidSortField(DefaultPage) && IsValidSortOrder(DefaultPage)
    ensures NormalizedSortOrder(DefaultPage) == "DESC"
  {
    assert ToUpper("DESC") == "DESC";
  }

  // ---------------------------------------------------------------------------
  // CertificateQueryRequest
  // ---------------------------------------------------------------------------

  datatype CertificateQueryRequest = CertificateQueryRequest(
    page: PageRequest,
    status: Option<string>,
    domain: Option<string>,
    issuer: Option<string>,
    expiryDateFrom: Option<int>,
    expiryDateTo: Option<int>)

  /** `isValidDateRange()`: a missing bound is not checked, and equal bounds
      are a valid range. */
  function IsValidDateRange(q: CertificateQueryRequest): (b: bool)
    ensures q.expiryDateFrom.Some? && q.expiryDateTo.Some? ==> (b <==> q.expiryDateFrom.value <= q.expiryDateTo.value)
    ensures q.expiryDateFrom.None? || q.expiryDateTo.None? ==> b
  {
    if q.expiryDateFrom.None? || q.expiryDateTo.None? then true
    else !(q.expiryDateFrom.value > q.expiryDateTo.value)
  }

  /** `hasFilters()`: some filter is given, even a blank one. */
  function HasFilters(q: CertificateQueryRequest): (b: bool)
    ensures !b ==> q == CertificateQueryRequest(q.page, None, None, None, None, None)
  {
    q.status.Some? || q.domain.Some? || q.issuer.Some? || q.expiryDateFrom.Some? || q.expiryDateTo.Some?
  }

  /** A request without filters has an unchecked, and so valid, date range. */
  lemma NoFiltersValidRange(q: CertificateQueryRequest)
    requires !HasFilters(q)
    ensures IsValidDateRange(q)
  {
  }

  /** The `@Pattern` on the status: one of the three constant names. */
  predicate StatusAllowed(s: string) {
    s == "NORMAL" || s == "EXPIRING_SOON" || s == "EXPIRED"
  }

  /** The allowed status strings are exactly the names of the constants. */
  lemma StatusAllowedIffName(s: string)
    ensures StatusAllowed(s) <==> exists st: Status :: StatusName(st) == s
  {
    if s == "NORMAL" {
      assert StatusName(Normal) == s;
    } else if s == "EXPIRING_SOON" {
      assert StatusName(ExpiringSoon) == s;
    } else if s == "EXPIRED" {
      assert StatusName(Expired) == s;
    }
  }

  /** The request's Bean Validation constraints: a null field passes, the
      status must be a constant name, the domain at most 255 chars and the
      issuer at most 100. */
  predicate QueryConstraintsOk(q: CertificateQueryRequest) {
    PageBoundsOk(q.page) &&
    (q.status.Some? ==> StatusAllowed(q.status.value)) &&
    (q.domain.Some? ==> |q.domain.value| <= 255) &&
    (q.issuer.Some? ==> |q.issuer.value| <= 100)
  }

  // ---------------------------------------------------------------------------
  // ValidDateRangeValidator
  // ---------------------------------------------------------------------------

  /** A field as reflection reads it: a `Date`, null, or a value of some
      other type, whose cast to `Date` throws. */
  datatype FieldValue = DateField(instant: int) | NullField | OtherField

  /** An object's fields by name. */
  type FieldMap = map<string, FieldValue>

  const DefaultIssueDateField: string := "issueDate"
  const DefaultExpiryDateField: string := "expiryDate"

  /** `isValid(value, context)`: a null object, a missing field, a null
      date and any reflection or cast failure all pass; otherwise the issue
      date must be strictly before the expiry date. */
  function IsValidObject(value: Option<FieldMap>, issueField: string, expiryField: string): (b: bool)
    ensures !b <==>
      value.Some? && issueField in value.value && expiryField in value.value &&
      value.value[issueField].DateField? && value.value[expiryField].DateField? &&
      value.value[issueField].instant >= value.value[expiryField].instant
  {
    match value
    case None => true
    case Some(fields) =>
      if issueField !in fields || expiryField !in fields then true
      else
        var issue := fields[issueField];
        var expiry := fields[expiryField];
        if issue.OtherField? || expiry.OtherField? then true
        else if issue.NullField? || expiry.NullField? then true
        else issue.instant < expiry.instant
  }

  function DateFieldOf(d: Option<int>): FieldValue {
    match d
    case None => NullField
    case Some(t) => DateField(t)
  }

  /** The create and update requests as the validator sees them. */
  function InputFields(dto: Converters.CertificateInput): FieldMap {
    map[DefaultIssueDateField := DateFieldOf(dto.issueDate), DefaultExpiryDateField := DateFieldOf(dto.expiryDate)]
  }

  /** On a create or update request the validator rejects exactly the
      requests with both dates whose issue date is not before the expiry
      date. */
  lemma InputValidIff(dto: Converters.CertificateInput)
    ensures IsValidObject(Some(InputFields(dto)), DefaultIssueDateField, DefaultExpiryDateField) <==>
      dto.issueDate.None? || dto.expiryDate.None? || dto.issueDate.value < dto.expiryDate.value
  {
  }

  /** The validator is stricter than the query's range check: a pair it
      accepts is a valid range, but equal dates are a valid range it
      rejects. */
  lemma ValidatorStricterThanRange(q: CertificateQueryRequest, t: int)
    ensures q.expiryDateFrom.Some? && q.expiryDateTo.Some? ==>
      var dates := map["issueDate" := DateField(q.expiryDateFrom.value), "expiryDate" := DateField(q.expiryDateTo.value)];
      (IsValidObject(Some(dates), DefaultIssueDateField, DefaultExpiryDateField) ==> IsValidDateRange(q))
    ensures IsValidDateRange(q.(expiryDateFrom := Some(t), expiryDateTo := Some(t)))
    ensures !IsValidObject(Some(map["issueDate" := DateField(t), "expiryDate" := DateField(t)]),
                           DefaultIssueDateField, DefaultExpiryDateField)
  {
  }
}
