/** The certificate CRUD service over the certificate table, here a map
    from id to certificate with the id the next insert receives. Every
    write recomputes the status with the fixed 30-day window first. The
    monitoring-log calls the service makes are recorded as events. */
module CertificateService {
  import opened Wrappers
  import opened Exceptions
  import opened Certificates
  import opened Text
  import opened Converters
  import Errors

  datatype Table = Table(rows: map<int, Certificate>, nextId: int)

  /** Every stored certificate carries its own key as id, and the next id is
      above all keys. */
  predicate Inv(t: Table) {
    (forall k :: k in t.rows ==> t.rows[k].id == Some(k) && k < t.nextId)
  }

  /** The monitoring-log calls. */
  datatype LogEvent = Created(certificate: Certificate) | Updated(certificate: Certificate) | Deleted(certificate: Certificate)

  /** A call's new table, its result or exception, and the log calls made. */
  datatype Outcome<T> = Outcome(table: Table, result: Result<T, Exception>, events: seq<LogEvent>)

  /** The exception for a missing id. The source passes only the message
      "证书不存在", to a constructor BusinessException does not declare; the
      model takes the constant with that message, CERTIFICATE_NOT_FOUND. */
  const NotFound: Exception := Errors.BusinessOfCode(Errors.CertificateNotFound)

  /** A missing certificate reaches the client as a 400 carrying
      CERTIFICATE_NOT_FOUND and its message. */
  lemma NotFoundResponse()
    ensures var resp := Errors.Handle(Errors.Thrown(NotFound));
      resp.status == 400 && resp.body.code == 10001 && resp.body.message == Some("证书不存在")
  {
  }

  /** `selectById(id)`: a null id finds nothing. */
  function Lookup(t: Table, id: Option<int>): (r: Option<Certificate>)
    ensures r.Some? <==> id.Some? && id.value in t.rows
    ensures r.Some? ==> r.value == t.rows[id.value]
  {
    if id.Some? && id.value in t.rows then Some(t.rows[id.value]) else None
  }

  /** `BeanUtils.copyProperties(dto, certificate, "id", "createdAt",
      "updatedAt")`: the six fields and the status are copied, null or not;
      the day count has no setter on the certificate. */
  function CopyFromDto(dto: CertificateDto, c: Certificate): (r: Certificate)
    ensures r.id == c.id && r.createdAt == c.createdAt && r.updatedAt == c.updatedAt
    ensures Fields(r) == CertificateInput(dto.name, dto.domain, dto.issuer, dto.issueDate, dto.expiryDate, dto.certificateType)
    ensures r.status == dto.status
  {
    c.(name := dto.name, domain := dto.domain, issuer := dto.issuer, issueDate := dto.issueDate,
       expiryDate := dto.expiryDate, certificateType := dto.certificateType, status := dto.status)
  }

  /** The service's own `toDto`: every field copied, plus the day count. The
      status is not recomputed. */
  function ToServiceDto(c: Certificate, today: int): (d: CertificateDto)
    ensures d.status == c.status && d.id == c.id
    ensures d.daysUntilExpiry == Some(DaysUntilExpiry(c, today))
  {
    Present(c, today)
  }

  /** `findById(id)`. */
  function FindById(t: Table, id: Option<int>, today: int): (r: Result<CertificateDto, Exception>)
    ensures r.Err? <==> Lookup(t, id).None?
    ensures r.Err? ==> r.error == NotFound
    ensures r.Ok? ==> r.value == ToServiceDto(t.rows[id.value], today)
  {
    match Lookup(t, id)
    case None => Err(NotFound)
    case Some(c) => Ok(ToServiceDto(c, today))
  }

  /** `create(dto)`: the request's id and timestamps are ignored, the status
      is recomputed, and the insert assigns the next id. The timestamps are
      filled in by the database, outside the model. */
  function Create(t: Table, dto: CertificateDto, today: int): (o: Outcome<CertificateDto>)
    requires Inv(t)
    ensures Inv(o.table) && o.result.Ok?
    ensures o.table.rows.Keys == t.rows.Keys + {t.nextId} && t.nextId !in t.rows
    ensures forall k :: k in t.rows ==> o.table.rows[k] == t.rows[k]
    ensures var c := o.table.rows[t.nextId];
      c.id == Some(t.nextId) && c.createdAt.None? && c.updatedAt.None? &&
      Fields(c) == CertificateInput(dto.name, dto.domain, dto.issuer, dto.issueDate, dto.expiryDate, dto.certificateType) &&
      c.status == UpdateStatus(c, today).status && o.events == [Created(c)] && o.result.value == ToServiceDto(c, today)
  {
    var blank := Certificate(None, None, None, None, None, None, None, None, None, None);
    var c := UpdateStatus(CopyFromDto(dto, blank), today).(id := Some(t.nextId));
    UpdateStatusIdempotent(c.(id := None), today, DefaultThreshold);
    Outcome(Table(t.rows[t.nextId := c], t.nextId + 1), Ok(ToServiceDto(c, today)), [Created(c)])
  }

  /** `update(id, dto)`: a missing id throws and nothing changes; otherwise
      the six fields are overwritten from the request (a null in the request
      clears the field), the status is recomputed and the row is written. */
  function Update(t: Table, id: Option<int>, dto: CertificateDto, today: int): (o: Outcome<CertificateDto>)
    requires Inv(t)
    ensures Inv(o.table)
    ensures o.result.Err? <==> Lookup(t, id).None?
    ensures o.result.Err? ==> o.result.error == NotFound && o.table == t && o.events == []
    ensures o.result.Ok? ==>
      id.Some? && id.value in o.table.rows &&
      var k := id.value;
      var c := o.table.rows[k];
      o.table.rows == t.rows[k := c] && o.table.nextId == t.nextId &&
      c.id == Some(k) && c.createdAt == t.rows[k].createdAt && c.updatedAt == t.rows[k].updatedAt &&
      Fields(c) == CertificateInput(dto.name, dto.domain, dto.issuer, dto.issueDate, dto.expiryDate, dto.certificateType) &&
      c.status == UpdateStatus(c, today).status && o.events == [Updated(c)]
  {
    match Lookup(t, id)
    case None => Outcome(t, Err(NotFound), [])
    case Some(stored) =>
      var c := UpdateStatus(CopyFromDto(dto, stored), today);
      UpdateStatusIdempotent(CopyFromDto(dto, stored), today, DefaultThreshold);
      Outcome(Table(t.rows[id.value := c], t.nextId), Ok(ToServiceDto(c, today)), [Updated(c)])
  }

  /** `delete(id)`: a missing id throws and nothing changes; otherwise that
      row alone is removed. */
  function Delete(t: Table, id: Option<int>): (o: Outcome<()>)
    requires Inv(t)
    ensures Inv(o.table)
    ensures o.result.Err? <==> Lookup(t, id).None?
    ensures o.result.Err? ==> o.result.error == NotFound && o.table == t && o.events == []
    ensures o.result.Ok? ==>
      o.table.rows == t.rows - {id.value} && o.table.nextId == t.nextId && o.events == [Deleted(t.rows[id.value])]
  {
    match Lookup(t, id)
    case None => Outcome(t, Err(NotFound), [])
    case Some(c) => Outcome(Table(t.rows - {id.value}, t.nextId), Ok(()), [Deleted(c)])
  }

  /** Deleting an id and looking it up again finds nothing. */
  lemma DeleteThenFind(t: Table, k: int, today: int)
    requires Inv(t) && k in t.rows
    ensures FindById(Delete(t, Some(k)).table, Some(k), today) == Err(NotFound)
  {
  }

  /** A created certificate can be found under its new id, with the status
      the create call reported. */
  lemma CreateThenFind(t: Table, dto: CertificateDto, today: int)
    requires Inv(t)
    ensures var o := Create(t, dto, today);
      FindById(o.table, Some(t.nextId), today) == o.result
  {
  }

  /** `update` overwrites with nulls, unlike the service converter's merge:
      an update carrying no name clears the stored one. */
  lemma UpdateClearsMissingFields(t: Table, k: int, dto: CertificateDto, today: int)
    requires Inv(t) && k in t.rows && dto.name.None?
    ensures Update(t, Some(k), dto, today).table.rows[k].name.None?
  {
  }

  // ---------------------------------------------------------------------------
  // updateAllCertificateStatus
  // ---------------------------------------------------------------------------

  /** The ids whose status the fixed rule would change. */
  function Stale(t: Table, today: int): (ids: set<int>)
    ensures forall k :: k in ids <==> k in t.rows && UpdateStatus(t.rows[k], today).status != t.rows[k].status
  {
    set k | k in t.rows && UpdateStatus(t.rows[k], today).status != t.rows[k].status
  }

  /** `updateAllCertificateStatus()`: every certificate's status is
      recomputed, and exactly the changed rows are written back. */
  function UpdateAllCertificateStatus(t: Table, today: int): (r: (Table, set<int>))
    requires Inv(t)
    ensures Inv(r.0) && r.0.nextId == t.nextId && r.0.rows.Keys == t.rows.Keys
    ensures r.1 == Stale(t, today)
    ensures forall k :: k in t.rows ==> r.0.rows[k] == UpdateStatus(t.rows[k], today)
  {
    var rows := map k | k in t.rows :: UpdateStatus(t.rows[k], today);
    (Table(rows, t.nextId), Stale(t, today))
  }

  /** A second run on the same day writes nothing. */
  lemma UpdateAllIdempotent(t: Table, today: int)
    requires Inv(t)
    ensures Stale(UpdateAllCertificateStatus(t, today).0, today) == {}
  {
    var t2 := UpdateAllCertificateStatus(t, today).0;
    forall k | k in t2.rows ensures UpdateStatus(t2.rows[k], today).status == t2.rows[k].status {
      UpdateStatusIdempotent(t.rows[k], today, DefaultThreshold);
    }
  }

  /** Rows already consistent with the rule are not written. */
  lemma ConsistentRowsNotWritten(t: Table, today: int, k: int)
    requires Inv(t) && k in t.rows && StatusConsistent(t.rows[k], today, DefaultThreshold)
    ensures k !in UpdateAllCertificateStatus(t, today).1
  {
    UpdateStatusIsDefaultWindow(t.rows[k], today);
  }

  // ---------------------------------------------------------------------------
  // findPage
  // ---------------------------------------------------------------------------

  /** SQL `column LIKE '%keyword%'`: a null column never matches. */
  predicate Like(column: Option<string>, keyword: string) {
    column.Some? && Contains(column.value, keyword)
  }

  /** The `findPage` filter: a keyword with text must occur in the name or
      the domain; a status with text filters only when it names a
      constant, and is otherwise ignored. */
  predicate Matches(c: Certificate, keyword: Option<string>, status: Option<string>) {
    (keyword.Some? && HasText(keyword.value) ==> Like(c.name, keyword.value) || Like(c.domain, keyword.value)) &&
    (status.Some? && HasText(status.value) && ParseStatus(status.value).Some? ==> c.status == ParseStatus(status.value))
  }

  /** `ORDER BY expiry_date ASC`, with a null date first as MySQL orders it. */
  predicate ExpiryLe(a: Certificate, b: Certificate) {
    a.expiryDate.None? || (b.expiryDate.Some? && a.expiryDate.value <= b.expiryDate.value)
  }

  predicate SortedByExpiry(s: seq<Certificate>) {
    forall i, j :: 0 <= i < j < |s| ==> ExpiryLe(s[i], s[j])
  }

  function InsertByExpiry(x: Certificate, sorted: seq<Certificate>): (r: seq<Certificate>)
    requires SortedByExpiry(sorted)
    ensures SortedByExpiry(r)
    ensures multiset(r) == multiset(sorted) + multiset{x}
    ensures |r| == |sorted| + 1
    ensures r[0] == x || (|sorted| > 0 && r[0] == sorted[0])
  {
    if |sorted| == 0 || ExpiryLe(x, sorted[0]) then [x] + sorted
    else
      var rest := InsertByExpiry(x, sorted[1..]);
      assert sorted == [sorted[0]] + sorted[1..];
      [sorted[0]] + rest
  }

  function SortByExpiry(s: seq<Certificate>): (r: seq<Certificate>)
    ensures SortedByExpiry(r)
    ensures multiset(r) == multiset(s)
  {
    if |s| == 0 then []
    else
      assert s == [s[0]] + s[1..];
      InsertByExpiry(s[0], SortByExpiry(s[1..]))
  }

  function FilterMatches(s: seq<Certificate>, keyword: Option<string>, status: Option<string>): (r: seq<Certificate>)
    ensures forall i :: 0 <= i < |r| ==> Matches(r[i], keyword, status)
    ensures forall x :: x in s && Matches(x, keyword, status) ==> multiset(r)[x] == multiset(s)[x]
    ensures multiset(r) <= multiset(s)
  {
    if |s| == 0 then []
    else
      assert s == [s[0]] + s[1..];
      var rest := FilterMatches(s[1..], keyword, status);
      if Matches(s[0], keyword, status) then [s[0]] + rest else rest
  }

  /** `findPage(page, size, keyword, status)` before paging: the matching
      rows ordered by expiry date, as DTOs. Page slicing is the paginator's
      and not modelled. */
  function FindMatching(rows: seq<Certificate>, keyword: Option<string>, status: Option<string>, today: int)
    : (r: seq<CertificateDto>)
    ensures var found := SortByExpiry(FilterMatches(rows, keyword, status));
      |r| == |found| && forall i :: 0 <= i < |r| ==> r[i] == ToServiceDto(found[i], today)
  {
    var found := SortByExpiry(FilterMatches(rows, keyword, status));
    seq(|found|, i requires 0 <= i < |found| => ToServiceDto(found[i], today))
  }

  /** The matches are exactly the rows passing the filter, each as often as
      stored, and in expiry order. */
  lemma FindMatchingSpec(rows: seq<Certificate>, keyword: Option<string>, status: Option<string>)
    ensures var found := SortByExpiry(FilterMatches(rows, keyword, status));
      SortedByExpiry(found) &&
      (forall x :: x in found ==> Matches(x, keyword, status) && x in rows) &&
      (forall x :: x in rows && Matches(x, keyword, status) ==> multiset(found)[x] == multiset(rows)[x])
  {
    var f := FilterMatches(rows, keyword, status);
    var found := SortByExpiry(f);
    forall x | x in found ensures Matches(x, keyword, status) && x in rows {
      assert x in multiset(found);
      assert x in multiset(f);
      assert x in f;
      var i :| 0 <= i < |f| && f[i] == x;
      assert x in multiset(rows);
    }
  }

  /** A status that names no constant filters nothing out. */
  lemma UnknownStatusIgnored(c: Certificate, keyword: Option<string>, status: string)
    requires ParseStatus(status).None?
    ensures Matches(c, keyword, Some(status)) <==> Matches(c, keyword, None)
  {
  }
}
