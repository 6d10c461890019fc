/** The certificate repository over the table rows: the status recompute
    and timestamps `save` applies before writing, the sort column and
    direction of the paged queries, the filter conditions they add, and the
    guarded status query. The table is a sequence of rows; the paging and
    the SQL text are not modelled. */
module Repository {
  import opened Wrappers
  import opened Text
  import opened Certificates
  import opened Converters
  import Requests

  // ---------------------------------------------------------------------------
  // save
  // ---------------------------------------------------------------------------

  /** The write `save` makes. */
  datatype Write = Insert(row: CertificateEntity) | UpdateById(row: CertificateEntity)

  /** A row whose status column names a constant, converted back. */
  function RowToDomain(row: CertificateEntity): (c: Certificate)
    requires row.status.Some? && ParseStatus(row.status.value).Some?
    ensures ToDomain(Some(row)) == Ok(Some(c))
    ensures c.status.Some? && StatusName(c.status.value) == row.status.value
  {
    ToDomain(Some(row)).value.value
  }

  /** `save(certificate)`: the status is recomputed and the row built from
      the certificate. A new certificate (no id) is inserted with both
      timestamps `now` and receives the generated id; an existing one is
      updated by id with updatedAt `now`. The row is converted back. */
  function Save(c: Certificate, today: int, now: int, generatedId: int): (r: (Write, Certificate))
    ensures c.id.None? <==> r.0.Insert?
    ensures r.1.status.Some? && r.0.row.status == Some(StatusName(r.1.status.value))
    ensures r.0.Insert? ==> r.0.row.id.None? && r.1.id == Some(generatedId) && r.1.createdAt == Some(now)
    ensures r.0.UpdateById? ==> r.0.row.id == c.id && r.1.id == c.id && r.1.createdAt == c.createdAt
    ensures r.1.updatedAt == Some(now) && r.0.row.updatedAt == Some(now)
    ensures Fields(r.1) == Fields(c) && r.1.status == UpdateStatus(c, today).status
  {
    var u := UpdateStatus(c, today);
    ParseStatusName(u.status.value);
    var e := ToEntity(Some(u)).value.value;
    if c.id.None? then
      var row := e.(createdAt := Some(now), updatedAt := Some(now));
      ParseStatusName(u.status.value);
      (Insert(row), RowToDomain(row.(id := Some(generatedId))))
    else
      var row := e.(updatedAt := Some(now));
      (UpdateById(row), RowToDomain(row))
  }

  /** A saved certificate is consistent with the fixed rule, and saving it
      again on the same day updates it in place without changing its
      status. */
  lemma SaveAgain(c: Certificate, today: int, now1: int, now2: int, id1: int, id2: int)
    ensures var first := Save(c, today, now1, id1).1;
      StatusConsistent(first, today, DefaultThreshold) &&
      var second := Save(first, today, now2, id2);
      second.0.UpdateById? && second.1 == first.(updatedAt := Some(now2))
  {
    var first := Save(c, today, now1, id1).1;
    UpdateStatusIsDefaultWindow(c, today);
    UpdateStatusIsDefaultWindow(first, today);
  }

  // ---------------------------------------------------------------------------
  // Sorting
  // ---------------------------------------------------------------------------

  /** The columns a page can be ordered by. */
  const SortColumns: set<string> := {"name", "domain", "expiry_date", "created_at"}

  /** `convertSortField(sortBy)`: the column of a sort field, created_at for
      any other field. */
  function ConvertSortField(sortBy: string): (column: string)
    ensures column in SortColumns
    ensures sortBy !in Requests.SortFields ==> column == "created_at"
  {
    if sortBy == "name" then "name"
    else if sortBy == "domain" then "domain"
    else if sortBy == "expiryDate" then "expiry_date"
    else "created_at"
  }

  /** The four valid sort fields map to four different columns, so a valid
      field is never confused with another. */
  lemma ConvertSortFieldInjective(a: string, b: string)
    requires a in Requests.SortFields && b in Requests.SortFields
    ensures ConvertSortField(a) == ConvertSortField(b) ==> a == b
  {
  }

  /** `!"DESC".equalsIgnoreCase(sortOrder)`: ascending unless the order is
      DESC in any case; a null order is ascending. */
  function Ascending(sortOrder: Option<string>): (asc: bool)
    ensures sortOrder.None? ==> asc
    ensures sortOrder.Some? ==> (asc <==> ToUpper(sortOrder.value) != "DESC")
  {
    assert ToUpper("DESC") == "DESC";
    !(sortOrder.Some? && EqualsIgnoreCase("DESC", sortOrder.value))
  }

  datatype OrderItem = OrderItem(column: string, asc: bool)

  /** The ordering a paged query adds: one item when the sort field has
      text, none otherwise. */
  function OrderFor(sortBy: Option<string>, sortOrder: Option<string>): (r: Option<OrderItem>)
    ensures r.Some? <==> sortBy.Some? && HasText(sortBy.value)
    ensures r.Some? ==> r.value.column in SortColumns && r.value.asc == Ascending(sortOrder)
  {
    if sortBy.Some? && HasText(sortBy.value) then Some(OrderItem(ConvertSortField(sortBy.value), Ascending(sortOrder)))
    else None
  }

  /** The page request's normalised order and the repository's direction
      agree: ascending exactly when the normalised order is not DESC. */
  lemma AscendingMatchesNormalized(p: Requests.PageRequest)
    requires p.sortOrder.Some?
    ensures Ascending(p.sortOrder) <==> Requests.NormalizedSortOrder(p) != "DESC"
  {
  }

  /** With the default page request the query is ordered by created_at,
      newest first. */
  lemma DefaultPageOrder()
    ensures OrderFor(Requests.DefaultPage.sortBy, Requests.DefaultPage.sortOrder) == Some(OrderItem("created_at", false))
  {
    assert HasText("createdAt") by { assert !IsJavaWhitespace("createdAt"[0]); }
    assert ToUpper("DESC") == "DESC";
  }

  // ---------------------------------------------------------------------------
  // Filters
  // ---------------------------------------------------------------------------

  /** A query condition on the table. */
  datatype Condition =
    | StatusEq(name: string)
    | DomainLike(text: string)
    | IssuerLike(text: string)
    | ExpiryAtLeast(bound: int)
    | ExpiryAtMost(bound: int)

  /** Whether a row satisfies a condition; a null column satisfies none. */
  predicate Selects(cond: Condition, row: CertificateEntity) {
    match cond
    case StatusEq(n) => row.status == Some(n)
    case DomainLike(t) => row.domain.Some? && Contains(row.domain.value, t)
    case IssuerLike(t) => row.issuer.Some? && Contains(row.issuer.value, t)
    case ExpiryAtLeast(b) => row.expiryDate.Some? && row.expiryDate.value >= b
    case ExpiryAtMost(b) => row.expiryDate.Some? && row.expiryDate.value <= b
  }

  predicate SelectsAll(conds: seq<Condition>, row: CertificateEntity) {
    forall i :: 0 <= i < |conds| ==> Selects(conds[i], row)
  }

  /** A condition for each argument that has text. */
  function TextCondition(value: Option<string>, make: string -> Condition): (r: seq<Condition>)
    ensures |r| <= 1
    ensures r != [] <==> value.Some? && HasText(value.value)
    ensures r != [] ==> r[0] == make(value.value)
  {
    if value.Some? && HasText(value.value) then [make(value.value)] else []
  }

  /** The conditions of `findPageWithFilter`. */
  function FilterConditions(status: Option<string>, domain: Option<string>, issuer: Option<string>): (r: seq<Condition>)
    ensures |r| <= 3
  {
    TextCondition(status, n => StatusEq(n)) + TextCondition(domain, t => DomainLike(t)) +
    TextCondition(issuer, t => IssuerLike(t))
  }

  /** A row is selected exactly when it has the requested status and
      contains the requested domain and issuer text, each request that has
      text being applied and each blank or null one ignored. */
  lemma FilterConditionsSelect(status: Option<string>, domain: Option<string>, issuer: Option<string>, row: CertificateEntity)
    ensures SelectsAll(FilterConditions(status, domain, issuer), row) <==>
      (status.Some? && HasText(status.value) ==> row.status == status) &&
      (domain.Some? && HasText(domain.value) ==> row.domain.Some? && Contains(row.domain.value, domain.value)) &&
      (issuer.Some? && HasText(issuer.value) ==> row.issuer.Some? && Contains(row.issuer.value, issuer.value))
  {
    var a := TextCondition(status, n => StatusEq(n));
    var b := TextCondition(domain, t => DomainLike(t));
    var c := TextCondition(issuer, t => IssuerLike(t));
    var all := a + b + c;
    assert SelectsAll(all, row) <==> SelectsAll(a, row) && SelectsAll(b, row) && SelectsAll(c, row) by {
      if SelectsAll(a, row) && SelectsAll(b, row) && SelectsAll(c, row) {
        forall i | 0 <= i < |all| ensures Selects(all[i], row) {
          if i < |a| { assert all[i] == a[i]; }
          else if i < |a| + |b| { assert all[i] == b[i - |a|]; }
          else { assert all[i] == c[i - |a| - |b|]; }
        }
      }
      if SelectsAll(all, row) {
        forall i | 0 <= i < |a| ensures Selects(a[i], row) { assert all[i] == a[i]; }
        forall i | 0 <= i < |b| ensures Selects(b[i], row) { assert all[|a| + i] == b[i]; }
        forall i | 0 <= i < |c| ensures Selects(c[i], row) { assert all[|a| + |b| + i] == c[i]; }
      }
    }
  }

  /** The conditions of `findPageWithQuery` other than its status list:
      the domain and issuer when they have text, and each date bound that
      is given. */
  function QueryConditions(q: Requests.CertificateQueryRequest): (r: seq<Condition>)
    ensures |r| <= 4
  {
    TextCondition(q.domain, t => DomainLike(t)) + TextCondition(q.issuer, t => IssuerLike(t)) +
    (if q.expiryDateFrom.Some? then [ExpiryAtLeast(q.expiryDateFrom.value)] else []) +
    (if q.expiryDateTo.Some? then [ExpiryAtMost(q.expiryDateTo.value)] else [])
  }

  /** A request the query adds a condition for reports that it has filters;
      a request without filters selects every row. */
  lemma QueryConditionsNeedFilters(q: Requests.CertificateQueryRequest)
    ensures QueryConditions(q) != [] ==> Requests.HasFilters(q)
    ensures !Requests.HasFilters(q) ==> QueryConditions(q) == []
  {
  }

  /** An invalid date range selects no row. */
  lemma InvalidRangeSelectsNothing(q: Requests.CertificateQueryRequest, row: CertificateEntity)
    requires !Requests.IsValidDateRange(q)
    ensures !SelectsAll(QueryConditions(q), row)
  {
    var conds := QueryConditions(q);
    var n := |TextCondition(q.domain, t => DomainLike(t)) + TextCondition(q.issuer, t => IssuerLike(t))|;
    assert conds[n] == ExpiryAtLeast(q.expiryDateFrom.value);
    assert conds[n + 1] == ExpiryAtMost(q.expiryDateTo.value);
  }

  // ---------------------------------------------------------------------------
  // findByStatusIn
  // ---------------------------------------------------------------------------

  /** Whether a row's status column names one of `statuses`. */
  predicate StatusIn(row: CertificateEntity, statuses: seq<Status>) {
    row.status.Some? && ParseStatus(row.status.value).Some? && ParseStatus(row.status.value).value in statuses
  }

  /** `status IN (names)` with the names of `statuses`: a row matches
      exactly when its status column is the name of one of them. */
  lemma StatusInIffName(row: CertificateEntity, statuses: seq<Status>)
    ensures StatusIn(row, statuses) <==> exists s :: s in statuses && row.status == Some(StatusName(s))
  {
    if exists s :: s in statuses && row.status == Some(StatusName(s)) {
      var s :| s in statuses && row.status == Some(StatusName(s));
      ParseStatusName(s);
    }
  }

  /** The matching rows, converted, in table order. */
  function RowsWithStatusIn(rows: seq<CertificateEntity>, statuses: seq<Status>): (r: seq<Certificate>)
    ensures |r| <= |rows|
    ensures forall i :: 0 <= i < |r| ==> r[i].status.Some? && r[i].status.value in statuses
    decreases |rows|
  {
    if |rows| == 0 then []
    else
      (if StatusIn(rows[0], statuses) then [RowToDomain(rows[0])] else []) + RowsWithStatusIn(rows[1..], statuses)
  }

  /** `findByStatusIn(statusList)`: an empty or null list answers empty
      without a query. The result says whether the table was queried. */
  function FindByStatusIn(statusList: Option<seq<Status>>, rows: seq<CertificateEntity>): (r: (bool, seq<Certificate>))
    ensures r.0 <==> statusList.Some? && |statusList.value| > 0
    ensures !r.0 ==> r.1 == []
    ensures r.0 ==> forall i :: 0 <= i < |r.1| ==> r.1[i].status.Some? && r.1[i].status.value in statusList.value
  {
    if statusList.None? || |statusList.value| == 0 then (false, [])
    else (true, RowsWithStatusIn(rows, statusList.value))
  }

  /** Every matching row is found. */
  lemma {:induction false} FindByStatusInComplete(rows: seq<CertificateEntity>, statuses: seq<Status>, k: int)
    requires 0 <= k < |rows| && StatusIn(rows[k], statuses)
    ensures RowToDomain(rows[k]) in RowsWithStatusIn(rows, statuses)
    decreases |rows|
  {
    if k > 0 {
      assert rows[1..][k - 1] == rows[k];
      FindByStatusInComplete(rows[1..], statuses, k - 1);
    }
  }
}
