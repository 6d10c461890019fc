/** The certificate-status service: the status rule applied to one
    certificate, to a list, and to the whole table page by page. */
module StatusService {
  import opened Wrappers
  import opened Certificates

  /** `calculateStatus(certificate, t)`: NORMAL for a null certificate. */
  function CalculateStatus(c: Option<Certificate>, today: int, t: int): (s: Status)
    ensures c.None? ==> s == Normal
    ensures c.Some? ==> UpdateStatusWithin(c.value, today, t).status == Some(s)
  {
    match c
    case None => Normal
    case Some(cert) => ExpectedStatus(cert, today, t)
  }

  /** `bulkCalculateStatus(list, t)`: null and empty lists come back as they
      are; otherwise every element gets its status recomputed, in order. */
  function BulkCalculateStatus(certs: Option<seq<Certificate>>, today: int, t: int): (r: Option<seq<Certificate>>)
    ensures certs.None? ==> r.None?
    ensures certs.Some? ==> r.Some? && |r.value| == |certs.value|
    ensures certs.Some? ==> forall i :: 0 <= i < |certs.value| ==>
      r.value[i].(status := certs.value[i].status) == certs.value[i] &&
      (|certs.value| > 0 ==> StatusConsistent(r.value[i], today, t))
  {
    match certs
    case None => None
    case Some(list) =>
      if |list| == 0 then certs
      else Some(seq(|list|, i requires 0 <= i < |list| => UpdateStatusWithin(list[i], today, t)))
  }

  /** `getDaysUntilExpiry(certificate)`: Long.MAX_VALUE for a null certificate. */
  function ServiceDaysUntilExpiry(c: Option<Certificate>, today: int): (d: int)
    ensures c.None? ==> d == LongMax
    ensures c.Some? ==> d == DaysUntilExpiry(c.value, today)
  {
    match c
    case None => LongMax
    case Some(cert) => DaysUntilExpiry(cert, today)
  }

  /** One call of the repository's `updateStatus(id, status)`. */
  datatype StatusWrite = StatusWrite(id: Option<int>, status: Status)

  /** `selectAllPaged(pageNum, pageSize)` over a table whose rows are `rows`:
      the `pageNum`-th block of `pageSize` rows, empty past the end. */
  function PageOf(rows: seq<Certificate>, pageNum: nat, pageSize: nat): (page: seq<Certificate>)
    requires pageNum >= 1 && pageSize >= 1
    ensures (pageNum - 1) * pageSize >= |rows| <==> |page| == 0
    ensures |page| <= pageSize
  {
    var lo := (pageNum - 1) * pageSize;
    if lo >= |rows| then [] else rows[lo..if lo + pageSize <= |rows| then lo + pageSize else |rows|]
  }

  /** The writes the batch update should make: one per row, in table order,
      carrying the row's recomputed status. */
  function ExpectedWrites(rows: seq<Certificate>, today: int, t: int): (w: seq<StatusWrite>)
    ensures |w| == |rows|
  {
    seq(|rows|, i requires 0 <= i < |rows| => StatusWrite(rows[i].id, ExpectedStatus(rows[i], today, t)))
  }

  /** The number of writes that do not throw. */
  function CountSucceeded(writes: seq<StatusWrite>, failing: set<Option<int>>): (n: nat)
    ensures n <= |writes|
  {
    if |writes| == 0 then 0
    else CountSucceeded(writes[..|writes| - 1], failing) + (if writes[|writes| - 1].id in failing then 0 else 1)
  }

  /** Extending the table prefix by one row extends the expected writes by
      that row's write. */
  lemma ExpectedWritesSnoc(rows: seq<Certificate>, n: nat, today: int, t: int)
    requires n < |rows|
    ensures ExpectedWrites(rows[..n + 1], today, t)
      == ExpectedWrites(rows[..n], today, t) + [StatusWrite(rows[n].id, ExpectedStatus(rows[n], today, t))]
  {
  }

  /** `updateAllCertificateStatus(t)`. Pages 1, 2, ... of `batchSize` rows are
      read until an empty one; every row is written back with its recomputed
      status; a write whose id is in `failing` throws and is skipped. Returns
      the count of successful writes, the writes attempted, and the number of
      page reads: one per non-empty page plus the final empty one. */
  method UpdateAllCertificateStatus(rows: seq<Certificate>, batchSize: nat, today: int, t: int, failing: set<Option<int>>)
    returns (totalUpdated: nat, writes: seq<StatusWrite>, pagesRead: nat)
    requires batchSize >= 1
    ensures writes == ExpectedWrites(rows, today, t)
    ensures totalUpdated == CountSucceeded(writes, failing)
    ensures pagesRead >= 1
    ensures |rows| <= (pagesRead - 1) * batchSize < |rows| + batchSize
  {
    var pageNum: nat := 1;
    var lo: nat := 0;
    totalUpdated := 0;
    writes := [];
    pagesRead := 0;
    while true
      invariant pageNum >= 1 && pagesRead == pageNum - 1
      invariant lo == (pageNum - 1) * batchSize
      invariant lo < |rows| + batchSize
      invariant |writes| == if lo <= |rows| then lo else |rows|
      invariant writes == ExpectedWrites(rows[..|writes|], today, t)
      invariant totalUpdated == CountSucceeded(writes, failing)
      decreases |rows| + batchSize - lo
    {
      var page := PageOf(rows, pageNum, batchSize);
      pagesRead := pagesRead + 1;
      if |page| == 0 {
        break;
      }
      var updated := BulkCalculateStatus(Some(page), today, t).value;
      var j := 0;
      while j < |updated|
        invariant 0 <= j <= |updated| == |page|
        invariant |writes| == lo + j
        invariant writes == ExpectedWrites(rows[..lo + j], today, t)
        invariant totalUpdated == CountSucceeded(writes, failing)
      {
        assert page[j] == rows[lo + j];
        assert ExpectedStatus(updated[j], today, t) == ExpectedStatus(page[j], today, t);
        var w := StatusWrite(updated[j].id, updated[j].status.value);
        ExpectedWritesSnoc(rows, lo + j, today, t);
        var before := writes;
        writes := writes + [w];
        assert writes[..|writes| - 1] == before;
        if w.id !in failing {
          totalUpdated := totalUpdated + 1;
        }
        j := j + 1;
      }
      pageNum := pageNum + 1;
      lo := lo + batchSize;
    }
    assert rows[..|writes|] == rows;
  }
}
