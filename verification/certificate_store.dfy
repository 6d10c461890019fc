/** The frontend's certificate store (the Pinia store of the certificate
    pages): the list, the selected certificate, the statistics, the loading
    flag and the pagination, search and sort objects, and the actions that
    call the certificate API and fold its answers into the state.

    An action is a function from the state and the API's answers (each a
    `Completion`: the value it resolved to, or the failure it rejected
    with) to the new state and the action's own completion. Interleavings
    of concurrent actions are not modelled: each action runs to its end. */
module CertificateStore {
  import opened Wrappers
  import opened JsValues

  datatype Store = Store(
    certificates: JsValue,
    current: JsValue,
    statistics: JsValue,
    loading: bool,
    pagination: map<string, JsValue>,
    searchParams: map<string, JsValue>,
    sortConfig: map<string, JsValue>)

  /** A finished action: the state it leaves and how it ended. */
  datatype Step = Step(store: Store, result: Completion)

  function EmptySearch(): map<string, JsValue> {
    map["keyword" := Str(""), "status" := Str(""), "sort" := Str("")]
  }

  /** The state a new store starts in. */
  function Initial(): Store {
    Store(
      Arr([]), Null,
      Obj(map["total" := Num(0), "normal" := Num(0), "expiringSoon" := Num(0), "expired" := Num(0)]),
      false,
      map["page" := Num(1), "size" := Num(20), "total" := Num(0)],
      EmptySearch(),
      map["prop" := Str(""), "order" := Str("")])
  }

  /** `s.current && s.current.id === id`. */
  predicate IsCurrent(s: Store, id: JsValue) {
    Truthy(s.current) && Prop(s.current, "id") == id
  }

  /** The state with the loading flag cleared, as every `finally` leaves it. */
  function Done(s: Store): Store {
    s.(loading := false)
  }

  // ---------------------------------------------------------------------------
  // Fetching
  // ---------------------------------------------------------------------------

  /** The query `fetchCertificateList(params)` sends: page and size, then
      the search parameters, then the caller's params, later keys winning. */
  function FetchQuery(s: Store, params: JsValue): (q: map<string, JsValue>)
    ensures q.Keys == {"page", "size"} + s.searchParams.Keys + Fields(params).Keys
    ensures forall k :: k in Fields(params) ==> q[k] == Fields(params)[k]
    ensures forall k :: k in s.searchParams && k !in Fields(params) ==> q[k] == s.searchParams[k]
    ensures "page" !in s.searchParams && "page" !in Fields(params) ==> q["page"] == Get(s.pagination, "page")
    ensures "size" !in s.searchParams && "size" !in Fields(params) ==> q["size"] == Get(s.pagination, "size")
  {
    Spread(Spread(PageAndSize(s), s.searchParams), Fields(params))
  }

  /** `{page: pagination.page, size: pagination.size}`. */
  function PageAndSize(s: Store): (r: map<string, JsValue>)
    ensures r.Keys == {"page", "size"}
    ensures r["page"] == Get(s.pagination, "page") && r["size"] == Get(s.pagination, "size")
  {
    map["page" := Get(s.pagination, "page"), "size" := Get(s.pagination, "size")]
  }

  /** `fetchCertificateList(params)`, the list API answering `answer` to
      `FetchQuery(s, params)`. */
  function FetchList(s: Store, answer: Completion): (r: Step)
    ensures !r.store.loading
    ensures answer.Threw? ==> r == Step(Done(s), answer)
    ensures answer.Returned? && Nullish(answer.value) ==> r == Step(Done(s), Threw(TypeError))
    ensures answer.Returned? && !Nullish(answer.value) ==>
      r.result == answer &&
      r.store == Done(s).(certificates := Or(Prop(answer.value, "data"), Arr([])),
                          pagination := s.pagination["total" := Or(Prop(answer.value, "total"), Num(0))])
  {
    match answer
    case Threw(_) => Step(Done(s), answer)
    case Returned(result) =>
      if Nullish(result) then Step(Done(s), Threw(TypeError))
      else
        var list := Or(Prop(result, "data"), Arr([]));
        var total := Or(Prop(result, "total"), Num(0));
        Step(Done(s).(certificates := list, pagination := s.pagination["total" := total]), answer)
  }

  /** A fetch that succeeds keeps every key the pagination had and only the
      total changes; a missing list or total becomes `[]` or 0. */
  lemma FetchListFacts(s: Store, result: JsValue)
    requires result.Obj?
    ensures var t := FetchList(s, Returned(result)).store;
      t.pagination.Keys == s.pagination.Keys + {"total"} &&
      (forall k :: k in s.pagination && k != "total" ==> t.pagination[k] == s.pagination[k]) &&
      ("data" !in result.fields ==> t.certificates == Arr([])) &&
      ("total" !in result.fields ==> t.pagination["total"] == Num(0)) &&
      t.current == s.current && t.searchParams == s.searchParams && t.statistics == s.statistics
  {
  }

  /** `fetchCertificateDetail(id)`: the answer becomes the current
      certificate. */
  function FetchDetail(s: Store, answer: Completion): (r: Step)
    ensures !r.store.loading && r.result == answer
    ensures answer.Returned? ==> r.store == Done(s).(current := answer.value)
    ensures answer.Threw? ==> r.store == Done(s)
  {
    match answer
    case Returned(result) => Step(Done(s).(current := result), answer)
    case Threw(_) => Step(Done(s), answer)
  }

  /** `createNewCertificate(data)`: create, then refetch the list with no
      extra params. */
  function Create(s: Store, created: Completion, listed: Completion): (r: Step)
    ensures !r.store.loading
    ensures created.Threw? ==> r == Step(Done(s), created)
    ensures created.Returned? ==>
      var f := FetchList(s, listed);
      r.store == f.store && r.result == (if f.result.Threw? then f.result else created)
  {
    match created
    case Threw(_) => Step(Done(s), created)
    case Returned(_) =>
      var f := FetchList(s, listed);
      Step(Done(f.store), if f.result.Threw? then f.result else created)
  }

  /** `fetchStatistics()`: it does not touch the loading flag. */
  function FetchStatistics(s: Store, answer: Completion): (r: Step)
    ensures r.result == answer
    ensures answer.Returned? ==> r.store == s.(statistics := answer.value)
    ensures answer.Threw? ==> r.store == s
  {
    match answer
    case Returned(result) => Step(s.(statistics := result), answer)
    case Threw(_) => Step(s, answer)
  }

  /** `refreshData()`: both fetches run; the list's failure is reported if
      it fails, else the statistics' failure. */
  function Refresh(s: Store, listed: Completion, stats: Completion): (r: Step)
    ensures r.store.certificates == FetchList(s, listed).store.certificates
    ensures r.store.statistics == FetchStatistics(s, stats).store.statistics
    ensures !r.store.loading
    ensures r.result.Threw? <==> listed.Threw? || stats.Threw? || (listed.Returned? && Nullish(listed.value))
  {
    var f := FetchList(s, listed);
    var g := FetchStatistics(f.store, stats);
    Step(g.store, if f.result.Threw? then f.result else if g.result.Threw? then g.result else Returned(Undefined))
  }

  // ---------------------------------------------------------------------------
  // Update and delete
  // ---------------------------------------------------------------------------

  /** The list after `certificates[index] = result` at the first item whose
      id is `id`; `None` when the search throws. */
  function ReplaceFirst(list: JsValue, id: JsValue, result: JsValue): (r: Option<JsValue>)
    ensures r.Some? ==> r.value.Arr? && list.Arr? && |r.value.items| == |list.items|
    ensures r.None? <==> !list.Arr? || FindIndex(list.items, "id", id).Throws?
  {
    if !list.Arr? then None
    else
      match FindIndex(list.items, "id", id)
      case Throws => None
      case Missing => Some(list)
      case Found(i) => Some(Arr(list.items[i := result]))
  }

  /** Only the first item with the id changes; every other item stays. */
  lemma ReplaceFirstOnlyFirst(items: seq<JsValue>, id: JsValue, result: JsValue)
    requires ReplaceFirst(Arr(items), id, result).Some?
    ensures var after := ReplaceFirst(Arr(items), id, result).value.items;
      forall j :: 0 <= j < |items| ==>
        after[j] == if FindIndex(items, "id", id) == Found(j) then result else items[j]
    ensures (forall j :: 0 <= j < |items| ==> Prop(items[j], "id") != id) ==>
      ReplaceFirst(Arr(items), id, result) == Some(Arr(items))
  {
  }

  /** `updateExistingCertificate(id, data)`. The current certificate is
      replaced before the list is searched, so a search that throws still
      leaves it replaced. */
  function Update(s: Store, id: JsValue, answer: Completion): (r: Step)
    ensures !r.store.loading
    ensures answer.Threw? ==> r == Step(Done(s), answer)
    ensures answer.Returned? ==>
      (r.store.current == if IsCurrent(s, id) then answer.value else s.current) &&
      r.store.statistics == s.statistics && r.store.pagination == s.pagination &&
      r.store.searchParams == s.searchParams && r.store.sortConfig == s.sortConfig
    ensures answer.Returned? ==>
      match ReplaceFirst(s.certificates, id, answer.value)
      case Some(list) => r.store.certificates == list && r.result == answer
      case None => r.store.certificates == s.certificates && r.result == Threw(TypeError)
  {
    match answer
    case Threw(_) => Step(Done(s), answer)
    case Returned(result) =>
      var s1 := if IsCurrent(s, id) then s.(current := result) else s;
      match ReplaceFirst(s.certificates, id, result)
      case None => Step(Done(s1), Threw(TypeError))
      case Some(list) => Step(Done(s1).(certificates := list), answer)
  }

  /** Updating twice with the same answer, whose id is the one updated, is
      updating once. */
  lemma UpdateIdempotent(s: Store, id: JsValue, result: JsValue)
    requires Prop(result, "id") == id && !Nullish(result)
    requires Update(s, id, Returned(result)).result.Returned?
    ensures Update(Update(s, id, Returned(result)).store, id, Returned(result)).store
         == Update(s, id, Returned(result)).store
  {
    var items := s.certificates.items;
    match FindIndex(items, "id", id)
    case Found(i) =>
      var after := items[i := result];
      assert forall j :: 0 <= j < i ==> after[j] == items[j];
      FindIndexPrefix(items, after, id, i);
      assert after[i := result] == after;
    case Missing =>
    case Throws =>
  }

  /** Changing items from `i` on, where item `i` still matches, does not
      change where the search stops. */
  lemma {:induction false} FindIndexPrefix(a: seq<JsValue>, b: seq<JsValue>, id: JsValue, i: nat)
    requires FindIndex(a, "id", id) == Found(i) && |b| == |a|
    requires forall j :: 0 <= j < i ==> b[j] == a[j]
    requires !Nullish(b[i]) && Prop(b[i], "id") == id
    ensures FindIndex(b, "id", id) == Found(i)
    decreases i
  {
    if i > 0 {
      FindIndexPrefix(a[1..], b[1..], id, i - 1);
    }
  }

  /** `removeExistingCertificate(id)`'s filter: the items whose id is not
      `id`; `None` when it throws. */
  function RemoveAll(list: JsValue, id: JsValue): (r: Option<JsValue>)
    ensures r.Some? ==> r.value.Arr? && list.Arr? && Select(list.items, "id", id, false).Some?
    ensures r.None? <==> !list.Arr? || Select(list.items, "id", id, false).None?
  {
    if !list.Arr? then None
    else
      match Select(list.items, "id", id, false)
      case None => None
      case Some(kept) => Some(Arr(kept))
  }

  /** The filter keeps exactly the items with another id, in order, and
      what it drops are the items with that id. */
  lemma RemoveAllFacts(items: seq<JsValue>, id: JsValue, x: JsValue)
    requires RemoveAll(Arr(items), id).Some?
    ensures x in RemoveAll(Arr(items), id).value.items <==> x in items && Prop(x, "id") != id
    ensures |RemoveAll(Arr(items), id).value.items| + |Select(items, "id", id, true).value| == |items|
  {
    SelectMembers(items, "id", id, false, x);
    SelectPartitions(items, "id", id);
  }

  /** `x - 1` on the stored total. */
  function Minus1(v: JsValue): (r: JsValue)
    ensures v.Num? ==> r == Num(v.n - 1)
  {
    match v
    case Num(n) => Num(n - 1)
    case Null => Num(-1)
    case Bool(b) => Num(if b then 0 else -1)
    case _ => Undefined
  }

  /** `removeExistingCertificate(id)`. */
  function Remove(s: Store, id: JsValue, answer: Completion): (r: Step)
    ensures !r.store.loading
    ensures answer.Threw? ==> r == Step(Done(s), answer)
    ensures answer.Returned? && RemoveAll(s.certificates, id).None? ==> r == Step(Done(s), Threw(TypeError))
    ensures answer.Returned? && RemoveAll(s.certificates, id).Some? ==>
      r.result == Returned(Bool(true)) &&
      r.store.certificates == RemoveAll(s.certificates, id).value &&
      r.store.pagination == s.pagination["total" := Minus1(Get(s.pagination, "total"))] &&
      r.store.current == (if IsCurrent(s, id) then Null else s.current) &&
      r.store.statistics == s.statistics && r.store.searchParams == s.searchParams
  {
    match answer
    case Threw(_) => Step(Done(s), answer)
    case Returned(_) =>
      match RemoveAll(s.certificates, id)
      case None => Step(Done(s), Threw(TypeError))
      case Some(list) =>
        var s1 := Done(s).(certificates := list, pagination := s.pagination["total" := Minus1(Get(s.pagination, "total"))]);
        Step(if IsCurrent(s, id) then s1.(current := Null) else s1, Returned(Bool(true)))
  }

  /** A second removal of the same id finds nothing more to drop, yet the
      total goes down once more. */
  lemma RemoveTwice(s: Store, id: JsValue, n: int)
    requires RemoveAll(s.certificates, id).Some? && Get(s.pagination, "total") == Num(n)
    ensures var once := Remove(s, id, Returned(Null)).store;
      var twice := Remove(once, id, Returned(Null)).store;
      twice.certificates == once.certificates && Get(twice.pagination, "total") == Num(n - 2)
  {
    var items := s.certificates.items;
    var kept := Select(items, "id", id, false).value;
    SelectKeepsNone(items, id);
    SelectAllKept(kept, id);
  }

  /** No kept item has the removed id. */
  lemma SelectKeepsNone(items: seq<JsValue>, id: JsValue)
    requires Select(items, "id", id, false).Some?
    ensures forall j :: 0 <= j < |Select(items, "id", id, false).value| ==>
      !Nullish(Select(items, "id", id, false).value[j]) && Prop(Select(items, "id", id, false).value[j], "id") != id
  {
    var kept := Select(items, "id", id, false).value;
    forall j | 0 <= j < |kept| ensures !Nullish(kept[j]) && Prop(kept[j], "id") != id {
      SelectMembers(items, "id", id, false, kept[j]);
      var i :| 0 <= i < |items| && items[i] == kept[j];
    }
  }

  /** Filtering items that all pass keeps them all. */
  lemma {:induction false} SelectAllKept(items: seq<JsValue>, id: JsValue)
    requires forall j :: 0 <= j < |items| ==> !Nullish(items[j]) && Prop(items[j], "id") != id
    ensures Select(items, "id", id, false) == Some(items)
    decreases |items|
  {
    if |items| > 0 {
      SelectAllKept(items[1..], id);
      assert [items[0]] + items[1..] == items;
    }
  }

  // ---------------------------------------------------------------------------
  // Parameter objects
  // ---------------------------------------------------------------------------

  /** `after` is `{...before, ...upd}`: every key of either, the update's
      value winning. */
  predicate Merged(before: map<string, JsValue>, upd: map<string, JsValue>, after: map<string, JsValue>) {
    after.Keys == before.Keys + upd.Keys &&
    (forall k :: k in upd ==> after[k] == upd[k]) &&
    (forall k :: k in before && k !in upd ==> after[k] == before[k])
  }

  /** `updateSearchParams(params)`: only the search object changes. */
  function UpdateSearchParams(s: Store, params: JsValue): (r: Store)
    ensures Merged(s.searchParams, Fields(params), r.searchParams)
    ensures r.(searchParams := s.searchParams) == s
  {
    s.(searchParams := Spread(s.searchParams, Fields(params)))
  }

  /** `updatePagination(params)`: only the pagination object changes. */
  function UpdatePagination(s: Store, params: JsValue): (r: Store)
    ensures Merged(s.pagination, Fields(params), r.pagination)
    ensures r.(pagination := s.pagination) == s
  {
    s.(pagination := Spread(s.pagination, Fields(params)))
  }

  /** `setSortConfig(config)`: only the sort object changes. */
  function SetSortConfig(s: Store, config: JsValue): (r: Store)
    ensures Merged(s.sortConfig, Fields(config), r.sortConfig)
    ensures r.(sortConfig := s.sortConfig) == s
  {
    s.(sortConfig := Spread(s.sortConfig, Fields(config)))
  }

  /** `resetSearchParams()`: clears the search and goes back to page 1,
      keeping the size and the total. */
  function ResetSearchParams(s: Store): (r: Store)
    ensures r.searchParams == EmptySearch()
    ensures r.pagination.Keys == s.pagination.Keys + {"page"} && r.pagination["page"] == Num(1)
    ensures forall k :: k in s.pagination && k != "page" ==> r.pagination[k] == s.pagination[k]
    ensures r.certificates == s.certificates && r.current == s.current && r.sortConfig == s.sortConfig
  {
    s.(searchParams := EmptySearch(), pagination := s.pagination["page" := Num(1)])
  }

  /** `clearCurrentCertificate()`. */
  function ClearCurrent(s: Store): (r: Store)
    ensures !Truthy(r.current) && r == s.(current := Null)
  {
    s.(current := Null)
  }

  /** After a reset the next fetch asks for page 1 with an empty keyword,
      status and sort, whatever was searched before. */
  lemma ResetThenFetch(s: Store)
    ensures var q := FetchQuery(ResetSearchParams(s), Undefined);
      q["page"] == Num(1) && q["keyword"] == Str("") && q["status"] == Str("") && q["sort"] == Str("")
  {
    var r := ResetSearchParams(s);
    var q := FetchQuery(r, Undefined);
    assert Fields(Undefined) == map[];
    assert r.searchParams == EmptySearch();
    assert "page" !in EmptySearch() && "keyword" in EmptySearch() && "status" in EmptySearch() && "sort" in EmptySearch();
    assert Get(r.pagination, "page") == Num(1);
  }

  /** Resetting twice is resetting once. */
  lemma ResetIdempotent(s: Store)
    ensures ResetSearchParams(ResetSearchParams(s)) == ResetSearchParams(s)
  {
    var r := ResetSearchParams(s);
    assert r.pagination["page" := Num(1)] == r.pagination;
  }

  /** Merging the same search params twice is merging them once. */
  lemma SearchMergeIdempotent(s: Store, params: JsValue)
    ensures UpdateSearchParams(UpdateSearchParams(s, params), params) == UpdateSearchParams(s, params)
  {
    SpreadLaws(s.searchParams, Fields(params), map[]);
  }
}
