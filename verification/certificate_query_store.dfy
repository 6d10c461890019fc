/** The options-style certificate store: the list, the selected
    certificate, the total and the query parameters, with actions that read
    the raw `{success, data}` envelope, and the two status getters.

    API answers are parameters, as in `CertificateStore`. Nothing is caught
    here: a rejected call or a property read from null propagates, after
    the `finally` has cleared the loading flag. */
module CertificateQueryStore {
  import opened Wrappers
  import opened JsValues

  datatype QueryStore = QueryStore(
    certificates: JsValue,
    current: JsValue,
    loading: bool,
    total: JsValue,
    queryParams: map<string, JsValue>)

  datatype Step = Step(store: QueryStore, result: Completion)

  function Initial(): QueryStore {
    QueryStore(Arr([]), Null, false, Num(0),
      map["page" := Num(1), "size" := Num(20), "keyword" := Str(""), "status" := Str("")])
  }

  /** `res.success` on an envelope that is not null or undefined. */
  predicate Succeeded(res: JsValue) {
    Truthy(Prop(res, "success"))
  }

  /** `fetchCertificates()`, the list API answering `answer` to the current
      query parameters. */
  function FetchCertificates(s: QueryStore, answer: Completion): (r: Step)
    ensures !r.store.loading
    ensures r.store.queryParams == s.queryParams && r.store.current == s.current
    ensures r.store.certificates != s.certificates || r.store.total != s.total ==>
      answer.Returned? && Succeeded(answer.value) && r.result == Returned(Undefined)
    ensures answer.Returned? && !Nullish(answer.value) && Succeeded(answer.value) && !Nullish(Prop(answer.value, "data")) ==>
      r == Step(s.(loading := false,
                   certificates := Prop(Prop(answer.value, "data"), "content"),
                   total := Prop(Prop(answer.value, "data"), "total")),
                Returned(Undefined))
    ensures answer.Returned? && !Nullish(answer.value) && !Succeeded(answer.value) ==>
      r == Step(s.(loading := false), Returned(Undefined))
    ensures answer.Threw? ==> r == Step(s.(loading := false), answer)
  {
    var done := s.(loading := false);
    match answer
    case Threw(_) => Step(done, answer)
    case Returned(res) =>
      if Nullish(res) then Step(done, Threw(TypeError))
      else if !Succeeded(res) then Step(done, Returned(Undefined))
      else
        var data := Prop(res, "data");
        if Nullish(data) then Step(done, Threw(TypeError))
        else Step(done.(certificates := Prop(data, "content"), total := Prop(data, "total")), Returned(Undefined))
  }

  /** `fetchCertificateById(id)`: returns `res.data` whatever `res.success`
      says, but stores it only on success. */
  function FetchCertificateById(s: QueryStore, answer: Completion): (r: Step)
    ensures !r.store.loading
    ensures r.store.current != s.current ==> answer.Returned? && Succeeded(answer.value)
    ensures answer.Returned? && !Nullish(answer.value) ==>
      r.result == Returned(Prop(answer.value, "data")) &&
      r.store == s.(loading := false, current := if Succeeded(answer.value) then Prop(answer.value, "data") else s.current)
  {
    var done := s.(loading := false);
    match answer
    case Threw(_) => Step(done, answer)
    case Returned(res) =>
      if Nullish(res) then Step(done, Threw(TypeError))
      else if Succeeded(res) then Step(done.(current := Prop(res, "data")), Returned(Prop(res, "data")))
      else Step(done, Returned(Prop(res, "data")))
  }

  /** `createCertificate`, `updateCertificate` and `deleteCertificate`: the
      change call, and a refetch only when the envelope reports success.
      The action resolves with the envelope itself. */
  function ChangeThenRefetch(s: QueryStore, changed: Completion, listed: Completion): (r: Step)
    ensures changed.Threw? ==> r == Step(s, changed)
    ensures changed.Returned? && !Nullish(changed.value) && !Succeeded(changed.value) ==> r == Step(s, changed)
    ensures changed.Returned? && !Nullish(changed.value) && Succeeded(changed.value) ==>
      var f := FetchCertificates(s, listed);
      r.store == f.store && r.result == (if f.result.Threw? then f.result else changed)
  {
    match changed
    case Threw(_) => Step(s, changed)
    case Returned(res) =>
      if Nullish(res) then Step(s, Threw(TypeError))
      else if !Succeeded(res) then Step(s, changed)
      else
        var f := FetchCertificates(s, listed);
        Step(f.store, if f.result.Threw? then f.result else changed)
  }

  /** A failed envelope changes nothing, not even the loading flag. */
  lemma FailedChangeLeavesState(s: QueryStore, res: JsValue, listed: Completion)
    requires !Nullish(res) && !Succeeded(res)
    ensures ChangeThenRefetch(s, Returned(res), listed).store == s
  {
  }

  /** `setQueryParams(params)`. */
  function SetQueryParams(s: QueryStore, params: JsValue): (r: QueryStore)
    ensures r.queryParams.Keys == s.queryParams.Keys + Fields(params).Keys
    ensures forall k :: k in Fields(params) ==> r.queryParams[k] == Fields(params)[k]
    ensures forall k :: k in s.queryParams && k !in Fields(params) ==> r.queryParams[k] == s.queryParams[k]
    ensures r.certificates == s.certificates && r.total == s.total && r.current == s.current
  {
    s.(queryParams := Spread(s.queryParams, Fields(params)))
  }

  // ---------------------------------------------------------------------------
  // Getters
  // ---------------------------------------------------------------------------

  /** `state.certificates.filter(c => c.status === status)`; `None` when it
      throws (the list is not an array, or holds null or undefined). */
  function WithStatus(s: QueryStore, status: string): (r: Option<seq<JsValue>>)
    ensures r.Some? <==> s.certificates.Arr? && forall i :: 0 <= i < |s.certificates.items| ==> !Nullish(s.certificates.items[i])
    ensures r.Some? ==> r == Select(s.certificates.items, "status", Str(status), true)
  {
    if s.certificates.Arr? then Select(s.certificates.items, "status", Str(status), true) else None
  }

  /** The `expiringCertificates` getter. */
  function ExpiringCertificates(s: QueryStore): (r: Option<seq<JsValue>>)
    ensures r == WithStatus(s, "EXPIRING_SOON")
  {
    WithStatus(s, "EXPIRING_SOON")
  }

  /** The `expiredCertificates` getter. */
  function ExpiredCertificates(s: QueryStore): (r: Option<seq<JsValue>>)
    ensures r == WithStatus(s, "EXPIRED")
  {
    WithStatus(s, "EXPIRED")
  }

  /** A certificate is in a getter iff it is in the list with that status,
      so no certificate is in both. */
  lemma GettersDisjoint(s: QueryStore, x: JsValue)
    requires s.certificates.Arr? && ExpiringCertificates(s).Some?
    ensures x in ExpiringCertificates(s).value <==> x in s.certificates.items && Prop(x, "status") == Str("EXPIRING_SOON")
    ensures x in ExpiredCertificates(s).value <==> x in s.certificates.items && Prop(x, "status") == Str("EXPIRED")
    ensures !(x in ExpiringCertificates(s).value && x in ExpiredCertificates(s).value)
  {
    SelectMembers(s.certificates.items, "status", Str("EXPIRING_SOON"), true, x);
    SelectMembers(s.certificates.items, "status", Str("EXPIRED"), true, x);
  }

  /** The getters keep the list's order: appending certificates appends to
      each getter's result. */
  lemma GettersKeepOrder(a: seq<JsValue>, b: seq<JsValue>, s: QueryStore)
    requires s.certificates == Arr(a + b)
    ensures ExpiringCertificates(s) ==
      Join(Select(a, "status", Str("EXPIRING_SOON"), true), Select(b, "status", Str("EXPIRING_SOON"), true))
    ensures ExpiredCertificates(s) ==
      Join(Select(a, "status", Str("EXPIRED"), true), Select(b, "status", Str("EXPIRED"), true))
  {
    SelectConcat(a, b, "status", Str("EXPIRING_SOON"), true);
    SelectConcat(a, b, "status", Str("EXPIRED"), true);
  }
}
