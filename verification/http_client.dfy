/** The frontend's HTTP client: the request interceptor that tags every
    request, the response interceptors that unwrap the backend's
    `{success, data, message}` envelope or turn a failure into exactly one
    error message, and the `http` helpers that build a request config.
    Toasts are returned as the list of messages shown; the clock and the
    random source behind the request id are a parameter. */
module HttpClient {
  import opened Wrappers
  import opened Text
  import opened JsValues

  const RequestIdHeader: string := "X-Request-ID"

  const ForbiddenMessage: string := "没有权限访问此资源"
  const NotFoundMessage: string := "请求的资源不存在"
  const ServerErrorMessage: string := "服务器内部错误"
  const TimeoutMessage: string := "请求超时，请稍后重试"
  const NetworkMessage: string := "网络连接失败，请检查网络设置"
  const DefaultFailureMessage: string := "请求失败"

  /** What a request's promise settles to. */
  datatype Outcome = Fulfilled(value: JsValue) | RejectedWith(reason: Reason)

  /** A rejection: an `Error` built from a message, the interceptor's own
      argument passed through, or the `TypeError` of reading a property of
      null or undefined. */
  datatype Reason = ErrorWith(message: string) | Original(error: HttpError) | NullishRead

  /** The messages shown with `ElMessage.error`, in order, and the outcome. */
  datatype Reply = Reply(shown: seq<JsValue>, outcome: Outcome)

  /** An HTTP response that arrived with an error status. */
  datatype ErrorResponse = ErrorResponse(status: int, data: JsValue)

  /** The error axios hands the error interceptor: the response, if one
      arrived, and the error code. */
  datatype HttpError = HttpError(response: Option<ErrorResponse>, code: JsValue)

  // ---------------------------------------------------------------------------
  // Request interceptor
  // ---------------------------------------------------------------------------

  /** The request interceptor: the headers get a fresh request id. */
  function WithRequestId(headers: map<string, JsValue>, id: string): (r: map<string, JsValue>)
    ensures r.Keys == headers.Keys + {RequestIdHeader}
    ensures r[RequestIdHeader] == Str(id)
    ensures forall k :: k in headers && k != RequestIdHeader ==> r[k] == headers[k]
  {
    headers[RequestIdHeader := Str(id)]
  }

  /** Passing a config through the interceptor again replaces the id and
      changes nothing else. */
  lemma RequestIdReplaced(headers: map<string, JsValue>, first: string, second: string)
    ensures WithRequestId(WithRequestId(headers, first), second) == WithRequestId(headers, second)
  {
  }

  // ---------------------------------------------------------------------------
  // Response interceptors
  // ---------------------------------------------------------------------------

  /** The success-status interceptor applied to the response body. */
  function OnResponse(body: JsValue): (r: Reply)
    ensures Nullish(body) ==> r == Reply([], RejectedWith(NullishRead))
    ensures !Nullish(body) && Truthy(Prop(body, "success")) ==> r == Reply([], Fulfilled(Prop(body, "data")))
    ensures !Nullish(body) && !Truthy(Prop(body, "success")) ==>
      |r.shown| == 1 && Truthy(r.shown[0]) &&
      r.outcome == RejectedWith(ErrorWith(ToJsString(r.shown[0]))) &&
      (Truthy(Prop(body, "message")) ==> r.shown[0] == Prop(body, "message")) &&
      (!Truthy(Prop(body, "message")) ==> r.shown[0] == Str(DefaultFailureMessage))
  {
    if Nullish(body) then Reply([], RejectedWith(NullishRead))
    else if Truthy(Prop(body, "success")) then Reply([], Fulfilled(Prop(body, "data")))
    else
      var message := Or(Prop(body, "message"), Str(DefaultFailureMessage));
      Reply([message], RejectedWith(ErrorWith(ToJsString(message))))
  }

  /** The message for an error status other than 403, 404 and 500. */
  function FallbackMessage(status: int): string {
    "请求失败 (" + IntToString(status) + ")"
  }

  /** The message the error interceptor shows. */
  function ErrorMessage(e: HttpError): (m: JsValue)
    ensures Truthy(m)
    ensures e.response.None? ==> m == Str(if e.code == Str("ECONNABORTED") then TimeoutMessage else NetworkMessage)
    ensures e.response.Some? && e.response.value.status == 403 ==> m == Str(ForbiddenMessage)
    ensures e.response.Some? && e.response.value.status == 404 ==> m == Str(NotFoundMessage)
    ensures e.response.Some? && e.response.value.status == 500 ==> m == Str(ServerErrorMessage)
    ensures e.response.Some? && e.response.value.status !in {403, 404, 500} ==>
      var message := Prop(e.response.value.data, "message");
      m == if Truthy(message) then message else Str(FallbackMessage(e.response.value.status))
  {
    match e.response
    case Some(ErrorResponse(status, data)) =>
      if status == 403 then Str(ForbiddenMessage)
      else if status == 404 then Str(NotFoundMessage)
      else if status == 500 then Str(ServerErrorMessage)
      else Or(Prop(data, "message"), Str(FallbackMessage(status)))
    case None =>
      if e.code == Str("ECONNABORTED") then Str(TimeoutMessage) else Str(NetworkMessage)
  }

  /** The error-status interceptor: exactly one message, then a rejection
      with the very error it was given. */
  function OnError(e: HttpError): (r: Reply)
    ensures |r.shown| == 1 && Truthy(r.shown[0])
    ensures r.outcome == RejectedWith(Original(e))
  {
    Reply([ErrorMessage(e)], RejectedWith(Original(e)))
  }

  /** The five fixed messages are pairwise distinct, none of them is a
      fallback message, and a fallback message names its status. */
  lemma MessagesIdentifyCause(s: int, t: int)
    ensures |{ForbiddenMessage, NotFoundMessage, ServerErrorMessage, TimeoutMessage, NetworkMessage}| == 5
    ensures FallbackMessage(s) !in {ForbiddenMessage, NotFoundMessage, ServerErrorMessage, TimeoutMessage, NetworkMessage}
    ensures FallbackMessage(s) == FallbackMessage(t) ==> s == t
  {
    var f := FallbackMessage(s);
    assert f[..6] == "请求失败 (";
    if FallbackMessage(s) == FallbackMessage(t) {
      var g := FallbackMessage(t);
      assert f[6..|f| - 1] == IntToString(s);
      assert g[6..|g| - 1] == IntToString(t);
      IntToStringInjective(s, t);
    }
  }

  /** For 403, 404 and 500 the body does not matter. */
  lemma FixedStatusIgnoresBody(status: int, d1: JsValue, d2: JsValue, c1: JsValue, c2: JsValue)
    requires status in {403, 404, 500}
    ensures ErrorMessage(HttpError(Some(ErrorResponse(status, d1)), c1))
         == ErrorMessage(HttpError(Some(ErrorResponse(status, d2)), c2))
  {
  }

  /** The worked examples of the interceptor tests. */
  lemma ErrorExamples()
    ensures ErrorMessage(HttpError(Some(ErrorResponse(422, Obj(map[]))), Undefined)) == Str("请求失败 (422)")
    ensures ErrorMessage(HttpError(Some(ErrorResponse(422, Obj(map["message" := Str("请求参数错误")]))), Undefined))
         == Str("请求参数错误")
    ensures OnResponse(Obj(map["success" := Bool(false), "message" := Str("业务错误")]))
         == Reply([Str("业务错误")], RejectedWith(ErrorWith("业务错误")))
  {
    assert IntToString(422) == "422" by {
      assert NatToString(42) == "42" by {
        assert NatToString(4) == "4";
      }
    }
  }

  // ---------------------------------------------------------------------------
  // The `http` helpers
  // ---------------------------------------------------------------------------

  /** A JavaScript default parameter: only an absent (undefined) argument
      takes the default. */
  function Default(v: JsValue, d: JsValue): (r: JsValue)
    ensures !v.Undefined? ==> r == v
    ensures v.Undefined? ==> r == d
  {
    if v.Undefined? then d else v
  }

  /** `{...base, ...config}`: the caller's config is spread last. */
  function WithConfig(base: map<string, JsValue>, config: JsValue): (r: map<string, JsValue>)
    ensures r.Keys == base.Keys + Fields(config).Keys
    ensures forall k :: k in Fields(config) ==> r[k] == Fields(config)[k]
    ensures forall k :: k in base && k !in Fields(config) ==> r[k] == base[k]
  {
    Spread(base, Fields(config))
  }

  /** The config of a method without a body: `get` and `delete`. */
  function Query(verb: string, url: JsValue, params: Option<JsValue>): map<string, JsValue> {
    match params
    case None => map["method" := Str(verb), "url" := url]
    case Some(p) => map["method" := Str(verb), "url" := url, "params" := Default(p, Obj(map[]))]
  }

  /** The config of a method with a body: `post`, `put` and `patch`. */
  function WithBody(verb: string, url: JsValue, data: JsValue): map<string, JsValue> {
    map["method" := Str(verb), "url" := url, "data" := Default(data, Obj(map[]))]
  }

  /** `http.get(url, params, config)`. */
  function HttpGet(url: JsValue, params: JsValue, config: JsValue): (r: map<string, JsValue>)
    ensures "method" in r && r["method"] == if "method" in Fields(config) then Fields(config)["method"] else Str("GET")
    ensures "params" in r && r["params"] == if "params" in Fields(config) then Fields(config)["params"] else Default(params, Obj(map[]))
  {
    WithConfig(Query("GET", url, Some(params)), config)
  }

  /** `http.post(url, data, config)`. */
  function HttpPost(url: JsValue, data: JsValue, config: JsValue): (r: map<string, JsValue>)
    ensures "method" in r && r["method"] == if "method" in Fields(config) then Fields(config)["method"] else Str("POST")
    ensures "data" in r && r["data"] == if "data" in Fields(config) then Fields(config)["data"] else Default(data, Obj(map[]))
  {
    WithConfig(WithBody("POST", url, data), config)
  }

  /** `http.put(url, data, config)`. */
  function HttpPut(url: JsValue, data: JsValue, config: JsValue): (r: map<string, JsValue>)
    ensures "method" in r && r["method"] == if "method" in Fields(config) then Fields(config)["method"] else Str("PUT")
    ensures "data" in r && r["data"] == if "data" in Fields(config) then Fields(config)["data"] else Default(data, Obj(map[]))
  {
    WithConfig(WithBody("PUT", url, data), config)
  }

  /** `http.delete(url, config)`. */
  function HttpDelete(url: JsValue, config: JsValue): (r: map<string, JsValue>)
    ensures "method" in r && r["method"] == if "method" in Fields(config) then Fields(config)["method"] else Str("DELETE")
    ensures "data" !in Fields(config) && "params" !in Fields(config) ==> "data" !in r && "params" !in r
  {
    WithConfig(Query("DELETE", url, None), config)
  }

  /** `http.patch(url, data, config)`. */
  function HttpPatch(url: JsValue, data: JsValue, config: JsValue): (r: map<string, JsValue>)
    ensures "method" in r && r["method"] == if "method" in Fields(config) then Fields(config)["method"] else Str("PATCH")
    ensures "data" in r && r["data"] == if "data" in Fields(config) then Fields(config)["data"] else Default(data, Obj(map[]))
  {
    WithConfig(WithBody("PATCH", url, data), config)
  }

  /** `http.upload(url, formData, onUploadProgress)`: no caller config, so
      the multipart content type always stands. */
  function HttpUpload(url: JsValue, formData: JsValue, onUploadProgress: JsValue): (r: map<string, JsValue>)
    ensures r.Keys == {"method", "url", "data", "headers", "onUploadProgress"}
    ensures r["method"] == Str("POST") && r["data"] == formData
    ensures Prop(r["headers"], "Content-Type") == Str("multipart/form-data")
  {
    map["method" := Str("POST"), "url" := url, "data" := formData,
        "headers" := Obj(map["Content-Type" := Str("multipart/form-data")]),
        "onUploadProgress" := onUploadProgress]
  }

  /** The request `http.download(url, filename, params)` sends. */
  function HttpDownload(url: JsValue, params: JsValue): (r: map<string, JsValue>)
    ensures r.Keys == {"method", "url", "params", "responseType"}
    ensures r["method"] == Str("GET") && r["responseType"] == Str("blob")
    ensures r["params"] == Default(params, Obj(map[]))
  {
    Query("GET", url, Some(params))["responseType" := Str("blob")]
  }

  /** Whatever the helper, a caller's config key overrides the helper's
      own value, and with no config the helper's own values stand. */
  lemma ConfigSpreadLast(url: JsValue, data: JsValue, config: JsValue, k: string)
    requires k in Fields(config)
    ensures HttpGet(url, data, config)[k] == Fields(config)[k]
    ensures HttpPost(url, data, config)[k] == Fields(config)[k]
    ensures HttpPut(url, data, config)[k] == Fields(config)[k]
    ensures HttpDelete(url, config)[k] == Fields(config)[k]
    ensures HttpPatch(url, data, config)[k] == Fields(config)[k]
  {
  }

  /** Without a config the helper's own request stands. */
  lemma NoConfig(base: map<string, JsValue>)
    ensures WithConfig(base, Undefined) == base
  {
    assert Fields(Undefined) == map[];
  }

  /** `get` with only a url asks for empty params. */
  lemma GetDefaults(url: JsValue)
    ensures HttpGet(url, Undefined, Undefined) == map["method" := Str("GET"), "url" := url, "params" := Obj(map[])]
  {
    NoConfig(Query("GET", url, Some(Undefined)));
  }
}
