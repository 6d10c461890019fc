/** URL query synchronisation for the certificate search page: merging
    parameters into the route's query, reading one back, and the search
    page's state (keyword, status filter, page) kept in step with the URL.

    Route query values are strings. The router call is an effect: the model
    returns the navigation it asks for. A rejected navigation is caught and
    logged, so it changes nothing the model sees. */
module UrlSync {
  import opened Wrappers
  import opened Text
  import opened JsText
  import opened JsValues

  type Query = map<string, string>

  datatype Verb = Push | Replace

  /** `router[verb]({ path, query })`. */
  datatype Navigation = Navigation(verb: Verb, path: string, query: Query)

  /** A parameter value that deletes its key: null, undefined or ''. */
  predicate Cleared(v: JsValue) {
    Nullish(v) || v == Str("")
  }

  /** The query `updateUrlParams` builds: a cleared parameter deletes its
      key, any other is written as `String(value)`, and keys not among the
      parameters are kept. */
  function MergeQuery(query: Query, params: map<string, JsValue>): (r: Query)
    ensures forall k :: k in params && Cleared(params[k]) ==> k !in r
    ensures forall k :: k in params && !Cleared(params[k]) ==> k in r && r[k] == ToJsString(params[k])
    ensures forall k :: k !in params ==> (k in r <==> k in query)
    ensures forall k :: k !in params && k in query ==> r[k] == query[k]
  {
    map k | k in query.Keys + params.Keys && !(k in params && Cleared(params[k])) ::
      if k in params then ToJsString(params[k]) else query[k]
  }

  /** Merging the same parameters again changes nothing. */
  lemma MergeQueryIdempotent(query: Query, params: map<string, JsValue>)
    ensures MergeQuery(MergeQuery(query, params), params) == MergeQuery(query, params)
  {
    var once := MergeQuery(query, params);
    var twice := MergeQuery(once, params);
    assert forall k :: k in twice <==> k in once;
  }

  /** `updateUrlParams(params, replace)`. `Object.keys` of null or
      undefined throws, and the catch swallows it: no navigation. */
  function UpdateUrlParams(path: string, query: Query, params: JsValue, replace: bool): (r: Option<Navigation>)
    ensures r.None? <==> Nullish(params)
    ensures r.Some? ==> r.value == Navigation(if replace then Replace else Push, path, MergeQuery(query, Fields(params)))
  {
    if Nullish(params) then None
    else Some(Navigation(if replace then Replace else Push, path, MergeQuery(query, Fields(params))))
  }

  /** `getUrlParam(key, defaultValue)`: `route.query[key] || defaultValue`,
      the default itself defaulting to ''. */
  function GetUrlParam(query: Query, key: string, defaultValue: JsValue): (r: JsValue)
    ensures key in query && query[key] != "" ==> r == Str(query[key])
    ensures !(key in query && query[key] != "") ==> r == (if defaultValue.Undefined? then Str("") else defaultValue)
  {
    var d := if defaultValue.Undefined? then Str("") else defaultValue;
    if key in query && query[key] != "" then Str(query[key]) else d
  }

  /** What a merged parameter reads back as: its text when that is
      non-empty, the default when the parameter cleared the key. */
  lemma ParamReadsBack(query: Query, params: map<string, JsValue>, key: string, d: JsValue)
    requires key in params
    ensures !Cleared(params[key]) && ToJsString(params[key]) != "" ==>
      GetUrlParam(MergeQuery(query, params), key, d) == Str(ToJsString(params[key]))
    ensures Cleared(params[key]) ==>
      GetUrlParam(MergeQuery(query, params), key, d) == (if d.Undefined? then Str("") else d)
  {
  }

  // ---------------------------------------------------------------------------
  // The search page
  // ---------------------------------------------------------------------------

  /** `searchQuery`, `statusFilter` and `currentPage`. */
  datatype Search = Search(searchQuery: string, statusFilter: string, currentPage: int)

  function InitialSearch(): Search {
    Search("", "", 1)
  }

  /** `parseInt(text, 10) || 1`: NaN and 0 both give 1. */
  function PageOf(text: string): (r: int)
    ensures r != 0
    ensures ParseInt(text).Some? && ParseInt(text).value != 0 ==> r == ParseInt(text).value
  {
    match ParseInt(text)
    case Some(n) => if n != 0 then n else 1
    case None => 1
  }

  /** The text of a query key, or `fallback` when it is missing or empty. */
  function QueryText(query: Query, key: string, fallback: string): (r: string)
    ensures GetUrlParam(query, key, Str(fallback)) == Str(r)
  {
    if key in query && query[key] != "" then query[key] else fallback
  }

  /** `initFromUrl()`. */
  function InitFromUrl(query: Query): (r: Search)
    ensures Str(r.searchQuery) == GetUrlParam(query, "search", Str(""))
    ensures Str(r.statusFilter) == GetUrlParam(query, "status", Str(""))
    ensures r.currentPage == PageOf(QueryText(query, "page", "1"))
  {
    Search(QueryText(query, "search", ""), QueryText(query, "status", ""), PageOf(QueryText(query, "page", "1")))
  }

  /** The parameters `syncToUrl` writes: the page only when it is past the
      first. */
  function SyncParams(st: Search): (r: map<string, JsValue>)
    ensures r.Keys == {"search", "status", "page"}
    ensures Cleared(r["page"]) <==> st.currentPage <= 1
  {
    map["search" := Str(st.searchQuery), "status" := Str(st.statusFilter),
        "page" := if st.currentPage > 1 then Num(st.currentPage) else Null]
  }

  /** `syncToUrl()`: a push of the merged query. */
  function SyncToUrl(st: Search, path: string, query: Query): (r: Navigation)
    ensures Some(r) == UpdateUrlParams(path, query, Obj(SyncParams(st)), false)
    ensures r.verb == Push && r.path == path
    ensures "page" in r.query <==> st.currentPage > 1
    ensures forall k :: k !in {"search", "status", "page"} ==> (k in r.query <==> k in query)
    ensures forall k :: k !in {"search", "status", "page"} && k in query ==> r.query[k] == query[k]
  {
    Navigation(Push, path, MergeQuery(query, SyncParams(st)))
  }

  /** What the synced URL holds under each of the three keys. */
  lemma SyncedEntries(st: Search, path: string, query: Query)
    ensures QueryText(SyncToUrl(st, path, query).query, "search", "") == st.searchQuery
    ensures QueryText(SyncToUrl(st, path, query).query, "status", "") == st.statusFilter
    ensures st.currentPage > 1 ==> QueryText(SyncToUrl(st, path, query).query, "page", "1") == IntToString(st.currentPage)
    ensures st.currentPage <= 1 ==> QueryText(SyncToUrl(st, path, query).query, "page", "1") == "1"
  {
    var params := SyncParams(st);
    assert params["search"] == Str(st.searchQuery) && params["status"] == Str(st.statusFilter);
    if st.currentPage > 1 {
      assert params["page"] == Num(st.currentPage);
      assert ToJsString(Num(st.currentPage)) == IntToString(st.currentPage);
      assert IntToString(st.currentPage) != "";
    }
  }

  /** Reading the synced URL back gives the state that wrote it, for any
      page from 1 on; a page below 1 reads back as 1. */
  lemma SyncThenInit(st: Search, path: string, query: Query)
    ensures st.currentPage >= 1 ==> InitFromUrl(SyncToUrl(st, path, query).query) == st
    ensures st.currentPage < 1 ==> InitFromUrl(SyncToUrl(st, path, query).query) == st.(currentPage := 1)
  {
    SyncedEntries(st, path, query);
    ParseIntOfIntToString(1);
    assert IntToString(1) == "1";
    if st.currentPage > 1 {
      ParseIntOfIntToString(st.currentPage);
    }
  }

  /** `updateSearch(query)`: a new keyword returns to the first page. */
  function UpdateSearch(st: Search, text: string, path: string, query: Query): (r: (Search, Navigation))
    ensures r.0 == st.(searchQuery := text, currentPage := 1)
    ensures r.1 == SyncToUrl(r.0, path, query) && "page" !in r.1.query
  {
    var next := st.(searchQuery := text, currentPage := 1);
    (next, SyncToUrl(next, path, query))
  }

  /** `updateStatus(status)`: a new filter returns to the first page. */
  function UpdateStatus(st: Search, status: string, path: string, query: Query): (r: (Search, Navigation))
    ensures r.0 == st.(statusFilter := status, currentPage := 1)
    ensures r.1 == SyncToUrl(r.0, path, query) && "page" !in r.1.query
  {
    var next := st.(statusFilter := status, currentPage := 1);
    (next, SyncToUrl(next, path, query))
  }

  /** `updatePage(page)`. */
  function UpdatePage(st: Search, page: int, path: string, query: Query): (r: (Search, Navigation))
    ensures r.0 == st.(currentPage := page)
    ensures r.1 == SyncToUrl(r.0, path, query)
    ensures "page" in r.1.query <==> page > 1
  {
    var next := st.(currentPage := page);
    (next, SyncToUrl(next, path, query))
  }

  /** `clearSearch()`: the keyword goes, the filter stays. */
  function ClearSearch(st: Search, path: string, query: Query): (r: (Search, Navigation))
    ensures r.0 == Search("", st.statusFilter, 1)
    ensures r.1 == SyncToUrl(r.0, path, query)
    ensures "search" !in r.1.query && "page" !in r.1.query
  {
    var next := st.(searchQuery := "", currentPage := 1);
    (next, SyncToUrl(next, path, query))
  }

  /** `resetParams()`: the URL loses all three keys and keeps the rest. */
  function ResetParams(st: Search, path: string, query: Query): (r: (Search, Navigation))
    ensures r.0 == InitialSearch()
    ensures r.1.query == query - {"search", "status", "page"}
  {
    var next := InitialSearch();
    var nav := SyncToUrl(next, path, query);
    assert nav.query == query - {"search", "status", "page"};
    (next, nav)
  }

  // ---------------------------------------------------------------------------
  // The URL watcher
  // ---------------------------------------------------------------------------

  /** The new value of one watched key, if the watcher reports one: the
      key is present and differs from its old value, an old '' counting as
      missing (`oldValues[index] || undefined`). A key that disappeared is
      reported as undefined, which the callback ignores. */
  function Changed(newQuery: Query, oldQuery: Option<Query>, key: string): (r: Option<string>)
    ensures r.Some? ==> key in newQuery && r.value == newQuery[key]
    ensures key !in newQuery ==> r.None?
    ensures key in newQuery && oldQuery.None? ==> r == Some(newQuery[key])
  {
    var previous := if oldQuery.Some? && key in oldQuery.value && oldQuery.value[key] != "" then Some(oldQuery.value[key]) else None;
    if key in newQuery && Some(newQuery[key]) != previous then Some(newQuery[key]) else None
  }

  /** The watcher's callback on the `search`, `status` and `page` keys;
      `oldQuery` is `None` on the immediate first run. */
  function OnUrlChange(st: Search, newQuery: Query, oldQuery: Option<Query>): (r: Search)
    ensures Changed(newQuery, oldQuery, "search").None? ==> r.searchQuery == st.searchQuery
    ensures Changed(newQuery, oldQuery, "status").None? ==> r.statusFilter == st.statusFilter
    ensures Changed(newQuery, oldQuery, "page").None? ==> r.currentPage == st.currentPage
    ensures Changed(newQuery, oldQuery, "page").Some? ==> r.currentPage == PageOf(newQuery["page"])
  {
    var search := Changed(newQuery, oldQuery, "search");
    var status := Changed(newQuery, oldQuery, "status");
    var page := Changed(newQuery, oldQuery, "page");
    Search(if search.Some? then search.value else st.searchQuery,
           if status.Some? then status.value else st.statusFilter,
           if page.Some? then PageOf(page.value) else st.currentPage)
  }

  /** The watcher's first run over the fresh state agrees with
      `initFromUrl`. */
  lemma FirstRunIsInit(query: Query)
    ensures OnUrlChange(InitialSearch(), query, None) == InitFromUrl(query)
  {
    PageOfDefaults();
  }

  /** The default page text and an empty one both read as page 1. */
  lemma PageOfDefaults()
    ensures PageOf("1") == 1 && PageOf("") == 1
  {
    ParseIntOfIntToString(1);
    assert IntToString(1) == "1";
    assert ParseInt("") == None;
  }

  /** The URL a state syncs to changes nothing when the watcher sees it:
      the page and the state do not chase each other. */
  lemma SyncedUrlIsStable(st: Search, path: string, query: Query, oldQuery: Option<Query>)
    ensures OnUrlChange(st, SyncToUrl(st, path, query).query, oldQuery) == st
  {
    var q := SyncToUrl(st, path, query).query;
    SyncedValues(st, path, query);
    if "page" in q {
      ParseIntOfIntToString(st.currentPage);
      assert PageOf(q["page"]) == st.currentPage;
    }
  }

  /** A key the synced URL holds carries the state's own value. */
  lemma SyncedValues(st: Search, path: string, query: Query)
    ensures var q := SyncToUrl(st, path, query).query;
      ("search" in q ==> q["search"] == st.searchQuery) &&
      ("status" in q ==> q["status"] == st.statusFilter) &&
      ("page" in q ==> st.currentPage > 1 && q["page"] == IntToString(st.currentPage))
  {
    var params := SyncParams(st);
    assert params["search"] == Str(st.searchQuery) && params["status"] == Str(st.statusFilter);
    if st.currentPage > 1 {
      assert params["page"] == Num(st.currentPage);
    }
  }

  /** Removing the keyword from the URL (say, by going back) does not clear
      the search box: a vanished key is reported as undefined and ignored. */
  lemma RemovedKeywordIsKept(st: Search, newQuery: Query, oldQuery: Query)
    requires "search" !in newQuery
    ensures OnUrlChange(st, newQuery, Some(oldQuery)).searchQuery == st.searchQuery
  {
  }
}
