/** The authentication store: a token mirrored in local storage, the
    current user and a loading flag. API answers are parameters; the calls
    an action makes are reported in order, so that "the logout API is called
    only with a token" can be stated. */
module AuthStore {
  import opened Wrappers
  import opened JsValues

  datatype Auth = Auth(token: JsValue, user: JsValue, isLoading: bool, storage: Storage)

  /** The API calls the store makes. */
  datatype Call = GetCurrentUser | Login | Logout

  datatype Step = Step(store: Auth, result: Completion, calls: seq<Call>)

  const TokenKey: string := "token"

  /** The store as created: `localStorage.getItem('token') || ''`. */
  function Fresh(storage: Storage): (r: Auth)
    ensures r.token == Str(if TokenKey in storage then storage[TokenKey] else "")
    ensures r.user == Null && !r.isLoading && r.storage == storage
  {
    var saved := Load(storage, TokenKey);
    Auth(Str(if saved.Some? then saved.value else ""), Null, false, storage)
  }

  /** The `isAuthenticated` getter: `!!token`. */
  predicate IsAuthenticated(s: Auth) {
    Truthy(s.token)
  }

  /** `handleLogout()`: the logout API is called only with a token, its
      failure is swallowed, and the local state is cleared regardless. */
  function HandleLogout(s: Auth): (r: Step)
    ensures r.calls == (if IsAuthenticated(s) then [Logout] else [])
    ensures r.result == Returned(Undefined)
    ensures !IsAuthenticated(r.store) && r.store.user == Null && TokenKey !in r.store.storage
    ensures r.store.storage == s.storage - {TokenKey} && r.store.isLoading == s.isLoading
  {
    Step(s.(token := Str(""), user := Null, storage := s.storage - {TokenKey}),
         Returned(Undefined),
         if Truthy(s.token) then [Logout] else [])
  }

  /** `fetchUserInfo()`: nothing without a token; the user on success; on
      failure a logout, and null. */
  function FetchUserInfo(s: Auth, answer: Completion): (r: Step)
    ensures !IsAuthenticated(s) ==> r == Step(s, Returned(Null), [])
    ensures IsAuthenticated(s) && answer.Returned? ==>
      r == Step(s.(user := answer.value), answer, [GetCurrentUser])
    ensures IsAuthenticated(s) && answer.Threw? ==>
      r.result == Returned(Null) && r.calls == [GetCurrentUser, Logout] && r.store == HandleLogout(s).store
    ensures r.result.Returned?
  {
    if !Truthy(s.token) then Step(s, Returned(Null), [])
    else match answer
      case Returned(u) => Step(s.(user := u), answer, [GetCurrentUser])
      case Threw(_) =>
        var out := HandleLogout(s);
        Step(out.store, Returned(Null), [GetCurrentUser] + out.calls)
  }

  /** `handleLogin(credentials)`: the token and user of the answer, the
      token also written to storage as `String(result.token)`. A rejected
      call or an answer without properties rethrows and changes only the
      loading flag. */
  function HandleLogin(s: Auth, answer: Completion): (r: Step)
    ensures !r.store.isLoading && r.calls == [Login]
    ensures answer.Threw? ==> r.store == s.(isLoading := false) && r.result == answer
    ensures answer.Returned? && Nullish(answer.value) ==> r.store == s.(isLoading := false) && r.result == Threw(TypeError)
    ensures answer.Returned? && !Nullish(answer.value) ==>
      var res := answer.value;
      r.result == answer &&
      r.store == Auth(Prop(res, "token"), Prop(res, "user"), false, s.storage[TokenKey := ToJsString(Prop(res, "token"))])
  {
    var done := s.(isLoading := false);
    match answer
    case Threw(_) => Step(done, answer, [Login])
    case Returned(res) =>
      if Nullish(res) then Step(done, Threw(TypeError), [Login])
      else
        var token := Prop(res, "token");
        Step(done.(token := token, user := Prop(res, "user"), storage := s.storage[TokenKey := ToJsString(token)]),
             answer, [Login])
  }

  /** `checkAuth()`: fetch the user when there is a token but no user, then
      answer whether a token remains. */
  function CheckAuth(s: Auth, answer: Completion): (r: Step)
    ensures r.result == Returned(Bool(IsAuthenticated(r.store)))
    ensures !(IsAuthenticated(s) && !Truthy(s.user)) ==> r.store == s && r.calls == []
    ensures IsAuthenticated(s) && !Truthy(s.user) ==> r.store == FetchUserInfo(s, answer).store
  {
    if Truthy(s.token) && !Truthy(s.user) then
      var f := FetchUserInfo(s, answer);
      Step(f.store, Returned(Bool(Truthy(f.store.token))), f.calls)
    else Step(s, Returned(Bool(Truthy(s.token))), [])
  }

  /** A failed user lookup logs out: `checkAuth` then answers false. */
  lemma FailedLookupLogsOut(s: Auth, e: Failure)
    requires IsAuthenticated(s) && !Truthy(s.user)
    ensures CheckAuth(s, Threw(e)).result == Returned(Bool(false))
    ensures CheckAuth(s, Threw(e)).calls == [GetCurrentUser, Logout]
  {
  }

  /** `updateUserInfo(info)`: `{...user, ...info}`, an object even when
      there was no user. */
  function UpdateUserInfo(s: Auth, info: JsValue): (r: Auth)
    ensures r.user.Obj?
    ensures forall k :: k in Fields(info) ==> Prop(r.user, k) == Fields(info)[k]
    ensures forall k :: k !in Fields(info) ==> Prop(r.user, k) == Prop(s.user, k)
    ensures r.(user := s.user) == s
  {
    s.(user := Obj(Spread(Fields(s.user), Fields(info))))
  }

  /** Applying the same update twice is applying it once. */
  lemma UpdateUserInfoIdempotent(s: Auth, info: JsValue)
    ensures UpdateUserInfo(UpdateUserInfo(s, info), info) == UpdateUserInfo(s, info)
  {
    SpreadLaws(Fields(s.user), Fields(info), map[]);
  }

  // ---------------------------------------------------------------------------
  // The token and local storage
  // ---------------------------------------------------------------------------

  /** The token is what a reload would read back. */
  predicate Mirrored(s: Auth) {
    s.token == Fresh(s.storage).token
  }

  /** Logging out, fetching the user and checking keep the token
      mirrored, so a reload keeps the session. */
  lemma SessionKeepsMirrored(s: Auth, answer: Completion)
    requires Mirrored(s)
    ensures Mirrored(HandleLogout(s).store)
    ensures Mirrored(FetchUserInfo(s, answer).store)
    ensures Mirrored(CheckAuth(s, answer).store)
  {
  }

  /** A login that fails, or answers a string token, keeps the token
      mirrored. */
  lemma LoginKeepsMirrored(s: Auth, answer: Completion)
    requires Mirrored(s)
    requires answer.Returned? && !Nullish(answer.value) ==> Prop(answer.value, "token").Str?
    ensures Mirrored(HandleLogin(s, answer).store)
  {
  }

  /** An answer without a token leaves the store signed out, but writes the
      text "undefined" to storage, so a reload signs in with that token. */
  lemma LoginWithoutTokenSignsInOnReload(s: Auth, res: JsValue)
    requires res.Obj? && TokenKey !in res.fields
    ensures !IsAuthenticated(HandleLogin(s, Returned(res)).store)
    ensures IsAuthenticated(Fresh(HandleLogin(s, Returned(res)).store.storage))
    ensures Fresh(HandleLogin(s, Returned(res)).store.storage).token == Str("undefined")
  {
  }

  /** Logging out twice calls the API at most once. */
  lemma LogoutOnce(s: Auth)
    ensures |HandleLogout(s).calls| + |HandleLogout(HandleLogout(s).store).calls| <= 1
    ensures HandleLogout(HandleLogout(s).store).store == HandleLogout(s).store
  {
  }
}
