/** The router's navigation guards. Each guard calls `next` exactly once,
    which the model states by returning a single `Next`: go on, or redirect
    to a path. */
module Guards {
  import opened Wrappers
  import opened JsValues
  import AuthStore

  datatype Next = Proceed | Redirect(path: string)

  /** `hasPermission(required, granted)`: nothing required lets anyone
      through; otherwise one shared permission is enough. */
  function HasPermission(required: Option<seq<string>>, granted: Option<seq<string>>): (r: bool)
    ensures required.None? || |required.value| == 0 ==> r
    ensures required.Some? && |required.value| > 0 ==>
      (r <==> granted.Some? && exists i :: 0 <= i < |required.value| && required.value[i] in granted.value)
  {
    if required.None? || |required.value| == 0 then true
    else if granted.None? || |granted.value| == 0 then false
    else exists i :: 0 <= i < |required.value| && required.value[i] in granted.value
  }

  /** More granted permissions never deny a route that fewer allowed. */
  lemma HasPermissionMonotone(required: Option<seq<string>>, fewer: seq<string>, more: seq<string>)
    requires forall p :: p in fewer ==> p in more
    requires HasPermission(required, Some(fewer))
    ensures HasPermission(required, Some(more))
  {
    if required.Some? && |required.value| > 0 {
      var i :| 0 <= i < |required.value| && required.value[i] in fewer;
      assert required.value[i] in more;
    }
  }

  /** `getUserPermissions()`: a fixed list. */
  function UserPermissions(): seq<string> {
    ["certificate:view", "certificate:create", "certificate:update", "certificate:delete",
     "monitoring:view", "monitoring:alert:view", "monitoring:log:view",
     "system:user:view", "system:role:view", "system:setting:view"]
  }

  /** `authGuard`: a route not marked `requiresAuth: false` needs a
      non-empty token in local storage, else it goes to the login page. */
  function AuthGuard(requiresAuth: JsValue, storage: Storage): (r: Next)
    ensures r == Proceed || r == Redirect("/login")
    ensures r == Redirect("/login") <==>
      requiresAuth != Bool(false) && (AuthStore.TokenKey !in storage || storage[AuthStore.TokenKey] == "")
  {
    var token := Load(storage, AuthStore.TokenKey);
    if requiresAuth != Bool(false) && (token.None? || token.value == "") then Redirect("/login")
    else Proceed
  }

  /** The guard lets a protected route through exactly when the auth store,
      loaded from the same storage, is signed in. */
  lemma AuthGuardAgreesWithStore(requiresAuth: JsValue, storage: Storage)
    requires requiresAuth != Bool(false)
    ensures AuthGuard(requiresAuth, storage) == Proceed <==> AuthStore.IsAuthenticated(AuthStore.Fresh(storage))
  {
  }

  /** `permissionGuard`: a route whose permissions the user lacks goes to
      the dashboard. */
  function PermissionGuard(permissions: Option<seq<string>>): (r: Next)
    ensures r == Proceed <==> HasPermission(permissions, Some(UserPermissions()))
    ensures r != Proceed ==> r == Redirect("/dashboard")
  {
    if !HasPermission(permissions, Some(UserPermissions())) then Redirect("/dashboard") else Proceed
  }

  /** With the fixed list, a route needing a certificate permission passes
      and one needing only an unlisted permission does not. */
  lemma PermissionExamples()
    ensures PermissionGuard(Some(["certificate:view"])) == Proceed
    ensures PermissionGuard(Some(["system:admin", "monitoring:view"])) == Proceed
    ensures PermissionGuard(Some(["system:admin"])) == Redirect("/dashboard")
    ensures PermissionGuard(None) == Proceed && PermissionGuard(Some([])) == Proceed
  {
    assert "certificate:view" == UserPermissions()[0];
    assert "monitoring:view" == UserPermissions()[4];
    assert Some(["system:admin", "monitoring:view"]).value[1] in UserPermissions();
  }

  const DefaultAppName: string := "证书生命周期管理系统"

  /** `titleGuard`: the document title, `${title} - ${appName}` when the
      route has a title and the app name alone otherwise; the app name is
      the configured one when that is truthy. */
  function TitleGuard(title: JsValue, configuredName: JsValue): (r: (string, Next))
    ensures r.1 == Proceed
    ensures var appName := if Truthy(configuredName) then ToJsString(configuredName) else DefaultAppName;
      r.0 == (if Truthy(title) then ToJsString(title) + " - " + appName else appName)
  {
    var appName := ToJsString(Or(configuredName, Str(DefaultAppName)));
    (if Truthy(title) then ToJsString(title) + " - " + appName else appName, Proceed)
  }

  /** The title always ends with the app name, and a titled route's title
      starts with its own title. */
  lemma TitleShape(title: string, configuredName: JsValue)
    ensures var appName := if Truthy(configuredName) then ToJsString(configuredName) else DefaultAppName;
      var t := TitleGuard(Str(title), configuredName).0;
      |t| >= |appName| && t[|t| - |appName|..] == appName &&
      (title != "" ==> t[..|title|] == title)
  {
    var appName := if Truthy(configuredName) then ToJsString(configuredName) else DefaultAppName;
    var t := TitleGuard(Str(title), configuredName).0;
    if title != "" {
      assert t == title + " - " + appName;
    } else {
      assert t == appName;
    }
  }
}
