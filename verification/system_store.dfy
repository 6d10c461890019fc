/** The system store: theme, language, sidebar state, breadcrumbs, user
    settings and a health record. Theme, language, sidebar and settings are
    written through to local storage, modelled as a map from key to string,
    and `initializeSystem` reads them back.

    `JSON.stringify` and `JSON.parse` are parameters: `parse` answers `None`
    where `JSON.parse` throws. The `data-theme` attribute on the document
    element is kept as a field. */
module SystemStore {
  import opened Wrappers
  import opened JsValues

  datatype System = System(
    theme: string,
    language: string,
    sidebarCollapsed: bool,
    breadcrumbs: seq<JsValue>,
    settings: map<string, JsValue>,
    systemHealth: map<string, JsValue>,
    documentTheme: Option<string>,
    storage: Storage)

  const ThemeKey: string := "theme"
  const LanguageKey: string := "language"
  const SidebarKey: string := "sidebarCollapsed"
  const SettingsKey: string := "systemSettings"

  function DefaultSettings(): map<string, JsValue> {
    map["showNotifications" := Bool(true), "autoSave" := Bool(true), "refreshInterval" := Num(30000)]
  }

  /** The store as created, over whatever local storage already holds. */
  function Fresh(storage: Storage): System {
    System("light", "zh-cn", false, [], DefaultSettings(),
      map["status" := Str("healthy"), "lastCheck" := Null, "services" := Obj(map[])],
      None, storage)
  }

  /** The `isDarkTheme` getter. */
  predicate IsDarkTheme(s: System) {
    s.theme == "dark"
  }

  /** `toggleTheme()`: anything but "light" toggles to "light". */
  function ToggleTheme(s: System): (r: System)
    ensures r.theme == (if s.theme == "light" then "dark" else "light")
    ensures IsDarkTheme(r) <==> s.theme == "light"
    ensures r.storage == s.storage[ThemeKey := r.theme] && r.documentTheme == Some(r.theme)
    ensures r.(theme := s.theme, storage := s.storage, documentTheme := s.documentTheme) == s
  {
    SetTheme(s, if s.theme == "light" then "dark" else "light")
  }

  /** On the two themes it knows, toggling twice is the identity. */
  lemma ToggleThemeTwice(s: System)
    requires s.theme == "light" || s.theme == "dark"
    ensures ToggleTheme(ToggleTheme(s)).theme == s.theme
    ensures ToggleTheme(ToggleTheme(s)) == ToggleTheme(ToggleTheme(s)).(theme := s.theme)
  {
  }

  /** `setTheme(newTheme)`. */
  function SetTheme(s: System, newTheme: string): (r: System)
    ensures r.theme == newTheme && r.storage == s.storage[ThemeKey := newTheme] && r.documentTheme == Some(newTheme)
    ensures r.(theme := s.theme, storage := s.storage, documentTheme := s.documentTheme) == s
  {
    s.(theme := newTheme, storage := s.storage[ThemeKey := newTheme], documentTheme := Some(newTheme))
  }

  /** `setLanguage(lang)`. */
  function SetLanguage(s: System, lang: string): (r: System)
    ensures r.language == lang && r.storage == s.storage[LanguageKey := lang]
    ensures r.(language := s.language, storage := s.storage) == s
  {
    s.(language := lang, storage := s.storage[LanguageKey := lang])
  }

  /** `String(b)` of a boolean. */
  function BoolText(b: bool): (r: string)
    ensures r == "true" <==> b
  {
    if b then "true" else "false"
  }

  /** `toggleSidebar()`. */
  function ToggleSidebar(s: System): (r: System)
    ensures r.sidebarCollapsed == !s.sidebarCollapsed
    ensures SidebarKey in r.storage && (r.storage[SidebarKey] == "true" <==> r.sidebarCollapsed)
    ensures r.(sidebarCollapsed := s.sidebarCollapsed, storage := s.storage) == s
  {
    SetSidebarCollapsed(s, !s.sidebarCollapsed)
  }

  /** Toggling the sidebar twice restores the flag. */
  lemma ToggleSidebarTwice(s: System)
    ensures ToggleSidebar(ToggleSidebar(s)).sidebarCollapsed == s.sidebarCollapsed
    ensures ToggleSidebar(ToggleSidebar(s)).(storage := s.storage) == s
  {
  }

  /** `setSidebarCollapsed(collapsed)`. */
  function SetSidebarCollapsed(s: System, collapsed: bool): (r: System)
    ensures r.sidebarCollapsed == collapsed && r.storage == s.storage[SidebarKey := BoolText(collapsed)]
    ensures r.(sidebarCollapsed := s.sidebarCollapsed, storage := s.storage) == s
  {
    s.(sidebarCollapsed := collapsed, storage := s.storage[SidebarKey := BoolText(collapsed)])
  }

  // ---------------------------------------------------------------------------
  // Breadcrumbs
  // ---------------------------------------------------------------------------

  /** `updateBreadcrumbs(list)`. */
  function UpdateBreadcrumbs(s: System, list: seq<JsValue>): (r: System)
    ensures r.breadcrumbs == list && r.(breadcrumbs := s.breadcrumbs) == s
  {
    s.(breadcrumbs := list)
  }

  /** `addBreadcrumb(b)`: `push`. */
  function AddBreadcrumb(s: System, b: JsValue): (r: System)
    ensures |r.breadcrumbs| == |s.breadcrumbs| + 1 && r.breadcrumbs[|s.breadcrumbs|] == b
    ensures r.breadcrumbs[..|s.breadcrumbs|] == s.breadcrumbs
    ensures r.(breadcrumbs := s.breadcrumbs) == s
  {
    s.(breadcrumbs := s.breadcrumbs + [b])
  }

  /** The position `splice(index, 1)` starts at: a negative index counts
      from the end, and both sides are clamped to the array. */
  function SpliceStart(len: nat, index: int): (r: nat)
    ensures r <= len
    ensures 0 <= index <= len ==> r == index
    ensures index < 0 && len + index >= 0 ==> r == len + index
  {
    if index < 0 then (if len + index < 0 then 0 else len + index)
    else if index > len then len
    else index
  }

  /** `removeBreadcrumb(index)`: `splice(index, 1)`, which removes nothing
      when the index is past either end. */
  function RemoveBreadcrumb(s: System, index: int): (r: System)
    ensures -|s.breadcrumbs| <= index < |s.breadcrumbs| ==> |r.breadcrumbs| == |s.breadcrumbs| - 1
    ensures index >= |s.breadcrumbs| ==> r == s
    ensures 0 <= index < |s.breadcrumbs| ==>
      r.breadcrumbs == s.breadcrumbs[..index] + s.breadcrumbs[index + 1..]
    ensures r.(breadcrumbs := s.breadcrumbs) == s
  {
    var i := SpliceStart(|s.breadcrumbs|, index);
    if i < |s.breadcrumbs| then s.(breadcrumbs := s.breadcrumbs[..i] + s.breadcrumbs[i + 1..])
    else s
  }

  /** Removing at index -1 undoes an `addBreadcrumb`, and so does removing
      at the old length. */
  lemma RemoveUndoesAdd(s: System, b: JsValue)
    ensures RemoveBreadcrumb(AddBreadcrumb(s, b), -1) == s
    ensures RemoveBreadcrumb(AddBreadcrumb(s, b), |s.breadcrumbs|) == s
  {
    var t := AddBreadcrumb(s, b);
    assert t.breadcrumbs[..|s.breadcrumbs|] + t.breadcrumbs[|s.breadcrumbs| + 1..] == s.breadcrumbs;
  }

  /** `clearBreadcrumbs()`. */
  function ClearBreadcrumbs(s: System): (r: System)
    ensures r.breadcrumbs == [] && r.(breadcrumbs := s.breadcrumbs) == s
  {
    s.(breadcrumbs := [])
  }

  // ---------------------------------------------------------------------------
  // Settings and health
  // ---------------------------------------------------------------------------

  /** `updateSettings(newSettings)`: merge, then store the merged settings
      as JSON. */
  function UpdateSettings(s: System, newSettings: JsValue, stringify: map<string, JsValue> -> string): (r: System)
    ensures r.settings.Keys == s.settings.Keys + Fields(newSettings).Keys
    ensures forall k :: k in Fields(newSettings) ==> r.settings[k] == Fields(newSettings)[k]
    ensures forall k :: k in s.settings && k !in Fields(newSettings) ==> r.settings[k] == s.settings[k]
    ensures r.storage == s.storage[SettingsKey := stringify(r.settings)]
    ensures r.(settings := s.settings, storage := s.storage) == s
  {
    var merged := Spread(s.settings, Fields(newSettings));
    s.(settings := merged, storage := s.storage[SettingsKey := stringify(merged)])
  }

  /** `updateSystemHealth(healthData)`, with `now` for the ISO timestamp:
      `lastCheck` is always the current time, whatever the data says. */
  function UpdateSystemHealth(s: System, healthData: JsValue, now: string): (r: System)
    ensures "lastCheck" in r.systemHealth && r.systemHealth["lastCheck"] == Str(now)
    ensures forall k :: k in Fields(healthData) && k != "lastCheck" ==> k in r.systemHealth && r.systemHealth[k] == Fields(healthData)[k]
    ensures forall k :: k in s.systemHealth && k !in Fields(healthData) && k != "lastCheck" ==> k in r.systemHealth && r.systemHealth[k] == s.systemHealth[k]
    ensures r.systemHealth.Keys == s.systemHealth.Keys + Fields(healthData).Keys + {"lastCheck"}
    ensures r.(systemHealth := s.systemHealth) == s
  {
    s.(systemHealth := Spread(Spread(s.systemHealth, Fields(healthData)), map["lastCheck" := Str(now)]))
  }

  // ---------------------------------------------------------------------------
  // Restoring from local storage
  // ---------------------------------------------------------------------------

  /** The settings `initializeSystem` ends with, from `current`: the saved
      JSON merged in when it is present, non-empty and parses. */
  function RestoredSettings(current: map<string, JsValue>, saved: Option<string>, parse: string -> Option<JsValue>): (r: map<string, JsValue>)
    ensures saved.None? || saved.value == "" || parse(saved.value).None? ==> r == current
    ensures saved.Some? && saved.value != "" && parse(saved.value).Some? ==> r == Spread(current, Fields(parse(saved.value).value))
  {
    if saved.None? || saved.value == "" then current
    else match parse(saved.value)
      case None => current
      case Some(v) => Spread(current, Fields(v))
  }

  /** A saved theme or language as `initializeSystem` takes it: only when
      it is present and non-empty. */
  function RestoredText(saved: Option<string>, current: string): (r: string)
    ensures saved.Some? && saved.value != "" ==> r == saved.value
    ensures saved.None? || saved.value == "" ==> r == current
  {
    if saved.Some? && saved.value != "" then saved.value else current
  }

  /** The saved sidebar flag: present means true exactly for "true". */
  function RestoredFlag(saved: Option<string>, current: bool): (r: bool)
    ensures saved.Some? ==> (r <==> saved.value == "true")
    ensures saved.None? ==> r == current
  {
    if saved.Some? then saved.value == "true" else current
  }

  /** `initializeSystem()`. A saved theme or language counts only when it
      is non-empty; a saved sidebar flag counts whenever it is present;
      unparseable settings are ignored. Re-saving the theme writes back the
      value just read, so storage is unchanged. */
  function InitializeSystem(s: System, parse: string -> Option<JsValue>): (r: System)
    ensures r.storage == s.storage && r.breadcrumbs == s.breadcrumbs && r.systemHealth == s.systemHealth
    ensures r.theme == RestoredText(Load(s.storage, ThemeKey), s.theme)
    ensures r.documentTheme == (if r.theme == s.theme && !(ThemeKey in s.storage && s.storage[ThemeKey] != "") then s.documentTheme else Some(r.theme))
    ensures r.language == RestoredText(Load(s.storage, LanguageKey), s.language)
    ensures r.sidebarCollapsed == RestoredFlag(Load(s.storage, SidebarKey), s.sidebarCollapsed)
    ensures r.settings == RestoredSettings(s.settings, Load(s.storage, SettingsKey), parse)
  {
    var savedTheme := Load(s.storage, ThemeKey);
    var s1 := if savedTheme.Some? && savedTheme.value != "" then SetTheme(s, savedTheme.value) else s;
    assert s1.storage == s.storage;
    s1.(language := RestoredText(Load(s.storage, LanguageKey), s.language),
        sidebarCollapsed := RestoredFlag(Load(s.storage, SidebarKey), s.sidebarCollapsed),
        settings := RestoredSettings(s.settings, Load(s.storage, SettingsKey), parse))
  }

  /** `resetSystemSettings()`. */
  function ResetSystemSettings(s: System): (r: System)
    ensures r.theme == "light" && r.language == "zh-cn" && !r.sidebarCollapsed && r.settings == DefaultSettings()
    ensures r.storage == s.storage - {ThemeKey, LanguageKey, SidebarKey, SettingsKey}
    ensures r.documentTheme == Some("light")
    ensures r.breadcrumbs == s.breadcrumbs && r.systemHealth == s.systemHealth
  {
    s.(theme := "light", language := "zh-cn", sidebarCollapsed := false, settings := DefaultSettings(),
       storage := s.storage - {ThemeKey, LanguageKey, SidebarKey, SettingsKey},
       documentTheme := Some("light"))
  }

  /** The persisted part of the store is what local storage says it is:
      each value is the saved one when `initializeSystem` would take it,
      and the default otherwise. */
  predicate Mirrored(s: System, parse: string -> Option<JsValue>) {
    && s.theme == RestoredText(Load(s.storage, ThemeKey), "light")
    && s.language == RestoredText(Load(s.storage, LanguageKey), "zh-cn")
    && s.sidebarCollapsed == RestoredFlag(Load(s.storage, SidebarKey), false)
    && s.settings == RestoredSettings(DefaultSettings(), Load(s.storage, SettingsKey), parse)
  }

  /** The persisted fields. */
  function Persisted(s: System): (string, string, bool, map<string, JsValue>) {
    (s.theme, s.language, s.sidebarCollapsed, s.settings)
  }

  /** Loading a fresh store from any storage mirrors that storage, and a
      store that mirrors its storage comes back the same after a reload. */
  lemma ReloadRestores(s: System, parse: string -> Option<JsValue>)
    ensures Mirrored(InitializeSystem(Fresh(s.storage), parse), parse)
    ensures Mirrored(s, parse) ==> Persisted(InitializeSystem(Fresh(s.storage), parse)) == Persisted(s)
  {
  }

  /** JSON that reads back as the object it was written from. */
  predicate FaithfulJson(stringify: map<string, JsValue> -> string, parse: string -> Option<JsValue>, m: map<string, JsValue>) {
    stringify(m) != "" && parse(stringify(m)) == Some(Obj(m))
  }

  /** Writing one key leaves what the others load unchanged. */
  lemma LoadOther(st: Storage, key: string, value: string, other: string)
    requires other != key
    ensures Load(st[key := value], other) == Load(st, other)
    ensures Load(st[key := value], key) == Some(value)
  {
  }

  /** A non-empty theme, and so either toggled theme, keeps the store
      mirrored. */
  lemma ThemeKeepsMirrored(s: System, parse: string -> Option<JsValue>, theme: string)
    requires Mirrored(s, parse) && theme != ""
    ensures Mirrored(SetTheme(s, theme), parse)
    ensures Mirrored(ToggleTheme(s), parse)
  {
    LoadOther(s.storage, ThemeKey, theme, LanguageKey);
    LoadOther(s.storage, ThemeKey, theme, SidebarKey);
    LoadOther(s.storage, ThemeKey, theme, SettingsKey);
    var t := if s.theme == "light" then "dark" else "light";
    LoadOther(s.storage, ThemeKey, t, LanguageKey);
    LoadOther(s.storage, ThemeKey, t, SidebarKey);
    LoadOther(s.storage, ThemeKey, t, SettingsKey);
  }

  /** A non-empty language keeps the store mirrored. */
  lemma LanguageKeepsMirrored(s: System, parse: string -> Option<JsValue>, lang: string)
    requires Mirrored(s, parse) && lang != ""
    ensures Mirrored(SetLanguage(s, lang), parse)
  {
    LoadOther(s.storage, LanguageKey, lang, ThemeKey);
    LoadOther(s.storage, LanguageKey, lang, SidebarKey);
    LoadOther(s.storage, LanguageKey, lang, SettingsKey);
  }

  /** Setting or toggling the sidebar keeps the store mirrored. */
  lemma SidebarKeepsMirrored(s: System, parse: string -> Option<JsValue>, collapsed: bool)
    requires Mirrored(s, parse)
    ensures Mirrored(SetSidebarCollapsed(s, collapsed), parse)
    ensures Mirrored(ToggleSidebar(s), parse)
  {
    LoadOther(s.storage, SidebarKey, BoolText(collapsed), ThemeKey);
    LoadOther(s.storage, SidebarKey, BoolText(collapsed), LanguageKey);
    LoadOther(s.storage, SidebarKey, BoolText(collapsed), SettingsKey);
    LoadOther(s.storage, SidebarKey, BoolText(!s.sidebarCollapsed), ThemeKey);
    LoadOther(s.storage, SidebarKey, BoolText(!s.sidebarCollapsed), LanguageKey);
    LoadOther(s.storage, SidebarKey, BoolText(!s.sidebarCollapsed), SettingsKey);
  }

  /** The reset keeps the store mirrored. */
  lemma ResetKeepsMirrored(s: System, parse: string -> Option<JsValue>)
    ensures Mirrored(ResetSystemSettings(s), parse)
  {
  }

  /** Settings whose JSON reads back keep the store mirrored. So after any
      run of these actions a reload restores what the user last saw. */
  lemma UpdateSettingsKeepsMirrored(s: System, parse: string -> Option<JsValue>, stringify: map<string, JsValue> -> string, newSettings: JsValue)
    requires Mirrored(s, parse)
    requires FaithfulJson(stringify, parse, Spread(s.settings, Fields(newSettings)))
    ensures Mirrored(UpdateSettings(s, newSettings, stringify), parse)
  {
    var merged := Spread(s.settings, Fields(newSettings));
    LoadOther(s.storage, SettingsKey, stringify(merged), ThemeKey);
    LoadOther(s.storage, SettingsKey, stringify(merged), LanguageKey);
    LoadOther(s.storage, SettingsKey, stringify(merged), SidebarKey);
    DefaultsStayUnder(s, parse);
    SpreadAbsorbs(DefaultSettings(), merged);
    var r := UpdateSettings(s, newSettings, stringify);
    assert Load(r.storage, SettingsKey) == Some(stringify(merged));
    assert RestoredSettings(DefaultSettings(), Load(r.storage, SettingsKey), parse) == Spread(DefaultSettings(), merged);
  }

  /** Spreading an object over one whose keys it covers gives that object. */
  lemma SpreadAbsorbs(a: map<string, JsValue>, b: map<string, JsValue>)
    requires a.Keys <= b.Keys
    ensures Spread(a, b) == b
  {
  }

  /** A mirrored store's settings always hold the default keys. */
  lemma DefaultsStayUnder(s: System, parse: string -> Option<JsValue>)
    requires Mirrored(s, parse)
    ensures DefaultSettings().Keys <= s.settings.Keys
  {
  }

  /** Emptying a theme breaks the mirror: the store shows "" but a reload
      shows "light". */
  lemma EmptyThemeNotRestored(s: System, parse: string -> Option<JsValue>)
    ensures SetTheme(s, "").theme == ""
    ensures InitializeSystem(Fresh(SetTheme(s, "").storage), parse).theme == "light"
  {
  }
}
