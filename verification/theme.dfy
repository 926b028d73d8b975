/** The theme provider (theme/ThemeContext.tsx): the light / dark / system
    preference, the dark-mode flag derived from it and from the system colour
    scheme, and the preference's persistence under its own key. The system
    scheme (`useColorScheme()`) is an input; the effect that follows it is one
    atomic step. */
module Theme {
  import opened Wrappers
  import Storage

  datatype ThemePreference = Light | Dark | System

  /** What `useColorScheme()` reports: 'light', 'dark', or nothing. */
  datatype ColorScheme = SchemeLight | SchemeDark | SchemeUnknown

  /** A colour palette. */
  datatype Palette = Palette(background: string, text: string, primary: string, secondary: string, border: string)

  const LightTheme := Palette("#ffffff", "#000000", "#007AFF", "#f2f2f2", "#e1e1e1")
  const DarkTheme := Palette("#000000", "#ffffff", "#007AFF", "#1c1c1e", "#38383a")

  /** The string a preference is written as. */
  function PreferenceName(p: ThemePreference): string {
    match p
    case Light => "light"
    case Dark => "dark"
    case System => "system"
  }

  /** `isValidThemePreference`: one of the three preference strings. */
  predicate IsValidThemePreference(value: string): (b: bool)
    ensures b <==> exists p :: PreferenceName(p) == value
  {
    assert PreferenceName(Light) == "light" && PreferenceName(Dark) == "dark" && PreferenceName(System) == "system";
    value in ["light", "dark", "system"]
  }

  /** The preference a valid string names. */
  function ParsePreference(value: string): (r: Option<ThemePreference>)
    ensures r.Some? <==> IsValidThemePreference(value)
    ensures r.Some? ==> PreferenceName(r.value) == value
  {
    if value == "light" then Some(Light)
    else if value == "dark" then Some(Dark)
    else if value == "system" then Some(System)
    else None
  }

  /** Every preference's name is valid and reads back as that preference. */
  lemma ParsePreferenceName(p: ThemePreference)
    ensures IsValidThemePreference(PreferenceName(p))
    ensures ParsePreference(PreferenceName(p)) == Some(p)
  {
  }

  /** The cycle of `toggleTheme()` without an argument: system, light, dark, system. */
  function NextPreference(p: ThemePreference): (q: ThemePreference)
    ensures q != p
    ensures p == System ==> q == Light
    ensures p == Light ==> q == Dark
  {
    match p
    case System => Light
    case Light => Dark
    case Dark => System
  }

  /** Three toggles come back to the start, and every preference is reached. */
  lemma ThreeTogglesReturn(p: ThemePreference)
    ensures NextPreference(NextPreference(NextPreference(p))) == p
    ensures {p, NextPreference(p), NextPreference(NextPreference(p))} == {Light, Dark, System}
  {
  }

  /** Dark mode for a preference: an explicit choice decides it, "system" follows the scheme. */
  function DarkModeFor(p: ThemePreference, scheme: ColorScheme): (dark: bool)
    ensures p != System ==> (dark <==> p == Dark)
    ensures p == System ==> (dark <==> scheme == SchemeDark)
  {
    if p == System then scheme == SchemeDark else p == Dark
  }

  /** The stored preference, if the read succeeds and the stored text is a
      non-empty valid preference string; any other value is ignored. */
  function StoredPreference(m: Storage.KeyValue, readFails: bool): (r: Option<ThemePreference>)
    ensures r.Some? ==> !readFails && Storage.ThemePreferenceKey in m
                        && m[Storage.ThemePreferenceKey] == Storage.Raw(PreferenceName(r.value))
    ensures forall p ::
              (!readFails && Storage.ThemePreferenceKey in m
               && m[Storage.ThemePreferenceKey] == Storage.Raw(PreferenceName(p))) ==> r == Some(p)
  {
    if readFails || Storage.ThemePreferenceKey !in m then None
    else match m[Storage.ThemePreferenceKey]
      case Raw(s) => if s != "" && IsValidThemePreference(s) then ParsePreference(s) else None
      case _ => None
  }

  class ThemeProvider {
    const store: Storage.LocalStorage
    var systemColorScheme: ColorScheme
    var isDarkMode: bool
    var themePreference: ThemePreference

    /** Dark mode agrees with the preference and the system scheme. */
    ghost predicate Consistent()
      reads this
    {
      isDarkMode == DarkModeFor(themePreference, systemColorScheme)
    }

    /** The initial state: preference "system", dark mode from the scheme. */
    constructor (store: Storage.LocalStorage, scheme: ColorScheme)
      ensures this.store == store && systemColorScheme == scheme
      ensures themePreference == System && (isDarkMode <==> scheme == SchemeDark)
      ensures Consistent()
    {
      this.store := store;
      systemColorScheme := scheme;
      isDarkMode := scheme == SchemeDark;
      themePreference := System;
    }

    /** `theme`: the dark palette exactly when dark mode is on. */
    function ActiveTheme(): (t: Palette)
      reads this
      ensures t == DarkTheme <==> isDarkMode
      ensures t == LightTheme <==> !isDarkMode
    {
      if isDarkMode then DarkTheme else LightTheme
    }

    /** `loadThemePreference`: an absent or invalid stored value changes nothing;
        a valid one is adopted, and "light" or "dark" also sets dark mode
        ("system" leaves it to the scheme effect). */
    method LoadThemePreference(readFails: bool)
      modifies this
      ensures match StoredPreference(store.data, readFails)
              case None =>
                themePreference == old(themePreference) && isDarkMode == old(isDarkMode)
              case Some(p) =>
                && themePreference == p
                && isDarkMode == if p == System then old(isDarkMode) else p == Dark
      ensures StoredPreference(store.data, readFails) in {Some(Light), Some(Dark)} ==> Consistent()
      ensures systemColorScheme == old(systemColorScheme)
    {
      var saved := StoredPreference(store.data, readFails);
      if saved.Some? {
        themePreference := saved.value;
        if saved.value != System {
          isDarkMode := saved.value == Dark;
        }
      }
    }

    /** `toggleTheme`: adopt the given preference, or the next one in the cycle;
        set dark mode from it and store its name under the preference key only. */
    method ToggleTheme(preference: Option<ThemePreference>, writeFails: bool)
      modifies this, store
      ensures themePreference == if preference.Some? then preference.value else NextPreference(old(themePreference))
      ensures Consistent()
      ensures systemColorScheme == old(systemColorScheme)
      ensures store.data == if writeFails then old(store.data)
                            else old(store.data)[Storage.ThemePreferenceKey := Storage.Raw(PreferenceName(themePreference))]
      ensures Storage.WritesOnly(old(store.data), store.data, {Storage.ThemePreferenceKey})
      ensures !writeFails ==> StoredPreference(store.data, false) == Some(themePreference)
    {
      var newPreference := if preference.Some? then preference.value else NextPreference(themePreference);
      themePreference := newPreference;
      if newPreference == System {
        isDarkMode := systemColorScheme == SchemeDark;
      } else {
        isDarkMode := newPreference == Dark;
      }
      store.SetItem(Storage.ThemePreferenceKey, Storage.Raw(PreferenceName(newPreference)), writeFails);
    }

    /** The effect on the system scheme and the preference: while the preference
        is "system", dark mode follows the scheme. */
    method SystemSchemeEffect(scheme: ColorScheme)
      modifies this
      ensures systemColorScheme == scheme && themePreference == old(themePreference)
      ensures themePreference == System ==> (isDarkMode <==> scheme == SchemeDark)
      ensures themePreference != System ==> isDarkMode == old(isDarkMode)
      ensures old(Consistent()) || themePreference == System ==> Consistent()
    {
      systemColorScheme := scheme;
      if themePreference == System {
        isDarkMode := scheme == SchemeDark;
      }
    }
  }

  /** A preference chosen and stored is the one a fresh provider loads back. */
  method PreferenceSurvivesRestart(choice: ThemePreference, scheme: ColorScheme) returns (loaded: ThemePreference, dark: bool)
    ensures loaded == choice
    ensures dark == DarkModeFor(choice, scheme)
  {
    var store := new Storage.LocalStorage(map[]);
    var before := new ThemeProvider(store, scheme);
    before.ToggleTheme(Some(choice), false);
    var after := new ThemeProvider(store, scheme);
    after.LoadThemePreference(false);
    after.SystemSchemeEffect(scheme);
    loaded := after.themePreference;
    dark := after.isDarkMode;
  }
}
