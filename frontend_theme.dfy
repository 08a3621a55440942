/**
 * The frontend's useTheme: the theme is kept as plain text under the `theme`
 * key of localStorage and mirrored in the document element's
 * `primary-theme` attribute.
 */
module FrontendTheme {
  import UiPreferences
  import JsonValues

  const ThemeKey: string := "theme"
  const PrimaryTheme: string := "primary-theme"

  /** The initial state: a non-empty saved theme; otherwise "dark" when the system prefers it, else "light". */
  function InitialTheme(items: map<string, string>, prefersDark: bool): string
  {
    if ThemeKey in items && items[ThemeKey] != "" then items[ThemeKey]
    else if prefersDark then "dark"
    else "light"
  }

  /** toggleTheme: "light" becomes "dark", anything else "light". */
  function ToggleTheme(theme: string): string
  {
    if theme == "light" then "dark" else "light"
  }

  /** The saved theme wins exactly when it is non-empty. */
  lemma SavedThemeWins(items: map<string, string>, prefersDark: bool)
    ensures ThemeKey in items && items[ThemeKey] != "" ==> InitialTheme(items, prefersDark) == items[ThemeKey]
    ensures ThemeKey !in items || items[ThemeKey] == "" ==>
      InitialTheme(items, prefersDark) == (if prefersDark then "dark" else "light")
  {
  }

  /** Round trip: after the effect stores a non-empty theme, the next start-up reads the same theme. */
  lemma PersistRoundTrip(items: map<string, string>, theme: string, prefersDark: bool)
    requires theme != ""
    ensures InitialTheme(items[ThemeKey := theme], prefersDark) == theme
  {
  }

  /** Toggling swaps light and dark and is its own inverse on them. */
  lemma ToggleCases(theme: string)
    ensures theme == "light" ==> ToggleTheme(theme) == "dark"
    ensures theme != "light" ==> ToggleTheme(theme) == "light"
    ensures theme == "light" || theme == "dark" ==> ToggleTheme(ToggleTheme(theme)) == theme
  {
  }

  /**
   * The two useTheme hooks agree on "light" and "dark" but send any other
   * value to opposite themes: this one to "light", the UI package's to "dark".
   */
  lemma TogglesDisagreeOffScheme(theme: string)
    ensures theme == "light" || theme == "dark" ==>
      UiPreferences.ToggleTheme(JsonValues.JStr(theme)) == JsonValues.JStr(ToggleTheme(theme))
    ensures theme != "light" && theme != "dark" ==>
      ToggleTheme(theme) == "light" && UiPreferences.ToggleTheme(JsonValues.JStr(theme)) == JsonValues.JStr("dark")
  {
  }

  /** The browser state this hook touches. */
  class Page {
    var items: map<string, string>
    var attributes: map<string, string>

    constructor (items0: map<string, string>, attributes0: map<string, string>)
      ensures items == items0 && attributes == attributes0
    {
      items := items0;
      attributes := attributes0;
    }

    /** The effect that runs whenever the theme changes: the attribute, then the stored key. */
    method Persist(theme: string)
      modifies this
      ensures attributes == old(attributes)[PrimaryTheme := theme]
      ensures items == old(items)[ThemeKey := theme]
    {
      attributes := attributes[PrimaryTheme := theme];
      items := items[ThemeKey := theme];
    }
  }
}
