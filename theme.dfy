/**
 * The theme and font-size service (services/theme.js): two built-in themes and four font sizes,
 * the current choice of each, which every change applies to the global theme variables and
 * saves under `app_theme_settings`.
 */
module Theme {
  import opened Wrappers

  /** A theme and the primary colour of its variables (the other colours are fixed per theme). */
  datatype ThemeDef = ThemeDef(id: string, name: string, primary: string)

  /** A font size; `scalePercent` is the scale factor times 100 (0.9 is 90). */
  datatype FontSize = FontSize(id: string, name: string, scalePercent: nat)

  const Themes: seq<ThemeDef> := [ThemeDef("light", "浅色", "#007AFF"), ThemeDef("dark", "深色", "#0A84FF")]

  const FontSizes: seq<FontSize> := [
    FontSize("small", "小", 90), FontSize("normal", "标准", 100),
    FontSize("large", "大", 110), FontSize("xlarge", "特大", 120)
  ]

  predicate KnownTheme(id: string) { exists t :: t in Themes && t.id == id }

  predicate KnownFontSize(id: string) { exists f :: f in FontSizes && f.id == id }

  lemma KnownThemeIds(id: string)
    ensures KnownTheme(id) <==> id == "light" || id == "dark"
  {
    if id == "light" { assert Themes[0] in Themes; }
    if id == "dark" { assert Themes[1] in Themes; }
  }

  lemma KnownFontSizeIds(id: string)
    ensures KnownFontSize(id) <==> id in {"small", "normal", "large", "xlarge"}
  {
    if id == "small" { assert FontSizes[0] in FontSizes; }
    if id == "normal" { assert FontSizes[1] in FontSizes; }
    if id == "large" { assert FontSizes[2] in FontSizes; }
    if id == "xlarge" { assert FontSizes[3] in FontSizes; }
  }

  /** `getThemeById`: the theme with that id, or null (None). */
  function ThemeById(id: string): (r: Option<ThemeDef>)
    ensures r.Some? <==> KnownTheme(id)
    ensures r.Some? ==> r.value in Themes && r.value.id == id
  {
    KnownThemeIds(id);
    if id == "light" then Some(Themes[0]) else if id == "dark" then Some(Themes[1]) else None
  }

  /** `getFontSizeById`. */
  function FontSizeById(id: string): (r: Option<FontSize>)
    ensures r.Some? <==> KnownFontSize(id)
    ensures r.Some? ==> r.value in FontSizes && r.value.id == id
  {
    KnownFontSizeIds(id);
    if id == "small" then Some(FontSizes[0])
    else if id == "normal" then Some(FontSizes[1])
    else if id == "large" then Some(FontSizes[2])
    else if id == "xlarge" then Some(FontSizes[3])
    else None
  }

  /** What is saved under `app_theme_settings`. */
  datatype Settings = Settings(themeId: string, fontSizeId: string)

  class ThemeService {
    var currentThemeId: string
    var currentFontSizeId: string
    var inited: bool
    /** The `app_theme_settings` entry. */
    var saved: Option<Settings>
    /** The theme and font size the global theme variables were last computed from. */
    var applied: (ThemeDef, FontSize)

    /** `getCurrentTheme`: the current theme, or the first theme for an unknown id. */
    function CurrentTheme(): (r: ThemeDef)
      reads this
      ensures r in Themes
      ensures KnownTheme(currentThemeId) ==> r.id == currentThemeId
      ensures !KnownTheme(currentThemeId) ==> r == Themes[0]
    {
      var t := ThemeById(currentThemeId);
      if t.Some? then t.value else Themes[0]
    }

    /** `getCurrentFontSize`: the current size, or 'normal' for an unknown id. */
    function CurrentFontSize(): (r: FontSize)
      reads this
      ensures r in FontSizes
      ensures KnownFontSize(currentFontSizeId) ==> r.id == currentFontSizeId
      ensures !KnownFontSize(currentFontSizeId) ==> r == FontSizes[1]
    {
      var f := FontSizeById(currentFontSizeId);
      if f.Some? then f.value else FontSizes[1]
    }

    /**
     * The constructor: a saved non-empty id is taken as it is (even one that names no theme),
     * anything else falls back to 'light' and 'normal'; the choice is applied once.
     */
    constructor (stored: Option<Settings>)
      ensures currentThemeId == if stored.Some? && stored.value.themeId != "" then stored.value.themeId else "light"
      ensures currentFontSizeId == if stored.Some? && stored.value.fontSizeId != "" then stored.value.fontSizeId else "normal"
      ensures !inited && saved == stored
      ensures applied == (CurrentTheme(), CurrentFontSize())
    {
      currentThemeId := if stored.Some? && stored.value.themeId != "" then stored.value.themeId else "light";
      currentFontSizeId := if stored.Some? && stored.value.fontSizeId != "" then stored.value.fontSizeId else "normal";
      inited := false;
      saved := stored;
      new;
      ApplyTheme();
    }

    /** `applyTheme`: the global variables follow the current theme and font size. */
    method ApplyTheme()
      modifies this
      ensures applied == (CurrentTheme(), CurrentFontSize())
      ensures currentThemeId == old(currentThemeId) && currentFontSizeId == old(currentFontSizeId)
      ensures inited == old(inited) && saved == old(saved)
    {
      applied := (CurrentTheme(), CurrentFontSize());
    }

    /** `setTheme`: an unknown id is refused and changes nothing; a known one is applied and saved. */
    method SetTheme(themeId: string) returns (ok: bool)
      modifies this
      ensures ok <==> KnownTheme(themeId)
      ensures !ok ==> currentThemeId == old(currentThemeId) && saved == old(saved) && applied == old(applied)
      ensures ok ==> currentThemeId == themeId && saved == Some(Settings(themeId, currentFontSizeId))
                     && applied == (CurrentTheme(), CurrentFontSize()) && CurrentTheme().id == themeId
      ensures currentFontSizeId == old(currentFontSizeId) && inited == old(inited)
    {
      if ThemeById(themeId).None? {
        return false;
      }
      currentThemeId := themeId;
      ApplyTheme();
      Save();
      return true;
    }

    /** `setFontSize`: the same rule for font sizes. */
    method SetFontSize(fontSizeId: string) returns (ok: bool)
      modifies this
      ensures ok <==> KnownFontSize(fontSizeId)
      ensures !ok ==> currentFontSizeId == old(currentFontSizeId) && saved == old(saved) && applied == old(applied)
      ensures ok ==> currentFontSizeId == fontSizeId && saved == Some(Settings(currentThemeId, fontSizeId))
                     && applied == (CurrentTheme(), CurrentFontSize()) && CurrentFontSize().id == fontSizeId
      ensures currentThemeId == old(currentThemeId) && inited == old(inited)
    {
      if FontSizeById(fontSizeId).None? {
        return false;
      }
      currentFontSizeId := fontSizeId;
      ApplyTheme();
      Save();
      return true;
    }

    /** `init`: applies the theme the first time only; later calls do nothing. */
    method Init()
      modifies this
      ensures inited
      ensures old(inited) ==> applied == old(applied)
      ensures !old(inited) ==> applied == (CurrentTheme(), CurrentFontSize())
      ensures currentThemeId == old(currentThemeId) && currentFontSizeId == old(currentFontSizeId) && saved == old(saved)
    {
      if inited {
        return;
      }
      ApplyTheme();
      inited := true;
    }

    /** `reset`: back to light and normal, applied and saved. */
    method Reset()
      modifies this
      ensures currentThemeId == "light" && currentFontSizeId == "normal"
      ensures saved == Some(Settings("light", "normal"))
      ensures applied == (Themes[0], FontSizes[1])
      ensures inited == old(inited)
    {
      currentThemeId := "light";
      currentFontSizeId := "normal";
      ApplyTheme();
      Save();
    }

    /** `_save`. */
    method Save()
      modifies this
      ensures saved == Some(Settings(currentThemeId, currentFontSizeId))
      ensures currentThemeId == old(currentThemeId) && currentFontSizeId == old(currentFontSizeId)
      ensures inited == old(inited) && applied == old(applied)
    {
      saved := Some(Settings(currentThemeId, currentFontSizeId));
    }
  }

  /** Whatever id is current, the theme in use is one of the built-in themes and is found by its own id. */
  lemma CurrentThemeResolves(themeId: string)
    ensures var t := if KnownTheme(themeId) then ThemeById(themeId).value else Themes[0];
      t in Themes && ThemeById(t.id) == Some(t)
  {
    KnownThemeIds(themeId);
    KnownThemeIds("light");
    KnownThemeIds("dark");
  }
}
