/** The settings provider: persisted theme, language and default view mode,
    the image-adjustment object loaded over its defaults, reset, and the rule
    that puts the `dark` class on the document root. */
module SettingsModel {
  import opened JsValues

  /** The image-adjustment defaults. */
  function DefaultImageSettings(): Object {
    map[
      "brightness" := Num(100),
      "contrast" := Num(100),
      "saturation" := Num(100),
      "sharpen" := Num(0),
      "denoise" := Num(0),
      "blueLight" := Bool(false)
    ]
  }

  /** What `JSON.parse(localStorage.getItem('imageSettings'))` produced. */
  datatype Parsed =
    | ParsedNull                   // nothing stored: parse of null is null
    | ParsedObject(obj: Object)    // a stored object
    | ParsedScalar                 // a number or boolean: spreading it adds no key
    | ParseError                   // the stored text is not JSON: parse throws

  /** The initial image settings: `{ ...defaults, ...saved }`, or the
      defaults when parsing throws. */
  function LoadImageSettings(p: Parsed): (r: Object)
    ensures p.ParsedObject? ==> r.Keys == DefaultImageSettings().Keys + p.obj.Keys
    ensures p.ParsedObject? ==> forall k :: k in p.obj ==> r[k] == p.obj[k]
    ensures p.ParsedObject? ==>
      forall k :: k in DefaultImageSettings() && k !in p.obj ==> r[k] == DefaultImageSettings()[k]
    ensures !p.ParsedObject? ==> r == DefaultImageSettings()
  {
    match p
    case ParsedObject(obj) => DefaultImageSettings() + obj
    case ParsedNull => DefaultImageSettings()
    case ParsedScalar => DefaultImageSettings()
    case ParseError => DefaultImageSettings()
  }

  /** A stored object that repeats the defaults (for example the one written
      back after a reset) loads as the defaults. */
  lemma LoadOfSavedDefaults()
    ensures LoadImageSettings(ParsedObject(DefaultImageSettings())) == DefaultImageSettings()
  {
    var r := LoadImageSettings(ParsedObject(DefaultImageSettings()));
    assert r.Keys == DefaultImageSettings().Keys;
  }

  /** Loading a stored object keeps every key the defaults name. */
  lemma LoadKeepsDefaultKeys(p: Parsed)
    ensures DefaultImageSettings().Keys <= LoadImageSettings(p).Keys
  {
  }

  /** `localStorage.getItem(key) || fallback`: a missing or empty string falls back. */
  function StoredOr(stored: Option<string>, fallback: string): (r: string)
    ensures stored.None? ==> r == fallback
    ensures stored.Some? && stored.value != "" ==> r == stored.value
    ensures stored == Some("") ==> r == fallback
  {
    if stored.Some? && stored.value != "" then stored.value else fallback
  }

  const DefaultTheme: string := "system"
  const DefaultLanguage: string := "pt-br"
  const DefaultViewMode: string := "single"

  /** Whether the document root carries the `dark` class for a theme, given
      what the `prefers-color-scheme: dark` media query reports. */
  predicate DarkClass(theme: string, systemPrefersDark: bool) {
    if theme == "system" then systemPrefersDark else theme == "dark"
  }

  /** The three cases of the theme rule. */
  lemma ThemeRule(theme: string, systemPrefersDark: bool)
    ensures theme == "dark" ==> DarkClass(theme, systemPrefersDark)
    ensures theme != "dark" && theme != "system" ==> !DarkClass(theme, systemPrefersDark)
    ensures theme == "system" ==> (DarkClass(theme, systemPrefersDark) <==> systemPrefersDark)
  {
  }

  /** The provider's state. Persistence to local storage is not modelled; the
      document root's class list is the field `darkClass`. */
  class SettingsProvider {
    var theme: string
    var language: string
    var defaultViewMode: string
    var imageSettings: Object
    var darkClass: bool
    var systemPrefersDark: bool

    /** The theme effect has been applied to the document root. */
    ghost predicate ThemeApplied()
      reads this
    {
      darkClass == DarkClass(theme, systemPrefersDark)
    }

    constructor (storedTheme: Option<string>, storedLanguage: Option<string>,
                 storedViewMode: Option<string>, storedImage: Parsed, prefersDark: bool)
      ensures theme == StoredOr(storedTheme, DefaultTheme)
      ensures language == StoredOr(storedLanguage, DefaultLanguage)
      ensures defaultViewMode == StoredOr(storedViewMode, DefaultViewMode)
      ensures imageSettings == LoadImageSettings(storedImage)
      ensures systemPrefersDark == prefersDark
      ensures ThemeApplied()
    {
      theme := StoredOr(storedTheme, DefaultTheme);
      language := StoredOr(storedLanguage, DefaultLanguage);
      defaultViewMode := StoredOr(storedViewMode, DefaultViewMode);
      imageSettings := LoadImageSettings(storedImage);
      systemPrefersDark := prefersDark;
      darkClass := DarkClass(StoredOr(storedTheme, DefaultTheme), prefersDark);
    }

    /** `setTheme` followed by the theme effect. */
    method SetTheme(t: string)
      modifies this
      ensures theme == t && ThemeApplied()
      ensures language == old(language) && defaultViewMode == old(defaultViewMode)
      ensures imageSettings == old(imageSettings) && systemPrefersDark == old(systemPrefersDark)
    {
      theme := t;
      if t == "system" {
        darkClass := systemPrefersDark;
      } else if t == "dark" {
        darkClass := true;
      } else {
        darkClass := false;
      }
    }

    /** The media query reports a change. Its listener exists only while the
        theme is "system", so under another theme the class does not move. */
    method MediaQueryChange(matches: bool)
      requires ThemeApplied()
      modifies this
      ensures systemPrefersDark == matches && ThemeApplied()
      ensures old(theme) != "system" ==> darkClass == old(darkClass)
      ensures theme == old(theme) && language == old(language)
      ensures defaultViewMode == old(defaultViewMode) && imageSettings == old(imageSettings)
    {
      systemPrefersDark := matches;
      if theme == "system" {
        if matches { darkClass := true; } else { darkClass := false; }
      }
    }

    /** `resetImageSettings`: the defaults, whatever was there before. */
    method ResetImageSettings()
      modifies this
      ensures imageSettings == DefaultImageSettings()
      ensures imageSettings["brightness"] == Num(100) && imageSettings["contrast"] == Num(100)
      ensures imageSettings["saturation"] == Num(100)
      ensures imageSettings["sharpen"] == Num(0) && imageSettings["denoise"] == Num(0)
      ensures imageSettings["blueLight"] == Bool(false)
      ensures theme == old(theme) && language == old(language) && darkClass == old(darkClass)
      ensures defaultViewMode == old(defaultViewMode) && systemPrefersDark == old(systemPrefersDark)
    {
      imageSettings := map[
        "brightness" := Num(100),
        "contrast" := Num(100),
        "saturation" := Num(100),
        "sharpen" := Num(0),
        "denoise" := Num(0),
        "blueLight" := Bool(false)
      ];
    }

    /** `setImageSettings(s => ({ ...s, [key]: value }))`. */
    method SetImageSetting(key: string, value: Value)
      modifies this
      ensures imageSettings == old(imageSettings)[key := value]
      ensures theme == old(theme) && language == old(language) && darkClass == old(darkClass)
      ensures defaultViewMode == old(defaultViewMode) && systemPrefersDark == old(systemPrefersDark)
    {
      imageSettings := imageSettings[key := value];
    }
  }
}
