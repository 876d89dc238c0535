/**
 * Translation lookup with fallback to the default locale's strings and
 * `{param}` interpolation, and the locale-aware URL helpers: the locale a
 * path is in, adding and removing the locale prefix, the same page in
 * another locale, and the HTML `lang` tag.
 */
module I18nUtils {
  import opened Common
  import opened I18nConfig

  /** A translation table: key to text. */
  type Dict = map<string, string>

  /** Interpolation parameters in property order, each value already converted by `String(val)`. */
  type Params = seq<(string, string)>

  /** `{name}`. */
  function Placeholder(name: string): (r: string)
    ensures r != [] && r[0] == '{'
  {
    "{" + name + "}"
  }

  /**
   * `dict?.[key] ?? defaultStrings[key]`: the target locale's entry when
   * it has one (even an empty one), else the default locale's.
   */
  function RawValue(translations: map<string, Dict>, defaultStrings: Dict, locale: string, key: string): (r: Option<string>)
    ensures locale in translations && key in translations[locale] ==> r == Some(translations[locale][key])
    ensures !(locale in translations && key in translations[locale]) && key in defaultStrings ==> r == Some(defaultStrings[key])
    ensures !(locale in translations && key in translations[locale]) && key !in defaultStrings ==> r == None
  {
    if locale in translations && key in translations[locale] then Some(translations[locale][key])
    else if key in defaultStrings then Some(defaultStrings[key])
    else None
  }

  /** Every `{name}` replaced by its value, one parameter after the other. */
  function Interpolated(value: string, params: Params): string
    decreases |params|
  {
    if params == [] then value
    else Interpolated(ReplaceAll(value, Placeholder(params[0].0), params[0].1), params[1..])
  }

  /** The text `t` returns: the key itself when no non-empty text is found. */
  function Translation(translations: map<string, Dict>, defaultStrings: Dict, locale: string, key: string, params: Params): string {
    match RawValue(translations, defaultStrings, locale, key)
    case None => key
    case Some(v) => if v == "" then key else Interpolated(v, params)
  }

  /** What `tryTranslate` returns: like `t`, but nothing instead of the key. */
  function TryTranslation(translations: map<string, Dict>, defaultStrings: Dict, locale: string, key: string, params: Params): Option<string> {
    match RawValue(translations, defaultStrings, locale, key)
    case None => None
    case Some(v) => if v == "" then None else Some(Interpolated(v, params))
  }

  /** `value.replaceAll` for each parameter in turn, as the loop in `t` and `tryTranslate` does it. */
  method Interpolate(value: string, params: Params) returns (r: string)
    ensures r == Interpolated(value, params)
  {
    r := value;
    var i := 0;
    while i < |params|
      invariant 0 <= i <= |params|
      invariant Interpolated(value, params) == Interpolated(r, params[i..])
    {
      assert params[i..][1..] == params[i + 1..];
      r := ReplaceAll(r, Placeholder(params[i].0), params[i].1);
      i := i + 1;
    }
  }

  /** `t(locale, key, params)`. */
  method T(translations: map<string, Dict>, defaultStrings: Dict, locale: string, key: string, params: Params) returns (r: string)
    ensures r == Translation(translations, defaultStrings, locale, key, params)
  {
    var value := RawValue(translations, defaultStrings, locale, key);
    if value.None? || value.value == "" {
      return key;
    }
    r := Interpolate(value.value, params);
  }

  /** `tryTranslate(locale, key, params)`. */
  method TryTranslate(translations: map<string, Dict>, defaultStrings: Dict, locale: string, key: string, params: Params) returns (r: Option<string>)
    ensures r == TryTranslation(translations, defaultStrings, locale, key, params)
  {
    var value := RawValue(translations, defaultStrings, locale, key);
    if value.None? || value.value == "" {
      return None;
    }
    var text := Interpolate(value.value, params);
    r := Some(text);
  }

  /**
   * The lookup order of `t`: the target locale's non-empty text, else
   * (when the target has no entry) the default locale's non-empty text,
   * else the key; an empty text found first also gives the key.
   */
  lemma TranslationOrder(translations: map<string, Dict>, defaultStrings: Dict, locale: string, key: string)
    ensures var r := Translation(translations, defaultStrings, locale, key, []);
      var inTarget := locale in translations && key in translations[locale];
      (inTarget && translations[locale][key] != "" ==> r == translations[locale][key]) &&
      (inTarget && translations[locale][key] == "" ==> r == key) &&
      (!inTarget && key in defaultStrings && defaultStrings[key] != "" ==> r == defaultStrings[key]) &&
      (!inTarget && (key !in defaultStrings || defaultStrings[key] == "") ==> r == key)
  {
  }

  /** `tryTranslate` finds nothing exactly when `t` falls back to the key for lack of text, and otherwise agrees with `t`. */
  lemma TryTranslationAgrees(translations: map<string, Dict>, defaultStrings: Dict, locale: string, key: string, params: Params)
    ensures var tr := TryTranslation(translations, defaultStrings, locale, key, params);
      var raw := RawValue(translations, defaultStrings, locale, key);
      (tr.None? <==> raw.None? || raw.value == "") &&
      (tr.None? ==> Translation(translations, defaultStrings, locale, key, params) == key) &&
      (tr.Some? ==> Translation(translations, defaultStrings, locale, key, params) == tr.value)
  {
  }

  /** `replaceAll` leaves a text alone when the pattern does not occur in it. */
  lemma ReplaceAllAbsent(s: string, pat: string, rep: string)
    requires pat != [] && IndexOf(s, pat).None?
    ensures ReplaceAll(s, pat, rep) == s
  {
  }

  /** A text without `{` is returned as it is, whatever the parameters. */
  lemma {:induction false} InterpolateWithoutPlaceholders(value: string, params: Params)
    requires !HasChar(value, '{')
    ensures Interpolated(value, params) == value
    decreases |params|
  {
    if params != [] {
      var pat := Placeholder(params[0].0);
      ReplaceAllAbsent(value, pat, params[0].1);
      InterpolateWithoutPlaceholders(value, params[1..]);
    }
  }

  /**
   * `resolveNavName`: the translation of a non-empty key, else the
   * fallback name, else the empty string.
   */
  method ResolveNavName(translations: map<string, Dict>, defaultStrings: Dict, nameKey: Option<string>,
                        fallbackName: Option<string>, locale: string) returns (r: string)
    ensures nameKey.Some? && nameKey.value != "" ==> r == Translation(translations, defaultStrings, locale, nameKey.value, [])
    ensures (nameKey.None? || nameKey.value == "") ==> r == (if fallbackName.Some? then fallbackName.value else "")
  {
    if nameKey.Some? && nameKey.value != "" {
      r := T(translations, defaultStrings, locale, nameKey.value, []);
      return;
    }
    r := if fallbackName.Some? then fallbackName.value else "";
  }

  /** `pathname.split('/').filter(Boolean)`. */
  function Segments(pathname: string): (r: seq<string>)
    ensures forall i :: 0 <= i < |r| ==> r[i] != ""
  {
    NonEmpty(Split(pathname, "/"))
  }

  /** The leading segment names a supported locale other than the default one. */
  predicate HasLocalePrefix(entries: seq<LocaleEntry>, defaultLocale: string, pathname: string) {
    var segments := Segments(pathname);
    |segments| > 0 && segments[0] != defaultLocale && IsLocaleSupported(entries, segments[0])
  }

  /** `getLocaleFromUrl`: the first segment when it is a supported non-default locale, else the default locale. */
  function GetLocaleFromUrl(entries: seq<LocaleEntry>, defaultLocale: string, pathname: string): (r: string)
    ensures HasLocalePrefix(entries, defaultLocale, pathname) ==> r == Segments(pathname)[0]
    ensures !HasLocalePrefix(entries, defaultLocale, pathname) ==> r == defaultLocale
    ensures r == defaultLocale || (IsLocaleSupported(entries, r) && r != defaultLocale)
  {
    if HasLocalePrefix(entries, defaultLocale, pathname) then Segments(pathname)[0] else defaultLocale
  }

  /** `localizedPath`: the path with a leading `/`, prefixed by `/locale` unless the locale is the default one. */
  function LocalizedPath(path: string, locale: string, defaultLocale: string): (r: string)
    ensures var normalized := if |path| > 0 && path[0] == '/' then path else "/" + path;
      r == if locale == defaultLocale then normalized else "/" + locale + normalized
    ensures |r| > 0 && r[0] == '/'
  {
    var normalizedPath := if |path| > 0 && path[0] == '/' then path else "/" + path;
    if locale == defaultLocale then normalizedPath else "/" + locale + normalizedPath
  }

  /** The root in a non-default locale is `/en/`, with the trailing slash. */
  lemma LocalizedRoot(locale: string, defaultLocale: string)
    requires locale != defaultLocale
    ensures LocalizedPath("/", locale, defaultLocale) == "/" + locale + "/"
  {
  }

  /** `stripLocaleFromPath`: a leading supported non-default locale is removed and the rest rebuilt; other paths stay. */
  function StripLocaleFromPath(entries: seq<LocaleEntry>, defaultLocale: string, pathname: string): (r: string)
    ensures !HasLocalePrefix(entries, defaultLocale, pathname) ==> r == pathname
    ensures HasLocalePrefix(entries, defaultLocale, pathname) ==>
      var rest := Join(Segments(pathname)[1..], "/");
      r == if rest == "" then "/" else "/" + rest
  {
    if HasLocalePrefix(entries, defaultLocale, pathname) then
      var rest := Join(Segments(pathname)[1..], "/");
      if rest != "" then "/" + rest else "/"
    else pathname
  }

  /** `getAlternateUrl`: the same page in the target locale. */
  function GetAlternateUrl(entries: seq<LocaleEntry>, defaultLocale: string, currentPathname: string, targetLocale: string): string {
    LocalizedPath(StripLocaleFromPath(entries, defaultLocale, currentPathname), targetLocale, defaultLocale)
  }

  /** `getHtmlLang`: `zh` is tagged `zh-CN`; every other code is its own tag. */
  function GetHtmlLang(locale: string): (r: string)
    ensures locale == "zh" ==> r == "zh-CN"
    ensures locale != "zh" ==> r == locale
  {
    if locale == "zh" then "zh-CN" else locale
  }

  /** A locale code that can stand as one path segment. */
  predicate IsSegment(s: string) {
    s != "" && !HasChar(s, '/')
  }

  /** An absolute path with no empty segment other than the root itself (no `//`, no trailing `/`). */
  predicate CleanPath(p: string) {
    |p| > 0 && p[0] == '/' && (p == "/" || forall i :: 0 <= i < |Split(p[1..], "/")| ==> Split(p[1..], "/")[i] != "")
  }

  lemma NonEmptyAll(parts: seq<string>)
    requires forall i :: 0 <= i < |parts| ==> parts[i] != ""
    ensures NonEmpty(parts) == parts
  {
    if parts != [] {
      NonEmptyAll(parts[1..]);
    }
  }

  /** The segments of an absolute path are those of the text after its leading `/`. */
  lemma SegmentsAbsolute(p: string)
    requires |p| > 0 && p[0] == '/'
    ensures Segments(p) == NonEmpty(Split(p[1..], "/"))
  {
    assert p == "" + "/" + p[1..];
    FirstSepAtJoint("", "/", p[1..]);
    assert Split(p, "/") == [""] + Split(p[1..], "/");
  }

  /** Putting `/locale` in front of an absolute path puts the locale in front of its segments. */
  lemma SegmentsPrefixed(l: string, p: string)
    requires IsSegment(l) && |p| > 0 && p[0] == '/'
    ensures Segments("/" + l + p) == [l] + Segments(p)
  {
    var q := "/" + l + p;
    SegmentsAbsolute(q);
    assert q[1..] == l + "/" + p[1..];
    SingleCharSafe(l, '/');
    FirstSepAtJoint(l, "/", p[1..]);
    var lp := l + "/" + p[1..];
    assert lp[..|l|] == l && lp[|l| + 1..] == p[1..];
    assert Split(lp, "/") == [l] + Split(p[1..], "/");
    SegmentsAbsolute(p);
  }

  /** Joining the segments of a clean path rebuilds it. */
  lemma RebuildClean(p: string)
    requires CleanPath(p) && p != "/"
    ensures "/" + Join(Segments(p), "/") == p
  {
    SegmentsAbsolute(p);
    NonEmptyAll(Split(p[1..], "/"));
    JoinSplit(p[1..], "/");
  }

  lemma RootSegments()
    ensures Segments("/") == []
  {
    SegmentsAbsolute("/");
    assert Split("", "/") == [""];
  }

  /**
   * For a clean path that does not already start with a locale prefix,
   * localizing it to any supported locale and stripping the prefix gives
   * it back, and the localized path is read as being in that locale.
   */
  lemma LocalizeStripRoundTrip(entries: seq<LocaleEntry>, defaultLocale: string, p: string, l: string)
    requires CleanPath(p) && !HasLocalePrefix(entries, defaultLocale, p)
    requires IsLocaleSupported(entries, l) && IsSegment(l)
    ensures StripLocaleFromPath(entries, defaultLocale, LocalizedPath(p, l, defaultLocale)) == p
    ensures GetLocaleFromUrl(entries, defaultLocale, LocalizedPath(p, l, defaultLocale)) == l
  {
    if l != defaultLocale {
      var q := LocalizedPath(p, l, defaultLocale);
      assert q == "/" + l + p;
      SegmentsPrefixed(l, p);
      assert Segments(q)[1..] == Segments(p);
      assert HasLocalePrefix(entries, defaultLocale, q);
      if p == "/" {
        RootSegments();
      } else {
        RebuildClean(p);
        assert Join(Segments(p), "/") != "";
      }
    }
  }

  /** Switching a localized page to another locale gives the page localized to that locale. */
  lemma AlternateUrlSwitches(entries: seq<LocaleEntry>, defaultLocale: string, p: string, from: string, to: string)
    requires CleanPath(p) && !HasLocalePrefix(entries, defaultLocale, p)
    requires IsLocaleSupported(entries, from) && IsSegment(from)
    ensures GetAlternateUrl(entries, defaultLocale, LocalizedPath(p, from, defaultLocale), to) == LocalizedPath(p, to, defaultLocale)
  {
    LocalizeStripRoundTrip(entries, defaultLocale, p, from);
  }
}
