/**
 * The site's locale configuration: the configured locales with their
 * labels, the supported-locale test, label lookup and the fallback map
 * that sends every other locale to the default one.
 */
module I18nConfig {
  import opened Common

  /** A locale as configured: the label may be left out. */
  datatype LocaleConfig = LocaleConfig(code: string, localeLabel: Option<string>)

  datatype LocaleEntry = LocaleEntry(code: string, localeLabel: string)

  /** `localeEntries`: every configured locale in order, labelled by its code when it has no label. */
  function LocaleEntries(configs: seq<LocaleConfig>): (r: seq<LocaleEntry>)
    ensures |r| == |configs|
    ensures forall i :: 0 <= i < |r| ==>
      r[i].code == configs[i].code &&
      r[i].localeLabel == (if configs[i].localeLabel.Some? then configs[i].localeLabel.value else configs[i].code)
  {
    seq(|configs|, i requires 0 <= i < |configs| =>
      LocaleEntry(configs[i].code, if configs[i].localeLabel.Some? then configs[i].localeLabel.value else configs[i].code))
  }

  /** `localeList`: the codes in order. */
  function LocaleList(entries: seq<LocaleEntry>): (r: seq<string>)
    ensures |r| == |entries| && forall i :: 0 <= i < |r| ==> r[i] == entries[i].code
  {
    seq(|entries|, i requires 0 <= i < |entries| => entries[i].code)
  }

  /** `isLocaleSupported`. */
  predicate IsLocaleSupported(entries: seq<LocaleEntry>, code: string) {
    code in LocaleList(entries)
  }

  lemma SupportedIff(entries: seq<LocaleEntry>, code: string)
    ensures IsLocaleSupported(entries, code) <==> exists i :: 0 <= i < |entries| && entries[i].code == code
  {
    if IsLocaleSupported(entries, code) {
      var i :| 0 <= i < |entries| && LocaleList(entries)[i] == code;
    }
  }

  /** `getLocaleLabel`: the label of the first entry with that code, else the code itself. */
  function GetLocaleLabel(entries: seq<LocaleEntry>, code: string): (r: string)
    ensures forall i :: 0 <= i < |entries| && entries[i].code == code && (forall j :: 0 <= j < i ==> entries[j].code != code) ==>
      r == entries[i].localeLabel
    ensures (forall i :: 0 <= i < |entries| ==> entries[i].code != code) ==> r == code
  {
    if entries == [] then code
    else if entries[0].code == code then entries[0].localeLabel
    else
      var r := GetLocaleLabel(entries[1..], code);
      assert forall i :: 1 <= i < |entries| ==> entries[i] == entries[1..][i - 1];
      r
  }

  /**
   * `buildFallbackMap`: walks the locale list and maps every code other
   * than the default one to the default locale.
   */
  method BuildFallbackMap(localeList: seq<string>, defaultLocale: string) returns (m: map<string, string>)
    ensures forall c :: c in m <==> c in localeList && c != defaultLocale
    ensures forall c :: c in m ==> m[c] == defaultLocale
  {
    m := map[];
    var i := 0;
    while i < |localeList|
      invariant 0 <= i <= |localeList|
      invariant forall c :: c in m <==> c in localeList[..i] && c != defaultLocale
      invariant forall c :: c in m ==> m[c] == defaultLocale
    {
      var code := localeList[i];
      if code != defaultLocale {
        m := m[code := defaultLocale];
      }
      assert localeList[..i + 1] == localeList[..i] + [code];
      i := i + 1;
    }
    assert localeList[..i] == localeList;
  }
}
