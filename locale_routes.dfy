/**
 * The static paths of the `[lang]` pages: one per configured locale other
 * than the default one, whose pages are served without a prefix.
 */
module LocaleRoutes {

  /** `{ params: { lang } }`. */
  datatype StaticPath = StaticPath(lang: string)

  /** `localeList.filter(l => l !== defaultLocale).map(lang => ({ params: { lang } }))`. */
  function GetLocaleStaticPaths(localeList: seq<string>, defaultLocale: string): (r: seq<StaticPath>)
    ensures forall i :: 0 <= i < |r| ==> r[i].lang != defaultLocale
    ensures |r| == |localeList| - multiset(localeList)[defaultLocale]
  {
    if localeList == [] then []
    else
      var rest := GetLocaleStaticPaths(localeList[1..], defaultLocale);
      assert localeList == [localeList[0]] + localeList[1..];
      assert multiset(localeList) == multiset{localeList[0]} + multiset(localeList[1..]);
      if localeList[0] == defaultLocale then rest else [StaticPath(localeList[0])] + rest
  }

  /** The paths keep the locales' order: the paths of a concatenation are the concatenation of the paths. */
  lemma {:induction false} StaticPathsInOrder(xs: seq<string>, ys: seq<string>, defaultLocale: string)
    ensures GetLocaleStaticPaths(xs + ys, defaultLocale) ==
      GetLocaleStaticPaths(xs, defaultLocale) + GetLocaleStaticPaths(ys, defaultLocale)
    decreases |xs|
  {
    if xs != [] {
      assert (xs + ys)[0] == xs[0] && (xs + ys)[1..] == xs[1..] + ys;
      StaticPathsInOrder(xs[1..], ys, defaultLocale);
    } else {
      assert xs + ys == ys;
    }
  }

  /** A locale gets a path exactly when it is configured and is not the default one. */
  lemma {:induction false} StaticPathsMembers(localeList: seq<string>, defaultLocale: string, l: string)
    ensures l in localeList && l != defaultLocale <==> StaticPath(l) in GetLocaleStaticPaths(localeList, defaultLocale)
    decreases |localeList|
  {
    if localeList != [] {
      StaticPathsMembers(localeList[1..], defaultLocale, l);
      assert l in localeList <==> l == localeList[0] || l in localeList[1..];
    }
  }
}
