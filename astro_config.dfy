/**
 * The build configuration's decisions: which deployment adapter is used,
 * and the two module-resolution plugins that swap the snowfall canvas and
 * the CMS (with the BlockNote editor) for empty stand-ins when they are
 * switched off. The environment is a map from variable names to values;
 * the YAML settings are given as already parsed.
 */
module AstroConfig {
  import opened Common

  datatype Adapter = Vercel | Cloudflare | Netlify | NodeStandalone

  /** `process.env[name] === value`. */
  predicate EnvIs(env: map<string, string>, name: string, value: string) {
    name in env && env[name] == value
  }

  /** `!!process.env[name]`: set to a non-empty string. */
  predicate EnvSet(env: map<string, string>, name: string) {
    name in env && env[name] != ""
  }

  /** `selectAdapter`: the first platform detected, else Node in standalone mode. */
  function SelectAdapter(env: map<string, string>): Adapter {
    var isVercel := EnvIs(env, "VERCEL", "1");
    var isCloudflare := EnvIs(env, "CF_PAGES", "1") || EnvSet(env, "CLOUDFLARE");
    var isNetlify := EnvIs(env, "NETLIFY", "true");
    if isVercel then Vercel
    else if isCloudflare then Cloudflare
    else if isNetlify then Netlify
    else NodeStandalone
  }

  /** Vercel before Cloudflare before Netlify, Node when none is detected. */
  lemma AdapterPriority(env: map<string, string>)
    ensures SelectAdapter(env) == Vercel <==> EnvIs(env, "VERCEL", "1")
    ensures SelectAdapter(env) == Cloudflare <==>
      !EnvIs(env, "VERCEL", "1") && (EnvIs(env, "CF_PAGES", "1") || EnvSet(env, "CLOUDFLARE"))
    ensures SelectAdapter(env) == Netlify <==>
      !EnvIs(env, "VERCEL", "1") && !EnvIs(env, "CF_PAGES", "1") && !EnvSet(env, "CLOUDFLARE") && EnvIs(env, "NETLIFY", "true")
    ensures SelectAdapter(env) == NodeStandalone <==>
      !EnvIs(env, "VERCEL", "1") && !EnvIs(env, "CF_PAGES", "1") && !EnvSet(env, "CLOUDFLARE") && !EnvIs(env, "NETLIFY", "true")
  {
  }

  /** Only the exact value counts: `VERCEL=true` does not pick Vercel, while any non-empty `CLOUDFLARE` picks Cloudflare. */
  lemma AdapterExactValues()
    ensures SelectAdapter(map["VERCEL" := "true"]) == NodeStandalone
    ensures SelectAdapter(map["CLOUDFLARE" := "0"]) == Cloudflare
    ensures SelectAdapter(map["NETLIFY" := "1"]) == NodeStandalone
    ensures SelectAdapter(map["VERCEL" := "1", "NETLIFY" := "true"]) == Vercel
  {
    assert !EnvIs(map["VERCEL" := "true"], "VERCEL", "1");
    assert !EnvIs(map["NETLIFY" := "1"], "NETLIFY", "true");
  }

  /** A module id resolved by a plugin: the id it was given with `\0` in front. */
  function Resolved(id: string): string {
    "\0" + id
  }

  // ---- conditionalSnowfall ----

  const SnowfallVirtual: string := "virtual:snowfall-canvas"
  const SnowfallAlias: string := "@components/christmas/SnowfallCanvas"

  /** The `christmas` settings; a missing `features.snowfall` is None. */
  datatype Christmas = Christmas(enabled: bool, snowfall: Option<bool>)

  /** `christmas.enabled && christmas.features?.snowfall`, a missing section being disabled. */
  predicate SnowfallEnabled(christmas: Option<Christmas>) {
    christmas.Some? && christmas.value.enabled && christmas.value.snowfall == Some(true)
  }

  /** `resolveId` of the snowfall plugin. */
  function SnowfallResolveId(christmas: Option<Christmas>, id: string): (r: Option<string>)
    ensures r.Some? ==> r.value == Resolved(SnowfallVirtual)
  {
    if id == SnowfallVirtual then Some(Resolved(SnowfallVirtual))
    else if !SnowfallEnabled(christmas) && id == SnowfallAlias then Some(Resolved(SnowfallVirtual))
    else None
  }

  /** `load`: the stand-in canvas for the resolved id, nothing for any other. */
  function SnowfallLoad(id: string): (r: Option<string>) {
    if id == Resolved(SnowfallVirtual) then Some("export function SnowfallCanvas() { return null; }") else None
  }

  /**
   * The canvas is swapped for the stand-in exactly when snowfall is off;
   * the virtual id always resolves; nothing else is touched; whatever
   * resolves loads.
   */
  lemma SnowfallRedirect(christmas: Option<Christmas>, id: string)
    ensures SnowfallResolveId(christmas, SnowfallAlias).Some? <==> !SnowfallEnabled(christmas)
    ensures SnowfallResolveId(christmas, SnowfallVirtual) == Some(Resolved(SnowfallVirtual))
    ensures id != SnowfallVirtual && id != SnowfallAlias ==> SnowfallResolveId(christmas, id).None?
    ensures SnowfallResolveId(christmas, id).Some? ==> SnowfallLoad(SnowfallResolveId(christmas, id).value).Some?
  {
  }

  /** Without a `christmas` section, or without `features.snowfall`, there is no snowfall. */
  lemma SnowfallOffByDefault(enabled: bool)
    ensures !SnowfallEnabled(None)
    ensures !SnowfallEnabled(Some(Christmas(enabled, None)))
  {
  }

  // ---- conditionalCms ----

  const ComponentsVirtual: string := "virtual:cms-components-noop"
  const LibVirtual: string := "virtual:cms-lib-noop"
  const CssVirtual: string := "virtual:cms-css-noop"

  predicate IsVirtual(id: string) {
    id == ComponentsVirtual || id == LibVirtual || id == CssVirtual
  }

  /** The parsed `cms.yaml`: an empty document, or one with an optional `enabled`. */
  datatype CmsYaml = EmptyDocument | Document(enabled: Option<bool>)

  /** `loadCmsConfig().enabled`: a missing file or an empty document is `enabled: false`. */
  function LoadCmsEnabled(file: Option<CmsYaml>): (r: Option<bool>)
    ensures file.None? ==> r == Some(false)
    ensures file == Some(EmptyDocument) ==> r == Some(false)
  {
    match file
    case None => Some(false)
    case Some(EmptyDocument) => Some(false)
    case Some(Document(enabled)) => enabled
  }

  predicate IsSeparator(c: char) { c == '/' || c == '\\' }

  /** `[\\/]<dir>[\\/]<name>([\\/]|$)` matches at position k. */
  predicate DirPathAt(id: string, dir: string, name: string, k: int) {
    var d := k + 1;
    var n := d + |dir| + 1;
    0 <= k < |id| && IsSeparator(id[k]) &&
    MatchAt(id, dir, d) && n - 1 < |id| && IsSeparator(id[n - 1]) &&
    MatchAt(id, name, n) && (n + |name| == |id| || IsSeparator(id[n + |name|]))
  }

  /** The regular expression tests true somewhere in the id. */
  predicate HasDirPath(id: string, dir: string, name: string) {
    exists k :: 0 <= k < |id| && DirPathAt(id, dir, name, k)
  }

  /** The id is the alias, a path under the alias, or any path through `<dir>/<name>`. */
  predicate IsCmsModule(id: string, dir: string) {
    var alias := "@" + dir + "/cms";
    var rootAlias := "@/" + dir + "/cms";
    id == alias || alias + "/" <= id || id == rootAlias || rootAlias + "/" <= id || HasDirPath(id, dir, "cms")
  }

  predicate IsCmsComponent(id: string) { IsCmsModule(id, "components") }
  predicate IsCmsLib(id: string) { IsCmsModule(id, "lib") }

  predicate EndsWith(s: string, suffix: string) {
    |suffix| <= |s| && s[|s| - |suffix|..] == suffix
  }

  /**
   * `resolveId` of the CMS plugin: the virtual ids resolve always; while
   * the CMS is off, CMS components, then CMS library modules, then
   * BlockNote modules (their style sheets to the empty style sheet) go to
   * the stand-ins; anything else is left to the next resolver.
   */
  function CmsResolveId(isEnabled: bool, id: string): (r: Option<string>)
    ensures r.Some? ==> r.value in {Resolved(ComponentsVirtual), Resolved(LibVirtual), Resolved(CssVirtual)}
  {
    if id == ComponentsVirtual then Some(Resolved(ComponentsVirtual))
    else if id == LibVirtual then Some(Resolved(LibVirtual))
    else if id == CssVirtual then Some(Resolved(CssVirtual))
    else if isEnabled then None
    else if IsCmsComponent(id) then Some(Resolved(ComponentsVirtual))
    else if IsCmsLib(id) then Some(Resolved(LibVirtual))
    else if Contains(id, "@blocknote") then
      (if EndsWith(id, ".css") then Some(Resolved(CssVirtual)) else Some(Resolved(ComponentsVirtual)))
    else None
  }

  /** The stand-in modules `load` returns. */
  datatype Noop = ComponentsNoop | LibNoop | CssNoop

  const ComponentExports: seq<string> :=
    ["CategoryMappingDialog", "CMSDashboardPage", "EditButton", "EditorSelector", "FrontmatterEditor", "PostEditor"]

  const LibExports: seq<string> :=
    ["generateSlug", "createPost", "listPosts", "readPost", "toggleDraft", "writePost",
     "detectNewCategories", "extractCategoryNames", "generateCategorySlug", "buildEditorUrl",
     "getFullFilePath", "openInEditor", "jsonErrorResponse", "jsonResponse", "validateCmsAccess",
     "categoryMappingSchema", "categorySlugSchema", "createPostSchema", "frontmatterSchema",
     "hasValidMarkdownExtension", "isPathSafe"]

  /** The names a stand-in exports, and its default export. */
  function Exports(n: Noop): seq<string> {
    match n
    case ComponentsNoop => ComponentExports
    case LibNoop => LibExports
    case CssNoop => []
  }

  function DefaultExport(n: Noop): Option<string> {
    if n == ComponentsNoop then Some("EditButton") else None
  }

  /** `load` of the CMS plugin. */
  function CmsLoad(id: string): (r: Option<Noop>) {
    if id == Resolved(ComponentsVirtual) then Some(ComponentsNoop)
    else if id == Resolved(CssVirtual) then Some(CssNoop)
    else if id == Resolved(LibVirtual) then Some(LibNoop)
    else None
  }

  /** Every id the plugin resolves is one it loads, and a stand-in's default export is one of its exports. */
  lemma ResolvedIdsLoad(isEnabled: bool, id: string)
    ensures CmsResolveId(isEnabled, id).Some? ==> CmsLoad(CmsResolveId(isEnabled, id).value).Some?
    ensures DefaultExport(ComponentsNoop).value in Exports(ComponentsNoop)
  {
  }

  /** The virtual ids resolve to their `\0` ids whether the CMS is on or off. */
  lemma VirtualIdsAlwaysResolve(isEnabled: bool)
    ensures CmsResolveId(isEnabled, ComponentsVirtual) == Some(Resolved(ComponentsVirtual))
    ensures CmsResolveId(isEnabled, LibVirtual) == Some(Resolved(LibVirtual))
    ensures CmsResolveId(isEnabled, CssVirtual) == Some(Resolved(CssVirtual))
  {
  }

  /** With the CMS on, every other id is left alone. */
  lemma EnabledLeavesOthers(id: string)
    requires !IsVirtual(id)
    ensures CmsResolveId(true, id).None?
  {
  }

  /** With the CMS off, the order of the rules decides where an id goes. */
  lemma DisabledRedirects(id: string)
    requires !IsVirtual(id)
    ensures CmsResolveId(false, id) == Some(Resolved(ComponentsVirtual)) <==>
      IsCmsComponent(id) || (!IsCmsLib(id) && Contains(id, "@blocknote") && !EndsWith(id, ".css"))
    ensures CmsResolveId(false, id) == Some(Resolved(LibVirtual)) <==> !IsCmsComponent(id) && IsCmsLib(id)
    ensures CmsResolveId(false, id) == Some(Resolved(CssVirtual)) <==>
      !IsCmsComponent(id) && !IsCmsLib(id) && Contains(id, "@blocknote") && EndsWith(id, ".css")
    ensures CmsResolveId(false, id).None? <==> !IsCmsComponent(id) && !IsCmsLib(id) && !Contains(id, "@blocknote")
  {
    assert Resolved(ComponentsVirtual) != Resolved(LibVirtual) by {
      assert Resolved(ComponentsVirtual)[13] != Resolved(LibVirtual)[13];
    }
    assert Resolved(ComponentsVirtual) != Resolved(CssVirtual) by {
      assert Resolved(ComponentsVirtual)[14] != Resolved(CssVirtual)[14];
    }
    assert Resolved(LibVirtual) != Resolved(CssVirtual) by {
      assert Resolved(LibVirtual)[13] != Resolved(CssVirtual)[13];
    }
  }

  /** The regular expression for `components/cms` matches a path through that directory. */
  lemma ThroughComponentsCms(id: string, k: nat)
    requires k + 15 <= |id| && id[k] == '/' && id[k + 1..k + 11] == "components" && id[k + 11] == '/'
    requires id[k + 12..k + 15] == "cms" && (k + 15 == |id| || IsSeparator(id[k + 15]))
    ensures HasDirPath(id, "components", "cms")
  {
    assert DirPathAt(id, "components", "cms", k);
  }

  /** No virtual id has a `/` in it. */
  lemma SlashNotVirtual(id: string, k: nat)
    requires k < |id| && id[k] == '/'
    ensures !IsVirtual(id)
  {
    assert forall j :: 0 <= j < |ComponentsVirtual| ==> ComponentsVirtual[j] != '/';
    assert forall j :: 0 <= j < |LibVirtual| ==> LibVirtual[j] != '/';
    assert forall j :: 0 <= j < |CssVirtual| ==> CssVirtual[j] != '/';
  }

  /** Any path through a `components/cms` directory is a CMS component, however it starts. */
  lemma PathThroughCmsComponents(before: string, after: string)
    requires after == [] || IsSeparator(after[0])
    ensures IsCmsComponent(before + "/" + "components" + "/" + "cms" + after)
    ensures CmsResolveId(false, before + "/" + "components" + "/" + "cms" + after) == Some(Resolved(ComponentsVirtual))
  {
    var id := before + "/" + "components" + "/" + "cms" + after;
    var k := |before|;
    assert id[k] == '/' && id[k + 11] == '/';
    assert id[k + 1..k + 11] == "components";
    assert id[k + 12..k + 15] == "cms";
    ThroughComponentsCms(id, k);
    SlashNotVirtual(id, k);
  }

  /** The plugin object: its enabled flag is set once Vite's configuration is known. */
  class ConditionalCms {
    const cmsEnabled: Option<bool>
    var isEnabled: bool

    constructor(cmsConfig: Option<CmsYaml>)
      ensures cmsEnabled == LoadCmsEnabled(cmsConfig) && !isEnabled
    {
      cmsEnabled := LoadCmsEnabled(cmsConfig);
      isEnabled := false;
    }

    /** `configResolved`: on in development or while serving, and only when the CMS settings enable it. */
    method ConfigResolved(mode: string, command: string)
      modifies this
      ensures isEnabled <==> (mode == "development" || command == "serve") && cmsEnabled == Some(true)
    {
      var isDev := mode == "development" || command == "serve";
      isEnabled := isDev && cmsEnabled == Some(true);
    }

    function ResolveId(id: string): Option<string>
      reads this
    {
      CmsResolveId(isEnabled, id)
    }

    function Load(id: string): Option<Noop> {
      CmsLoad(id)
    }
  }

  /** A production build never keeps the CMS, whatever its settings say. */
  lemma ProductionBuildDropsCms(mode: string, command: string, cmsEnabled: Option<bool>, id: string)
    requires mode != "development" && command != "serve"
    ensures var isEnabled := (mode == "development" || command == "serve") && cmsEnabled == Some(true);
      !isEnabled && (IsCmsComponent(id) && !IsVirtual(id) ==> CmsResolveId(isEnabled, id) == Some(Resolved(ComponentsVirtual)))
  {
  }

  /** `umamiEnabled && umamiId`: the analytics integration needs both the switch (off when missing) and a non-empty id. */
  predicate UmamiIncluded(enabled: Option<bool>, id: Option<string>) {
    enabled == Some(true) && id.Some? && id.value != ""
  }

  lemma UmamiNeedsBoth(enabled: Option<bool>, id: Option<string>)
    ensures UmamiIncluded(enabled, id) ==> enabled == Some(true) && id.Some?
    ensures !UmamiIncluded(None, id) && !UmamiIncluded(enabled, None) && !UmamiIncluded(enabled, Some(""))
  {
  }
}
