/**
 * Shared pieces of the site-maintenance command line: the table of items a
 * backup copies, the table a restore copies back, the argument parser and
 * the listing of existing backup archives.
 */
module KoharuShared {
  import opened Common

  /** One entry of the backup table: a project path, its place inside the archive, whether a basic backup takes it. */
  datatype BackupItem = BackupItem(src: string, dest: string, caption: string, required: bool)

  const BackupItems: seq<BackupItem> := [
    BackupItem("src/content/blog", "content/blog", "博客文章", true),
    BackupItem("config/site.yaml", "config/site.yaml", "网站配置", true),
    BackupItem("src/pages/about.md", "pages/about.md", "关于页面", true),
    BackupItem("public/img/avatar.webp", "img/avatar.webp", "用户头像", true),
    BackupItem(".env", "env", "环境变量", true),
    BackupItem("public/img", "img", "所有图片", false),
    BackupItem("public/favicon.ico", "favicon.ico", "网站图标", false),
    BackupItem("src/assets/lqips.json", "assets/lqips.json", "LQIP 数据", false),
    BackupItem("src/assets/similarities.json", "assets/similarities.json", "相似度数据", false),
    BackupItem("src/assets/summaries.json", "assets/summaries.json", "AI 摘要数据", false)
  ]

  /** The restore table as (archive path, project path) pairs, in declaration order. */
  const RestoreMap: seq<(string, string)> := [
    ("content/blog", "src/content/blog"),
    ("config/site.yaml", "config/site.yaml"),
    ("pages/about.md", "src/pages/about.md"),
    ("env", ".env"),
    ("img", "public/img"),
    ("favicon.ico", "public/favicon.ico"),
    ("assets/lqips.json", "src/assets/lqips.json"),
    ("assets/similarities.json", "src/assets/similarities.json"),
    ("assets/summaries.json", "src/assets/summaries.json")
  ]

  /** Exactly the first five backup items are required. */
  lemma FirstFiveRequired()
    ensures |BackupItems| == 10
    ensures forall i :: 0 <= i < |BackupItems| ==> (BackupItems[i].required <==> i < 5)
  {
  }

  /** An archive path belongs to restore entry `key` when it is the key or lies below it. */
  predicate UnderKey(path: string, key: string) {
    path == key || key + "/" <= path
  }

  lemma NotUnderByChar(path: string, key: string, i: nat)
    requires i < |path| && i < |key| && path[i] != key[i]
    ensures !UnderKey(path, key)
  {
    assert (key + "/")[i] == key[i];
  }

  /** The index of the first restore entry that `path` belongs to. */
  function FirstMatch(path: string, from: nat): (r: Option<nat>)
    requires from <= |RestoreMap|
    ensures r.Some? ==> from <= r.value < |RestoreMap| && UnderKey(path, RestoreMap[r.value].0)
    ensures r.Some? ==> forall m :: from <= m < r.value ==> !UnderKey(path, RestoreMap[m].0)
    ensures r.None? ==> forall m :: from <= m < |RestoreMap| ==> !UnderKey(path, RestoreMap[m].0)
    decreases |RestoreMap| - from
  {
    if from == |RestoreMap| then None
    else if UnderKey(path, RestoreMap[from].0) then Some(from)
    else FirstMatch(path, from + 1)
  }

  /**
   * The project path an archive path is restored to: taken from the first
   * restore entry whose key is the path or a directory above it; the entry's
   * project path itself for an exact match, else the path with the key's
   * first occurrence replaced by that project path.
   */
  function RestoreTarget(path: string): (r: Option<string>)
    ensures r.None? <==> forall m :: 0 <= m < |RestoreMap| ==> !UnderKey(path, RestoreMap[m].0)
    ensures r.Some? ==> exists k :: (0 <= k < |RestoreMap| && UnderKey(path, RestoreMap[k].0)
      && r.value == RestoreMap[k].1 + path[|RestoreMap[k].0|..])
    ensures FirstMatch(path, 0).Some? ==>
      var k := FirstMatch(path, 0).value; r == Some(RestoreMap[k].1 + path[|RestoreMap[k].0|..])
  {
    match FirstMatch(path, 0)
    case None => None
    case Some(k) =>
      var (key, dest) := RestoreMap[k];
      if path == key then
        assert path[|key|..] == [];
        Some(dest)
      else
        assert key <= path by { assert key == (key + "/")[..|key|]; }
        ReplaceFirstPrefix(path, key, dest);
        Some(ReplaceFirst(path, key, dest))
  }

  /** No restore key is another key or lies below one. */
  lemma KeysNotNested()
    ensures forall m, k :: 0 <= m < |RestoreMap| && 0 <= k < |RestoreMap| && m != k ==>
      !UnderKey(RestoreMap[k].0, RestoreMap[m].0)
  {
    forall m, k | 0 <= m < |RestoreMap| && 0 <= k < |RestoreMap| && m != k
      ensures !UnderKey(RestoreMap[k].0, RestoreMap[m].0)
    {
      KeyNotUnder(k, m);
    }
  }

  lemma KeyNotUnder(k: nat, m: nat)
    requires k < |RestoreMap| && m < |RestoreMap| && m != k
    ensures !UnderKey(RestoreMap[k].0, RestoreMap[m].0)
  {
    var a, b := RestoreMap[k].0, RestoreMap[m].0;
    if k + m == 1 {
      NotUnderByChar(a, b, 3);
    } else if (k == 6 && 7 <= m) || (m == 6 && 7 <= k) {
      NotUnderByChar(a, b, 7);
    } else if k + m == 15 && 7 <= k {
      NotUnderByChar(a, b, 8);
    } else {
      NotUnderByChar(a, b, 0);
    }
  }

  /** Each restore key is matched by its own entry. */
  lemma KeyRestores(k: nat)
    requires k < |RestoreMap|
    ensures RestoreTarget(RestoreMap[k].0) == Some(RestoreMap[k].1)
  {
    KeysNotNested();
    assert UnderKey(RestoreMap[k].0, RestoreMap[k].0);
    assert FirstMatch(RestoreMap[k].0, 0) == Some(k);
    assert RestoreMap[k].0[|RestoreMap[k].0|..] == [];
  }

  /** Every backup item comes back to where it was taken from; the avatar does so through the `img` entry. */
  lemma BackupItemsRoundTrip()
    ensures forall i :: 0 <= i < |BackupItems| ==> RestoreTarget(BackupItems[i].dest) == Some(BackupItems[i].src)
  {
    forall i | 0 <= i < |BackupItems|
      ensures RestoreTarget(BackupItems[i].dest) == Some(BackupItems[i].src)
    {
      ItemRestores(i);
    }
  }

  lemma ItemRestores(i: nat)
    requires i < |BackupItems|
    ensures RestoreTarget(BackupItems[i].dest) == Some(BackupItems[i].src)
  {
    if i == 3 {
      AvatarRoundTrip();
    } else {
      var k := if i < 3 then i else i - 1;
      ItemIsEntry(i, k);
      KeyRestores(k);
    }
  }

  /** Apart from the avatar, the backup items and the restore entries pair up in order. */
  lemma ItemIsEntry(i: nat, k: nat)
    requires i < |BackupItems| && i != 3 && k == if i < 3 then i else i - 1
    ensures BackupItems[i].dest == RestoreMap[k].0 && BackupItems[i].src == RestoreMap[k].1
  {
    if i == 0 {} else if i == 1 {} else if i == 2 {} else if i == 4 {} else if i == 5 {}
    else if i == 6 {} else if i == 7 {} else if i == 8 {} else {}
  }

  lemma AvatarRoundTrip()
    ensures RestoreTarget("img/avatar.webp") == Some("public/img/avatar.webp")
  {
    var p := "img/avatar.webp";
    forall m | 0 <= m < 4 ensures !UnderKey(p, RestoreMap[m].0) {
      NotUnderByChar(p, RestoreMap[m].0, 0);
    }
    assert UnderKey(p, RestoreMap[4].0) by { assert p[..4] == "img/"; }
    assert FirstMatch(p, 0) == Some(4);
    assert p[3..] == "/avatar.webp";
    assert "public/img" + "/avatar.webp" == "public/img/avatar.webp";
  }

  /** `p` is the archive path of some backup item. */
  predicate IsArchivePath(p: string) {
    exists i :: 0 <= i < |BackupItems| && BackupItems[i].dest == p
  }

  /** Every restore key is the archive path of some backup item, and no two entries share a key or a project path. */
  lemma RestoreMapMatchesItems()
    ensures forall k :: 0 <= k < |RestoreMap| ==> IsArchivePath(RestoreMap[k].0)
    ensures forall k, m :: 0 <= k < m < |RestoreMap| ==> RestoreMap[k].1 != RestoreMap[m].1
    ensures forall k, m :: 0 <= k < m < |RestoreMap| ==> RestoreMap[k].0 != RestoreMap[m].0
  {
    forall k | 0 <= k < |RestoreMap|
      ensures IsArchivePath(RestoreMap[k].0)
    {
      KeyIsItem(k);
    }
    KeysNotNested();
    forall k, m | 0 <= k < m < |RestoreMap| ensures RestoreMap[k].0 != RestoreMap[m].0 {
      assert !UnderKey(RestoreMap[k].0, RestoreMap[m].0);
    }
    forall k, m | 0 <= k < m < |RestoreMap| ensures RestoreMap[k].1 != RestoreMap[m].1 {
      ProjectPathsDiffer(k, m);
    }
  }

  lemma KeyIsItem(k: nat)
    requires k < |RestoreMap|
    ensures IsArchivePath(RestoreMap[k].0)
  {
    var i := if k < 3 then k else k + 1;
    ItemIsEntry(i, k);
    assert BackupItems[i].dest == RestoreMap[k].0;
  }

  lemma ProjectPathsDiffer(k: nat, m: nat)
    requires k < m < |RestoreMap|
    ensures RestoreMap[k].1 != RestoreMap[m].1
  {
    var a, b := RestoreMap[k].1, RestoreMap[m].1;
    if (k == 0 && m == 1) || (k == 2 && m == 5) {
      assert a[0] != b[0];
    } else {
      assert |a| != |b|;
    }
  }

  // ---------------------------------------------------------------- arguments

  datatype Args = Args(
    command: string, full: bool, latest: bool, list: bool, dryRun: bool,
    force: bool, help: bool, keep: Option<int>, backupFile: string)

  const DefaultArgs := Args("", false, false, false, false, false, false, None, "")

  /** A token that is not an option: it starts with neither `--` nor `-`. */
  predicate IsBare(arg: string) {
    !("--" <= arg) && !("-" <= arg)
  }

  /** What a command-line token is, tested in the parser's order. */
  datatype Token = Full | Latest | List | DryRun | Force | Help | Keep | Bare | Other

  function Classify(arg: string): Token {
    if arg == "--full" then Full
    else if arg == "--latest" then Latest
    else if arg == "--list" then List
    else if arg == "--dry-run" then DryRun
    else if arg == "--force" then Force
    else if arg == "--help" || arg == "-h" then Help
    else if arg == "--keep" then Keep
    else if IsBare(arg) then Bare
    else Other
  }

  /** The value `--keep` takes from its token: a positive integer, else the previous value. */
  function KeepValue(token: string, previous: Option<int>): Option<int> {
    var n := ParseInt(token);
    if n.Some? && n.value > 0 then Some(n.value) else previous
  }

  /** The effect of one token that does not consume the next one. */
  function Apply(a: Args, arg: string): Args {
    Step(a, Classify(arg), arg)
  }

  function Step(a: Args, kind: Token, arg: string): Args {
    match kind
    case Full => a.(full := true)
    case Latest => a.(latest := true)
    case List => a.(list := true)
    case DryRun => a.(dryRun := true)
    case Force => a.(force := true)
    case Help => a.(help := true)
    case Keep => a
    case Bare => if a.command == "" then a.(command := arg) else a.(backupFile := arg)
    case Other => a
  }

  /** `--keep` takes the next token only when there is one and it is not empty. */
  predicate TakesNext(argv: seq<string>, i: nat)
    requires i < |argv|
  {
    Classify(argv[i]) == Keep && i + 1 < |argv| && argv[i + 1] != ""
  }

  /** The arguments after reading `argv` from position `i` on, starting from `a`. */
  function ParseFrom(argv: seq<string>, i: nat, a: Args): Args
    requires i <= |argv|
    decreases |argv| - i
  {
    if i == |argv| then a
    else if TakesNext(argv, i) then ParseFrom(argv, i + 2, a.(keep := KeepValue(argv[i + 1], a.keep)))
    else ParseFrom(argv, i + 1, Apply(a, argv[i]))
  }

  function ParseArgsSpec(argv: seq<string>): Args {
    ParseFrom(argv, 0, DefaultArgs)
  }

  /** The command-line parser: one pass over the tokens, `--keep` consuming the token after it. */
  method ParseArgs(argv: seq<string>) returns (args: Args)
    ensures args == ParseArgsSpec(argv)
  {
    args := DefaultArgs;
    var i := 0;
    while i < |argv|
      invariant 0 <= i <= |argv|
      invariant ParseFrom(argv, i, args) == ParseArgsSpec(argv)
      decreases |argv| - i
    {
      var arg := argv[i];
      var kind := Classify(arg);
      if kind == Keep && i + 1 < |argv| && argv[i + 1] != "" {
        assert TakesNext(argv, i);
        var n := ParseInt(argv[i + 1]);
        if n.Some? && n.value > 0 {
          args := args.(keep := Some(n.value));
        }
        i := i + 2;
      } else {
        assert !TakesNext(argv, i);
        assert ParseFrom(argv, i, args) == ParseFrom(argv, i + 1, Step(args, kind, arg));
        match kind {
          case Full => args := args.(full := true);
          case Latest => args := args.(latest := true);
          case List => args := args.(list := true);
          case DryRun => args := args.(dryRun := true);
          case Force => args := args.(force := true);
          case Help => args := args.(help := true);
          case Keep =>
          case Bare =>
            if args.command == "" {
              args := args.(command := arg);
            } else {
              args := args.(backupFile := arg);
            }
          case Other =>
        }
        i := i + 1;
      }
    }
  }

  /** With no tokens every flag is off, `keep` is unset and both names are empty. */
  lemma NoArgsDefaults()
    ensures ParseArgsSpec([]) == Args("", false, false, false, false, false, false, None, "")
  {
  }

  /** `--keep` with a token takes it as a positive count or ignores it, and either way the token is not a name. */
  lemma KeepConsumesToken(token: string)
    requires token != []
    ensures ParseArgsSpec(["--keep", token]).keep == KeepValue(token, None)
    ensures ParseArgsSpec(["--keep", token]).command == ""
    ensures ParseArgsSpec(["--keep", token]).backupFile == ""
  {
    ClassifyKeep();
    var argv := ["--keep", token];
    assert argv[0] == "--keep" && argv[1] == token;
    assert TakesNext(argv, 0);
    var a := DefaultArgs.(keep := KeepValue(token, None));
    assert ParseFrom(argv, 0, DefaultArgs) == ParseFrom(argv, 2, a);
  }

  /** `--keep` followed by a single non-zero digit keeps that many backups. */
  lemma KeepDigit(d: char, previous: Option<int>)
    requires '1' <= d <= '9'
    ensures KeepValue([d], previous) == Some(d as int - '0' as int)
  {
    ParseIntDigits([d]);
    assert [d][..0] == [];
    assert DigitsValue([d]) == d as int - '0' as int;
    assert ParseInt([d]) == Some(d as int - '0' as int);
  }

  /** `--keep 0` is not a positive count and leaves `keep` as it was. */
  lemma KeepZero(zeros: string, previous: Option<int>)
    requires zeros != [] && forall i :: 0 <= i < |zeros| ==> zeros[i] == '0'
    ensures KeepValue(zeros, previous) == previous
  {
    ParseIntDigits(zeros);
    ZerosValue(zeros);
  }

  lemma {:induction false} ZerosValue(zeros: string)
    requires forall i :: 0 <= i < |zeros| ==> zeros[i] == '0'
    ensures DigitsValue(zeros) == 0
  {
    if zeros != [] {
      ZerosValue(zeros[..|zeros| - 1]);
    }
  }

  /** A token starting with a letter is not a number and leaves `keep` as it was. */
  lemma KeepNotNumber(token: string, previous: Option<int>)
    requires token != [] && ('a' <= token[0] <= 'z' || 'A' <= token[0] <= 'Z')
    ensures KeepValue(token, previous) == previous
  {
    ParseIntNaN(token);
  }

  lemma ClassifyKeep()
    ensures Classify("--keep") == Keep
  {
    var k := "--keep";
    assert k[2] == 'k';
    assert k != "--full" by { assert "--full"[2] == 'f'; }
    assert k != "--list" by { assert "--list"[2] == 'l'; }
    assert k != "--latest" && k != "--dry-run" && k != "--force" && k != "--help" && k != "-h";
  }

  /** A `--keep` with nothing after it is ignored: appending one changes nothing. */
  lemma {:induction false} TrailingKeepIgnored(argv: seq<string>, i: nat, a: Args)
    requires i <= |argv|
    ensures ParseFrom(argv + ["--keep"], i, a) == ParseFrom(argv, i, a)
    decreases |argv| - i
  {
    var ext := argv + ["--keep"];
    if i == |argv| {
      assert ext[i] == "--keep";
      assert !TakesNext(ext, i);
    } else {
      assert ext[i] == argv[i];
      if i + 1 < |argv| {
        assert ext[i + 1] == argv[i + 1];
      }
      if Classify(argv[i]) == Keep && i + 1 == |argv| {
        assert ext[i + 1] == "--keep";
        ParseIntDoubleDash("--keep");
      } else if TakesNext(argv, i) {
        TrailingKeepIgnored(argv, i + 2, a.(keep := KeepValue(argv[i + 1], a.keep)));
      } else {
        TrailingKeepIgnored(argv, i + 1, Apply(a, argv[i]));
      }
    }
  }

  lemma ParseIntDoubleDash(s: string)
    requires |s| >= 2 && s[0] == '-' && s[1] == '-'
    ensures ParseInt(s) == None
  {
    assert TrimStart(s) == s;
  }

  /** `argv[i..]` holds a token of the given kind. */
  predicate HasToken(argv: seq<string>, i: nat, t: Token) {
    exists j :: i <= j < |argv| && Classify(argv[j]) == t
  }

  predicate IsFlag(t: Token) {
    t.Full? || t.Latest? || t.List? || t.DryRun? || t.Force? || t.Help?
  }

  /** The boolean field a flag token sets. */
  function FlagOf(a: Args, t: Token): bool
    requires IsFlag(t)
  {
    match t
    case Full => a.full
    case Latest => a.latest
    case List => a.list
    case DryRun => a.dryRun
    case Force => a.force
    case Help => a.help
  }

  lemma StepFlag(a: Args, kind: Token, arg: string, t: Token)
    requires IsFlag(t)
    ensures FlagOf(Step(a, kind, arg), t) == (FlagOf(a, t) || kind == t)
    ensures Step(a, kind, arg).keep == a.keep
  {
  }

  /** Without `--keep`, each flag is on exactly when a token for it is present, and `keep` stays unset. */
  lemma {:induction false} FlagsFromTokens(argv: seq<string>, i: nat, a: Args, t: Token)
    requires i <= |argv|
    requires IsFlag(t)
    requires !HasToken(argv, i, Keep)
    ensures FlagOf(ParseFrom(argv, i, a), t) <==> FlagOf(a, t) || HasToken(argv, i, t)
    ensures ParseFrom(argv, i, a).keep == a.keep
    decreases |argv| - i
  {
    if i < |argv| {
      assert !TakesNext(argv, i);
      StepFlag(a, Classify(argv[i]), argv[i], t);
      FlagsFromTokens(argv, i + 1, Apply(a, argv[i]), t);
      assert HasToken(argv, i, t) <==> Classify(argv[i]) == t || HasToken(argv, i + 1, t) by {
        if HasToken(argv, i, t) && Classify(argv[i]) != t {
          var j :| i <= j < |argv| && Classify(argv[j]) == t;
          assert i + 1 <= j;
        }
      }
    }
  }

  /** Tokens that start with a dash but name no option change nothing. */
  lemma {:induction false} UnknownOptionsIgnored(argv: seq<string>, i: nat, a: Args)
    requires i <= |argv|
    requires forall j :: i <= j < |argv| ==> Classify(argv[j]) == Other
    ensures ParseFrom(argv, i, a) == a
    decreases |argv| - i
  {
    if i < |argv| {
      UnknownOptionsIgnored(argv, i + 1, a);
    }
  }

  /** Among plain names, the first is the command and the last of the others is the backup file. */
  lemma {:induction false} BareTokens(argv: seq<string>, i: nat, a: Args)
    requires i < |argv|
    requires forall j :: i <= j < |argv| ==> Classify(argv[j]) == Bare && argv[j] != ""
    ensures var r := ParseFrom(argv, i, a);
      && r.command == (if a.command == "" then argv[i] else a.command)
      && r.backupFile == (if a.command == "" && i == |argv| - 1 then a.backupFile else argv[|argv| - 1])
    decreases |argv| - i
  {
    var b := Apply(a, argv[i]);
    if i + 1 < |argv| {
      BareTokens(argv, i + 1, b);
    }
  }

  // ------------------------------------------------------------ backup list

  /** JavaScript's default `sort` order on strings: character by character, a proper prefix first. */
  predicate LexLess(a: string, b: string)
    decreases |a|
  {
    if a == [] then b != []
    else if b == [] then false
    else if a[0] != b[0] then a[0] < b[0]
    else LexLess(a[1..], b[1..])
  }

  predicate LexLe(a: string, b: string) { a == b || LexLess(a, b) }

  lemma {:induction false} LexTotal(a: string, b: string)
    ensures LexLe(a, b) || LexLess(b, a)
    decreases |a|
  {
    if a != [] && b != [] && a[0] == b[0] {
      LexTotal(a[1..], b[1..]);
      if a[1..] == b[1..] {
        assert a == [a[0]] + a[1..] && b == [b[0]] + b[1..];
      }
    }
  }

  lemma {:induction false} LexAsym(a: string, b: string)
    requires LexLess(a, b)
    ensures !LexLe(b, a)
    decreases |a|
  {
    if a != [] && b != [] && a[0] == b[0] {
      LexAsym(a[1..], b[1..]);
    }
  }

  predicate SortedAsc(s: seq<string>) {
    forall i :: 0 <= i < |s| - 1 ==> LexLe(s[i], s[i + 1])
  }

  predicate SortedDesc(s: seq<string>) {
    forall i :: 0 <= i < |s| - 1 ==> LexLe(s[i + 1], s[i])
  }

  function Insert(x: string, s: seq<string>): (r: seq<string>)
    requires SortedAsc(s)
    ensures SortedAsc(r)
    ensures multiset(r) == multiset(s) + multiset{x}
    ensures |r| > 0 && (r[0] == x || (|s| > 0 && r[0] == s[0]))
  {
    if s == [] then [x]
    else if LexLe(x, s[0]) then [x] + s
    else
      LexTotal(x, s[0]);
      assert s == [s[0]] + s[1..];
      [s[0]] + Insert(x, s[1..])
  }

  /** `array.sort()` on strings. */
  function Sort(s: seq<string>): (r: seq<string>)
    ensures SortedAsc(r)
    ensures multiset(r) == multiset(s)
  {
    if s == [] then []
    else
      assert s == [s[0]] + s[1..];
      Insert(s[0], Sort(s[1..]))
  }

  function Reverse<T>(s: seq<T>): (r: seq<T>)
    ensures |r| == |s|
    ensures forall i :: 0 <= i < |s| ==> r[i] == s[|s| - 1 - i]
  {
    if s == [] then [] else Reverse(s[1..]) + [s[0]]
  }

  lemma {:induction false} ReverseMultiset<T>(s: seq<T>)
    ensures multiset(Reverse(s)) == multiset(s)
  {
    if s != [] {
      ReverseMultiset(s[1..]);
      assert s == [s[0]] + s[1..];
    }
  }

  /** `names.filter(f => f.endsWith('.tar.gz'))`. */
  function FilterArchives(names: seq<string>): (r: seq<string>)
    ensures forall x :: x in r <==> x in names && EndsWith(x, ".tar.gz")
    ensures forall x :: EndsWith(x, ".tar.gz") ==> multiset(r)[x] == multiset(names)[x]
  {
    if names == [] then []
    else
      assert names == [names[0]] + names[1..];
      if EndsWith(names[0], ".tar.gz") then [names[0]] + FilterArchives(names[1..])
      else FilterArchives(names[1..])
  }

  predicate EndsWith(s: string, suffix: string) {
    |suffix| <= |s| && s[|s| - |suffix|..] == suffix
  }

  /** What reading an archive's manifest gave: nothing usable, or its `type` and `timestamp` fields (`""` when absent or empty). */
  datatype ManifestRead = Unreadable | Manifest(kind: string, timestamp: string)

  datatype BackupInfo = BackupInfo(name: string, path: string, kind: string, timestamp: string)

  function Describe(backupDir: string, name: string, manifest: ManifestRead): BackupInfo {
    match manifest
    case Unreadable => BackupInfo(name, backupDir + "/" + name, "unknown", "")
    case Manifest(kind, timestamp) =>
      BackupInfo(name, backupDir + "/" + name, if kind == "" then "unknown" else kind, timestamp)
  }

  function DescribeAll(backupDir: string, names: seq<string>, manifestOf: string -> ManifestRead): (r: seq<BackupInfo>)
    ensures |r| == |names|
    ensures forall i :: 0 <= i < |names| ==> r[i] == Describe(backupDir, names[i], manifestOf(names[i]))
  {
    if names == [] then []
    else [Describe(backupDir, names[0], manifestOf(names[0]))] + DescribeAll(backupDir, names[1..], manifestOf)
  }

  /**
   * The archives in the backup directory, newest name first. `listing` is
   * the directory's contents, `None` when it does not exist; `manifestOf`
   * stands for extracting and parsing each archive's manifest.
   */
  function GetBackupList(backupDir: string, listing: Option<seq<string>>, manifestOf: string -> ManifestRead): seq<BackupInfo> {
    match listing
    case None => []
    case Some(names) => DescribeAll(backupDir, Reverse(Sort(FilterArchives(names))), manifestOf)
  }

  /** Without a backup directory there is nothing to list. */
  lemma NoDirectoryNoBackups(backupDir: string, manifestOf: string -> ManifestRead)
    ensures GetBackupList(backupDir, None, manifestOf) == []
  {
  }

  /** The names a listing shows, in order. */
  function ListedNames(r: seq<BackupInfo>): (listed: seq<string>)
    ensures |listed| == |r|
    ensures forall i :: 0 <= i < |r| ==> listed[i] == r[i].name
  {
    seq(|r|, i requires 0 <= i < |r| => r[i].name)
  }

  /** The listed names are the directory's archives, sorted and reversed. */
  lemma ListedAreReversedArchives(backupDir: string, names: seq<string>, manifestOf: string -> ManifestRead)
    ensures ListedNames(GetBackupList(backupDir, Some(names), manifestOf)) == Reverse(Sort(FilterArchives(names)))
  {
  }

  /**
   * The listing holds exactly the `.tar.gz` names of the directory, as many
   * times as they occur there.
   */
  lemma BackupListShape(backupDir: string, names: seq<string>, manifestOf: string -> ManifestRead)
    ensures var listed := ListedNames(GetBackupList(backupDir, Some(names), manifestOf));
      && (forall x :: x in listed <==> x in names && EndsWith(x, ".tar.gz"))
      && (forall x :: EndsWith(x, ".tar.gz") ==> multiset(listed)[x] == multiset(names)[x])
  {
    var sorted := Sort(FilterArchives(names));
    ReverseMultiset(sorted);
    var listed := ListedNames(GetBackupList(backupDir, Some(names), manifestOf));
    ListedAreReversedArchives(backupDir, names, manifestOf);
    assert multiset(listed) == multiset(FilterArchives(names));
    forall x ensures x in listed <==> x in FilterArchives(names) {
      assert x in listed <==> x in multiset(listed);
      assert x in FilterArchives(names) <==> x in multiset(FilterArchives(names));
    }
  }

  /**
   * The newest (greatest) name comes first, and an archive whose manifest
   * cannot be read is listed with type `unknown` and no timestamp.
   */
  lemma BackupListNewestFirst(backupDir: string, names: seq<string>, manifestOf: string -> ManifestRead)
    ensures SortedDesc(ListedNames(GetBackupList(backupDir, Some(names), manifestOf)))
    ensures var r := GetBackupList(backupDir, Some(names), manifestOf);
      forall i :: 0 <= i < |r| && manifestOf(r[i].name) == Unreadable ==> r[i].kind == "unknown" && r[i].timestamp == ""
  {
    ListedAreReversedArchives(backupDir, names, manifestOf);
  }
}
