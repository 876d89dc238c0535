/**
 * The restore command: previewing what a backup archive would put back
 * (dry run), or unpacking it into a scratch directory and copying each
 * restore entry found there back into the project, with the selection,
 * confirmation and cancellation steps around them.
 */
module KoharuRestore {
  import opened Common
  import opened KoharuShared
  import opened KoharuFs

  datatype Status = Selecting | Confirming | Restoring | Done | Error | Cancelled

  /** The steps of an applied restore that can throw. */
  datatype Step = MakeTemp | Extract | CopyEntry(index: nat) | RemoveTemp

  /** Where, if anywhere, a run throws, and the message of what it throws. */
  datatype Fault = NoFault | Throws(at: Step, message: string)

  /** The prefix `fs.mkdtempSync` extends with random characters; the system temp directory is taken to be `/tmp`. */
  const TempPrefix := "/tmp/astro-koharu-restore-"

  /*
   * Dry run.
   */

  /** A line of `tar -tzf` output the dry run keeps: not empty, not `./`, not the manifest. */
  predicate KeptLine(f: string) {
    f != "" && f != "./" && f != "manifest.json"
  }

  function KeepLines(lines: seq<string>): (r: seq<string>)
    ensures forall x :: x in r <==> x in lines && KeptLine(x)
    ensures |r| <= |lines|
  {
    if lines == [] then []
    else
      assert lines == [lines[0]] + lines[1..];
      (if KeptLine(lines[0]) then [lines[0]] else []) + KeepLines(lines[1..])
  }

  lemma {:induction false} KeepLinesAppend(a: seq<string>, b: seq<string>)
    ensures KeepLines(a + b) == KeepLines(a) + KeepLines(b)
  {
    if a != [] {
      assert (a + b)[1..] == a[1..] + b;
      KeepLinesAppend(a[1..], b);
    } else {
      assert a + b == b;
    }
  }

  /** `file.replace(/\/$/, '')`: one trailing slash goes. */
  function StripSlash(f: string): string {
    if |f| > 0 && f[|f| - 1] == '/' then f[..|f| - 1] else f
  }

  /** The restore target of each archive path, in order. */
  function Targets(files: seq<string>): (r: seq<Option<string>>)
    ensures |r| == |files| && forall i :: 0 <= i < |files| ==> r[i] == RestoreTarget(StripSlash(files[i]))
  {
    seq(|files|, i requires 0 <= i < |files| => RestoreTarget(StripSlash(files[i])))
  }

  /** The values of the present options, in order. */
  function Somes(opts: seq<Option<string>>): (r: seq<string>)
    ensures |r| <= |opts|
  {
    if opts == [] then []
    else
      var last := opts[|opts| - 1];
      Somes(opts[..|opts| - 1]) + (if last.Some? then [last.value] else [])
  }

  lemma SomesStep(opts: seq<Option<string>>, k: nat)
    requires k < |opts|
    ensures Somes(opts[..k + 1]) == Somes(opts[..k]) + (if opts[k].Some? then [opts[k].value] else [])
  {
    assert opts[..k + 1][..k] == opts[..k];
  }

  /** Exactly the present values are collected. */
  lemma {:induction false} SomesHas(opts: seq<Option<string>>)
    ensures forall t :: t in Somes(opts) <==> Some(t) in opts
  {
    if opts != [] {
      var init := opts[..|opts| - 1];
      SomesHas(init);
      assert opts == init + [opts[|opts| - 1]];
    }
  }

  /** The dry run's listing for the archive paths `files`: their restore targets, in order, the unclaimed ones dropped. */
  function Preview(files: seq<string>): seq<string> {
    Somes(Targets(files))
  }

  /** The listing holds exactly the targets of the paths some entry claims. */
  lemma PreviewTargets(files: seq<string>)
    ensures forall t :: t in Preview(files) <==>
      exists i :: 0 <= i < |files| && RestoreTarget(StripSlash(files[i])) == Some(t)
  {
    SomesHas(Targets(files));
    forall t ensures t in Preview(files) <==>
      exists i :: 0 <= i < |files| && RestoreTarget(StripSlash(files[i])) == Some(t)
    {
      if Some(t) in Targets(files) {
        var i :| 0 <= i < |files| && Targets(files)[i] == Some(t);
      }
    }
  }

  /** The restore entry a clean archive path belongs to, by the first-match scan over the table. */
  method MatchEntry(clean: string) returns (target: Option<string>)
    ensures target == RestoreTarget(clean)
  {
    var k := 0;
    while k < |RestoreMap|
      invariant k <= |RestoreMap|
      invariant FirstMatch(clean, k) == FirstMatch(clean, 0)
    {
      var (src, dest) := RestoreMap[k];
      if clean == src || src + "/" <= clean {
        if clean == src {
          assert clean[|src|..] == [];
          target := Some(dest);
        } else {
          assert src <= clean by { assert src == (src + "/")[..|src|]; }
          ReplaceFirstPrefix(clean, src, dest);
          target := Some(ReplaceFirst(clean, src, dest));
        }
        return;
      }
      k := k + 1;
    }
    target := None;
  }

  /** The dry run's loop: every kept path is cleaned and looked up, and its target, if any, is listed. */
  method PreviewFiles(files: seq<string>) returns (preview: seq<string>)
    ensures preview == Preview(files)
  {
    ghost var targets := Targets(files);
    preview := [];
    for k := 0 to |files|
      invariant preview == Somes(targets[..k])
    {
      var target := MatchEntry(StripSlash(files[k]));
      SomesStep(targets, k);
      if target.Some? {
        preview := preview + [target.value];
      }
    }
    assert targets[..|files|] == targets;
  }

  /** The dry run's listing for the output of `tar -tzf`. */
  method DryRunPreview(listing: string) returns (preview: seq<string>)
    ensures preview == Preview(ArchiveMembers(listing))
  {
    var files := KeepLines(StripDots(Split(listing, "\n")));
    preview := PreviewFiles(files);
  }

  /** The archive paths the dry run previews, as written: the kept lines of the listing. */
  function ListedAsWritten(listing: string): seq<string> {
    KeepLines(Split(listing, "\n"))
  }

  /** A leading `./`, as `tar -C dir .` puts before every member, goes. */
  function StripDot(f: string): string {
    if |f| >= 2 && f[..2] == "./" then f[2..] else f
  }

  function StripDots(lines: seq<string>): (r: seq<string>)
    ensures |r| == |lines| && forall i :: 0 <= i < |lines| ==> r[i] == StripDot(lines[i])
  {
    seq(|lines|, i requires 0 <= i < |lines| => StripDot(lines[i]))
  }

  /** The archive paths the dry run previews once the leading `./` of each line is dropped. */
  function ArchiveMembers(listing: string): seq<string> {
    KeepLines(StripDots(Split(listing, "\n")))
  }

  /**
   * What `tar -tzf` prints for an archive made with `tar -C dir .` whose
   * members below `dir` print as `names`: `./`, then `./` before each name,
   * each line ending in a newline.
   */
  function TarListing(names: seq<string>): string {
    Join(["./"] + Dotted(names) + [""], "\n")
  }

  function Dotted(names: seq<string>): (r: seq<string>)
    ensures |r| == |names| && forall i :: 0 <= i < |names| ==> r[i] == "./" + names[i]
  {
    seq(|names|, i requires 0 <= i < |names| => "./" + names[i])
  }

  /** No restore key starts with a dot. */
  lemma KeysStartPlain()
    ensures forall k :: 0 <= k < |RestoreMap| ==> RestoreMap[k].0 != [] && RestoreMap[k].0[0] != '.'
  {
  }

  /** An archive path that starts with `./` is claimed by no entry. */
  lemma DottedUnclaimed(f: string)
    requires |f| >= 2 && f[..2] == "./"
    ensures RestoreTarget(StripSlash(f)) == None
  {
    var clean := StripSlash(f);
    assert clean[0] == '.';
    KeysStartPlain();
    forall m | 0 <= m < |RestoreMap| ensures !UnderKey(clean, RestoreMap[m].0) {
      NotUnderByChar(clean, RestoreMap[m].0, 0);
    }
  }

  lemma {:induction false} SomesNone(opts: seq<Option<string>>)
    requires forall i :: 0 <= i < |opts| ==> opts[i].None?
    ensures Somes(opts) == []
  {
    if opts != [] {
      SomesNone(opts[..|opts| - 1]);
    }
  }

  lemma DottedPreviewEmpty(files: seq<string>)
    requires forall i :: 0 <= i < |files| ==> |files[i]| >= 2 && files[i][..2] == "./"
    ensures Preview(files) == []
  {
    var targets := Targets(files);
    forall i | 0 <= i < |files| ensures targets[i] == None {
      DottedUnclaimed(files[i]);
    }
    SomesNone(targets);
  }

  /** The lines of a `tar -tzf` listing, one per member. */
  lemma ListingLines(names: seq<string>)
    requires forall i :: 0 <= i < |names| ==> !HasChar(names[i], '\n')
    ensures Split(TarListing(names), "\n") == ["./"] + Dotted(names) + [""]
  {
    var parts := ["./"] + Dotted(names) + [""];
    forall i | 0 <= i < |parts| - 1 ensures SafeBeforeSep(parts[i], "\n") {
      if i == 0 {
        SingleCharSafe("./", '\n');
      } else {
        var p := parts[i];
        assert p == "./" + names[i - 1];
        assert forall j :: 2 <= j < |p| ==> p[j] == names[i - 1][j - 2];
        SingleCharSafe(p, '\n');
      }
    }
    assert !Contains(parts[|parts| - 1], "\n");
    SplitJoin(parts, "\n");
  }

  /**
   * As written, the dry run previews nothing for an archive the backup
   * command made: every line of its listing starts with `./`, which no
   * restore key does.
   */
  lemma DryRunAsWrittenMisses(names: seq<string>)
    requires forall i :: 0 <= i < |names| ==> !HasChar(names[i], '\n')
    ensures Preview(ListedAsWritten(TarListing(names))) == []
  {
    ListingLines(names);
    var lines := ["./"] + Dotted(names) + [""];
    var kept := KeepLines(lines);
    forall i | 0 <= i < |kept| ensures |kept[i]| >= 2 && kept[i][..2] == "./" {
      assert kept[i] in lines;
      var j :| 0 <= j < |lines| && lines[j] == kept[i];
      if 0 < j < |lines| - 1 {
        assert lines[j] == "./" + names[j - 1];
      }
    }
    DottedPreviewEmpty(kept);
  }

  /**
   * With the leading `./` dropped, the dry run previews an archive made by
   * the backup command exactly as it previews the bare member names.
   */
  lemma DryRunPreviewsMembers(names: seq<string>)
    requires forall i :: 0 <= i < |names| ==> !HasChar(names[i], '\n')
    ensures ArchiveMembers(TarListing(names)) == KeepLines(names)
  {
    ListingLines(names);
    StripDotsOfListing(names);
    KeepBlankEnds(names);
  }

  lemma KeepBlankEnds(names: seq<string>)
    ensures KeepLines([""] + names + [""]) == KeepLines(names)
  {
    KeepLinesAppend([""] + names, [""]);
    KeepLinesAppend([""], names);
    assert KeepLines([""]) == [];
  }

  lemma StripDotted(n: string)
    ensures StripDot("./" + n) == n
  {
    var d := "./" + n;
    assert d[..2] == "./" && d[2..] == n;
  }

  lemma StripDotsOfListing(names: seq<string>)
    ensures StripDots(["./"] + Dotted(names) + [""]) == [""] + names + [""]
  {
    var lines := ["./"] + Dotted(names) + [""];
    var bare := [""] + names + [""];
    forall i | 0 <= i < |lines| ensures StripDots(lines)[i] == bare[i] {
      if i == 0 {
        assert lines[0] == "./";
      } else if i < |lines| - 1 {
        assert lines[i] == "./" + names[i - 1];
        StripDotted(names[i - 1]);
      }
    }
  }

  /** A directory entry of the archive named after a restore key previews as that entry's project path. */
  lemma EntryPreview(k: nat)
    requires k < |RestoreMap|
    ensures Preview([RestoreMap[k].0 + "/"]) == [RestoreMap[k].1]
  {
    KeyRestores(k);
    var f := RestoreMap[k].0 + "/";
    assert StripSlash(f) == RestoreMap[k].0;
    assert Targets([f]) == [Some(RestoreMap[k].1)];
    assert Targets([f])[..0] == [];
  }

  /*
   * Applied restore.
   */

  /** The project paths an applied restore reports: those of the entries whose archive path was unpacked, in table order. */
  function Restored(table: seq<(string, string)>, members: set<string>): (r: seq<string>)
    ensures |r| <= |table|
  {
    if table == [] then []
    else
      var last := table[|table| - 1];
      Restored(table[..|table| - 1], members) + (if last.0 in members then [last.1] else [])
  }

  /** The report names exactly the project paths of the entries found in the archive. */
  lemma {:induction false} RestoredExactly(table: seq<(string, string)>, members: set<string>)
    ensures forall d :: d in Restored(table, members) <==>
      exists i :: 0 <= i < |table| && table[i].0 in members && table[i].1 == d
  {
    if table != [] {
      var init := table[..|table| - 1];
      RestoredExactly(init, members);
      forall d ensures d in Restored(table, members) <==>
        exists i :: 0 <= i < |table| && table[i].0 in members && table[i].1 == d
      {
        if exists i :: 0 <= i < |table| && table[i].0 in members && table[i].1 == d {
          var i :| 0 <= i < |table| && table[i].0 in members && table[i].1 == d;
          if i < |init| {
            assert init[i] == table[i];
          }
        }
        if d in Restored(init, members) {
          var i :| 0 <= i < |init| && init[i].0 in members && init[i].1 == d;
          assert table[i] == init[i];
        }
      }
    }
  }

  predicate NoRepeats(s: seq<string>) {
    forall i, j :: 0 <= i < j < |s| ==> s[i] != s[j]
  }

  /** With distinct project paths in the table, no path is reported twice. */
  lemma {:induction false} RestoredNoRepeats(table: seq<(string, string)>, members: set<string>)
    requires forall i, j :: 0 <= i < j < |table| ==> table[i].1 != table[j].1
    ensures NoRepeats(Restored(table, members))
  {
    if table != [] {
      var init := table[..|table| - 1];
      var last := table[|table| - 1];
      RestoredNoRepeats(init, members);
      var prev := Restored(init, members);
      if last.0 in members {
        RestoredExactly(init, members);
        assert last.1 !in prev by {
          forall i | 0 <= i < |init| && init[i].0 in members ensures init[i].1 != last.1 {
            assert init[i] == table[i];
          }
        }
        var r := Restored(table, members);
        assert r == prev + [last.1];
        forall i, j | 0 <= i < j < |r| ensures r[i] != r[j] {
          assert r[i] == prev[i];
          if j < |prev| {
            assert r[j] == prev[j];
          }
        }
      } else {
        assert Restored(table, members) == prev;
      }
    }
  }

  /** When every key was unpacked, every entry is reported, in table order. */
  lemma {:induction false} RestoredAll(table: seq<(string, string)>, members: set<string>)
    requires forall i :: 0 <= i < |table| ==> table[i].0 in members
    ensures var r := Restored(table, members); |r| == |table| && forall i :: 0 <= i < |table| ==> r[i] == table[i].1
  {
    if table != [] {
      RestoredAll(table[..|table| - 1], members);
    }
  }

  /**
   * An archive holding every backup item's archive path, as a full backup
   * does, brings every restore entry back, each once, in table order.
   */
  lemma FullBackupRestoresAll(members: set<string>)
    requires forall i :: 0 <= i < |BackupItems| ==> BackupItems[i].dest in members
    ensures var r := Restored(RestoreMap, members);
      && |r| == |RestoreMap|
      && (forall i :: 0 <= i < |RestoreMap| ==> r[i] == RestoreMap[i].1)
      && NoRepeats(r)
  {
    RestoreMapMatchesItems();
    forall k | 0 <= k < |RestoreMap| ensures RestoreMap[k].0 in members {
      var i :| 0 <= i < |BackupItems| && BackupItems[i].dest == RestoreMap[k].0;
    }
    RestoredAll(RestoreMap, members);
    RestoredNoRepeats(RestoreMap, members);
  }

  /** A project path: relative, so never below the absolute scratch directory. */
  predicate ProjectPath(p: string) {
    p != [] && p[0] != '/'
  }

  /** What a copy into the project adds lies below its project path, or is the directory above it. */
  lemma AddedOutsideTemp(p: string, dest: string, temp: string)
    requires ProjectPath(dest) && temp != [] && temp[0] == '/'
    requires Under(p, dest) || p == Dirname(dest)
    ensures !Under(p, temp)
  {
    if Under(p, dest) {
      if dest + "/" <= p {
        assert p[0] == (dest + "/")[0];
      }
    } else if LastSlash(dest) > 0 {
      assert p[0] == dest[0];
    }
    assert ProjectPath(p);
  }

  lemma ExtractedHas(members: set<string>, temp: string, key: string)
    ensures PathJoin(temp, key) in Extracted(members, temp) <==> key in members
  {
    if PathJoin(temp, key) in Extracted(members, temp) {
      var m :| m in members && PathJoin(temp, m) == PathJoin(temp, key);
      assert PathJoin(temp, m)[|temp| + 1..] == m;
      assert PathJoin(temp, key)[|temp| + 1..] == key;
    }
  }

  /** A path the copy loop may add: below a restored project path, or the directory above one. */
  predicate RestoreAdds(table: seq<(string, string)>, members: set<string>, p: string) {
    exists i :: 0 <= i < |table| && table[i].0 in members && (Under(p, table[i].1) || p == Dirname(table[i].1))
  }

  /** The copy loop throws: its fault is at an entry that was unpacked. */
  predicate CopyFails(fault: Fault, table: seq<(string, string)>, members: set<string>) {
    fault.Throws? && fault.at.CopyEntry? && fault.at.index < |table| && table[fault.at.index].0 in members
  }

  /** The copy loop or the removal of the scratch directory throws. */
  predicate ApplyFails(fault: Fault, table: seq<(string, string)>, members: set<string>) {
    CopyFails(fault, table, members) || (fault.Throws? && fault.at.RemoveTemp?)
  }

  /** The first line of the message `execSync` throws when `tar -xzf` fails. */
  function ExtractError(archive: string, temp: string): string {
    "Command failed: tar -xzf \"" + archive + "\" -C \"" + temp + "\""
  }

  /** The whole restore throws: at the scratch directory, at unpacking (or the archive is not one `tar` can read), while copying, or at cleanup. */
  predicate RestoreFails(fault: Fault, table: seq<(string, string)>, archives: map<string, set<string>>, archive: string) {
    || archive !in archives
    || (fault.Throws? && (fault.at.MakeTemp? || fault.at.Extract? || fault.at.RemoveTemp?))
    || ApplyFails(fault, table, archives[archive])
  }

  /**
   * The copy loop of an applied restore: for each entry in table order,
   * when its archive path exists below the scratch directory, the directory
   * above its project path is made and the tree copied there, and the
   * project path is reported. `members` are the unpacked archive paths.
   */
  method CopyEntries(fs: FileSystem, table: seq<(string, string)>, temp: string, ghost members: set<string>, fault: Fault)
    returns (ok: bool, restored: seq<string>)
    requires temp != [] && temp[0] == '/'
    requires forall i :: 0 <= i < |table| ==> ProjectPath(table[i].1)
    requires forall i :: 0 <= i < |table| ==> (PathJoin(temp, table[i].0) in fs.paths <==> table[i].0 in members)
    modifies fs
    ensures ok <==> !CopyFails(fault, table, members)
    ensures ok ==> restored == Restored(table, members)
    ensures ok ==> forall i :: 0 <= i < |table| && table[i].0 in members ==> table[i].1 in fs.paths
    ensures fs.archives == old(fs.archives) && old(fs.paths) <= fs.paths
    ensures forall p :: p in fs.paths && p !in old(fs.paths) ==> RestoreAdds(table, members, p) && !Under(p, temp)
  {
    ghost var start := fs.paths;
    restored := [];
    for k := 0 to |table|
      invariant restored == Restored(table[..k], members)
      invariant forall i :: 0 <= i < k && table[i].0 in members ==> table[i].1 in fs.paths
      invariant forall i :: 0 <= i < |table| ==> (PathJoin(temp, table[i].0) in fs.paths <==> table[i].0 in members)
      invariant fs.archives == old(fs.archives) && start <= fs.paths
      invariant forall p :: p in fs.paths && p !in start ==> RestoreAdds(table, members, p) && !Under(p, temp)
      invariant forall j :: 0 <= j < k && table[j].0 in members ==> !(fault.Throws? && fault.at == CopyEntry(j))
    {
      var (src, dest) := table[k];
      var from := PathJoin(temp, src);
      if fs.Exists(from) {
        if fault.Throws? && fault.at == CopyEntry(k) {
          return false, restored;
        }
        forall i | 0 <= i < |table| ensures Under(PathJoin(temp, table[i].0), temp) {
          JoinUnder(temp, table[i].0);
        }
        ghost var before := fs.paths;
        RestoreCopy(fs, from, dest, temp);
        forall p | p in fs.paths && p !in start ensures RestoreAdds(table, members, p) && !Under(p, temp) {
          if p !in before {
            assert table[k].0 in members && table[k].1 == dest;
          }
        }
        restored := restored + [dest];
      }
      assert table[..k + 1][..k] == table[..k];
    }
    assert table[..|table|] == table;
    ok := true;
  }

  /** One entry's copy: the directory above `dest` is made, then the tree at `from` copied to `dest`. */
  method RestoreCopy(fs: FileSystem, from: string, dest: string, temp: string)
    requires from in fs.paths && ProjectPath(dest) && temp != [] && temp[0] == '/'
    modifies fs
    ensures fs.archives == old(fs.archives) && old(fs.paths) <= fs.paths && dest in fs.paths
    ensures forall p :: p in fs.paths && p !in old(fs.paths) ==> (Under(p, dest) || p == Dirname(dest)) && !Under(p, temp)
  {
    ghost var before := fs.paths;
    fs.MakeDir(Dirname(dest));
    fs.CopyTree(from, dest);
    CopiedUnder(before + {Dirname(dest)}, from, dest);
    forall p | p in fs.paths && p !in before ensures !Under(p, temp) {
      AddedOutsideTemp(p, dest, temp);
    }
    assert Under(from, from);
    assert dest + from[|from|..] == dest;
  }

  lemma JoinUnder(root: string, rel: string)
    ensures Under(PathJoin(root, rel), root)
  {
    assert PathJoin(root, rel) == (root + "/") + rel;
  }

  class RestoreApp {
    /** The restore table the app works from. */
    const table: seq<(string, string)>
    const dryRun: bool
    const force: bool
    const showReturnHint: bool
    var status: Status
    var selectedBackup: string
    var restoredFiles: seq<string>
    var error: string
    /** Every status a run has set, in order. */
    var trail: seq<Status>
    /** How many times `onComplete` has run. */
    var completeCalls: nat
    /** Whether the delayed `onComplete` after a finished run has been scheduled. */
    var exitScheduled: bool

    /** The app opens on the confirmation step when it is given an archive or told to force, and on the list otherwise. */
    constructor(initialBackupFile: string, dryRun: bool, force: bool, showReturnHint: bool)
      ensures table == RestoreMap && Valid()
      ensures this.dryRun == dryRun && this.force == force && this.showReturnHint == showReturnHint
      ensures status == Confirming <==> initialBackupFile != "" || force
      ensures status == Selecting <==> initialBackupFile == "" && !force
      ensures selectedBackup == initialBackupFile
      ensures restoredFiles == [] && error == "" && trail == [] && completeCalls == 0 && !exitScheduled
    {
      table := RestoreMap;
      this.dryRun := dryRun;
      this.force := force;
      this.showReturnHint := showReturnHint;
      status := if initialBackupFile != "" || force then Confirming else Selecting;
      selectedBackup := initialBackupFile;
      restoredFiles := [];
      error := "";
      trail := [];
      completeCalls := 0;
      exitScheduled := false;
    }

    /** Every project path of the table is relative to the project. */
    predicate Valid()
      reads this
    {
      forall i :: 0 <= i < |table| ==> ProjectPath(table[i].1)
    }

    /** The key-press prompt that returns to the menu. */
    predicate PressAnyKeyActive()
      reads this
    {
      (status == Done || status == Error || status == Cancelled) && showReturnHint
    }

    /** Picking from the list: `cancel` leaves at once, an archive moves on to confirmation. */
    method HandleSelect(value: string)
      modifies this
      ensures value == "cancel" ==>
        completeCalls == old(completeCalls) + 1 && status == old(status) && selectedBackup == old(selectedBackup)
      ensures value != "cancel" ==>
        completeCalls == old(completeCalls) && status == Confirming && selectedBackup == value
      ensures restoredFiles == old(restoredFiles) && trail == old(trail) && exitScheduled == old(exitScheduled)
    {
      if value == "cancel" {
        completeCalls := completeCalls + 1;
        return;
      }
      selectedBackup := value;
      status := Confirming;
    }

    /** Declining the confirmation cancels; without the return prompt the app leaves shortly after. */
    method HandleCancel()
      modifies this
      ensures status == Cancelled && trail == old(trail) + [Cancelled]
      ensures exitScheduled == (old(exitScheduled) || !showReturnHint)
      ensures selectedBackup == old(selectedBackup) && restoredFiles == old(restoredFiles)
      ensures completeCalls == old(completeCalls)
    {
      status := Cancelled;
      trail := trail + [Cancelled];
      if !showReturnHint {
        exitScheduled := true;
      }
    }

    method Fail(message: string)
      modifies this
      ensures status == Error && error == message && trail == old(trail) + [Error]
      ensures exitScheduled == (old(exitScheduled) || !showReturnHint)
      ensures restoredFiles == old(restoredFiles) && selectedBackup == old(selectedBackup)
      ensures completeCalls == old(completeCalls)
    {
      error := message;
      status := Error;
      trail := trail + [Error];
      if !showReturnHint {
        exitScheduled := true;
      }
    }

    /**
     * The dry run: `listing` is what `tar -tzf` printed for the selected
     * archive, or the error it threw. Nothing on disk changes.
     */
    method RunDryRun(listing: Result<string>)
      modifies this
      ensures listing.Ok? ==> (
        && status == Done && restoredFiles == Preview(ArchiveMembers(listing.value))
        && trail == old(trail) + [Done] && error == old(error))
      ensures listing.Err? ==> (
        && status == Error && error == listing.message
        && trail == old(trail) + [Error] && restoredFiles == old(restoredFiles))
      ensures exitScheduled == (old(exitScheduled) || !showReturnHint)
      ensures selectedBackup == old(selectedBackup) && completeCalls == old(completeCalls)
    {
      match listing {
        case Err(message) =>
          Fail(message);
        case Ok(out) =>
          var preview := DryRunPreview(out);
          restoredFiles := preview;
          status := Done;
          trail := trail + [Done];
          if !showReturnHint {
            exitScheduled := true;
          }
      }
    }

    /**
     * The applied restore into the scratch directory `TempPrefix + suffix`,
     * which `fs.mkdtempSync` makes fresh. On success the scratch directory is
     * gone, every entry found in the archive is back at its project path and
     * reported, and nothing outside the restored trees changed; a failure
     * after the scratch directory was made leaves it behind.
     */
    method RunRestore(fs: FileSystem, suffix: string, fault: Fault)
      requires Valid()
      requires forall p :: p in fs.paths ==> !Under(p, TempPrefix + suffix)
      modifies this, fs
      ensures fs.archives == old(fs.archives)
      ensures !RestoreFails(fault, table, old(fs.archives), selectedBackup) ==> (
        var members := old(fs.archives)[selectedBackup];
        && status == Done && trail == old(trail) + [Restoring, Done]
        && restoredFiles == Restored(table, members)
        && (forall i :: 0 <= i < |table| && table[i].0 in members ==> table[i].1 in fs.paths)
        && old(fs.paths) <= fs.paths
        && (forall p :: p in fs.paths && p !in old(fs.paths) ==> RestoreAdds(table, members, p))
        && (forall p :: Under(p, TempPrefix + suffix) ==> p !in fs.paths))
      ensures RestoreFails(fault, table, old(fs.archives), selectedBackup) ==> (
        && status == Error && trail == old(trail) + [Restoring, Error]
        && restoredFiles == old(restoredFiles)
        && (fault.Throws? && fault.at.MakeTemp? ==> error == fault.message && fs.paths == old(fs.paths))
        && (!(fault.Throws? && fault.at.MakeTemp?) ==> TempPrefix + suffix in fs.paths))
      ensures exitScheduled == (old(exitScheduled) || !showReturnHint)
      ensures selectedBackup == old(selectedBackup) && completeCalls == old(completeCalls)
    {
      status := Restoring;
      trail := trail + [Restoring];
      var temp := TempPrefix + suffix;
      if fault.Throws? && fault.at.MakeTemp? {
        Fail(fault.message);
        return;
      }
      fs.MakeDir(temp);
      if fault.Throws? && fault.at.Extract? {
        Fail(fault.message);
        return;
      }
      if selectedBackup !in fs.archives {
        Fail(ExtractError(selectedBackup, temp));
        return;
      }
      ghost var members := fs.archives[selectedBackup];
      fs.Unpack(selectedBackup, temp);
      forall i | 0 <= i < |table| ensures PathJoin(temp, table[i].0) in fs.paths <==> table[i].0 in members {
        ExtractedHas(members, temp, table[i].0);
        JoinUnder(temp, table[i].0);
      }
      Apply(fs, temp, members, fault);
    }

    /**
     * Confirming: a dry run previews `listing` and leaves the disk alone;
     * otherwise the archive is restored.
     */
    method HandleConfirm(fs: FileSystem, listing: Result<string>, suffix: string, fault: Fault)
      requires Valid()
      requires forall p :: p in fs.paths ==> !Under(p, TempPrefix + suffix)
      modifies this, fs
      ensures fs.archives == old(fs.archives)
      ensures dryRun ==> (
        && fs.paths == old(fs.paths)
        && (status == Done <==> listing.Ok?)
        && (listing.Ok? ==> restoredFiles == Preview(ArchiveMembers(listing.value))))
      ensures !dryRun ==> (
        && (status == Done <==> !RestoreFails(fault, table, old(fs.archives), selectedBackup))
        && (status == Done ==> restoredFiles == Restored(table, old(fs.archives)[selectedBackup])))
      ensures status == Done || status == Error
      ensures exitScheduled == (old(exitScheduled) || !showReturnHint)
      ensures selectedBackup == old(selectedBackup) && completeCalls == old(completeCalls)
    {
      if dryRun {
        RunDryRun(listing);
      } else {
        RunRestore(fs, suffix, fault);
      }
    }

    /**
     * The effect that restores at once when forced: it runs exactly when
     * forcing, an archive is selected and the app is waiting for
     * confirmation, and it always leaves the confirmation step.
     */
    method ForceEffect(fs: FileSystem, suffix: string, fault: Fault)
      requires Valid()
      requires forall p :: p in fs.paths ==> !Under(p, TempPrefix + suffix)
      modifies this, fs
      ensures fs.archives == old(fs.archives)
      ensures old(force && selectedBackup != "" && status == Confirming) ==> (
        && (status == Done <==> !RestoreFails(fault, table, old(fs.archives), selectedBackup))
        && (status == Done || status == Error)
        && (status == Done ==> restoredFiles == Restored(table, old(fs.archives)[selectedBackup])))
      ensures !old(force && selectedBackup != "" && status == Confirming) ==> (
        && status == old(status) && trail == old(trail) && fs.paths == old(fs.paths)
        && restoredFiles == old(restoredFiles) && exitScheduled == old(exitScheduled))
      ensures selectedBackup == old(selectedBackup) && completeCalls == old(completeCalls)
    {
      if force && selectedBackup != "" && status == Confirming {
        RunRestore(fs, suffix, fault);
      }
    }

    /**
     * The applied restore once the archive is unpacked below `temp`: the
     * copy loop, then the removal of `temp` and the report.
     */
    method Apply(fs: FileSystem, temp: string, ghost members: set<string>, fault: Fault)
      requires Valid() && temp != [] && temp[0] == '/' && temp in fs.paths
      requires forall i :: 0 <= i < |table| ==> (PathJoin(temp, table[i].0) in fs.paths <==> table[i].0 in members)
      modifies this, fs
      ensures fs.archives == old(fs.archives)
      ensures !ApplyFails(fault, table, members) ==> (
        && status == Done && trail == old(trail) + [Done]
        && restoredFiles == Restored(table, members)
        && (forall i :: 0 <= i < |table| && table[i].0 in members ==> table[i].1 in fs.paths)
        && (forall p :: p in old(fs.paths) && !Under(p, temp) ==> p in fs.paths)
        && (forall p :: p in fs.paths && p !in old(fs.paths) ==> RestoreAdds(table, members, p))
        && (forall p :: Under(p, temp) ==> p !in fs.paths))
      ensures ApplyFails(fault, table, members) ==> (
        && status == Error && error == fault.message && trail == old(trail) + [Error]
        && restoredFiles == old(restoredFiles) && temp in fs.paths)
      ensures exitScheduled == (old(exitScheduled) || !showReturnHint)
      ensures selectedBackup == old(selectedBackup) && completeCalls == old(completeCalls)
    {
      var ok, restored := CopyEntries(fs, table, temp, members, fault);
      if !ok {
        Fail(fault.message);
        return;
      }
      if fault.Throws? && fault.at.RemoveTemp? {
        Fail(fault.message);
        return;
      }
      fs.RemoveTree(temp);
      restoredFiles := restored;
      status := Done;
      trail := trail + [Done];
      if !showReturnHint {
        exitScheduled := true;
      }
    }
  }
}
