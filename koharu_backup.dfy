/**
 * The backup command: choosing basic or full mode, copying the selected
 * items into a staging directory, writing the manifest, packing the
 * archive and moving through its status screens.
 */
module KoharuBackup {
  import opened Common
  import opened KoharuShared
  import opened KoharuFs

  datatype Status = Selecting | Pending | Backing | Compressing | Done | Error

  datatype BackupResult = BackupResult(item: BackupItem, success: bool, skipped: bool)

  /** The operations of a run that can throw. */
  datatype Step = MakeBackupDir | ResetStaging | CopyItem(index: nat) | WriteManifest | Compress | Cleanup | ReadSize

  /** Whether, and where, a run throws, with the error's message. */
  datatype Fault = NoFault | Throws(at: Step, message: string)

  datatype BackupManifest = BackupManifest(
    name: string, version: string, kind: string, timestamp: string, createdAt: string,
    files: seq<(string, bool)>)

  /** The backup directory, relative to the project root. */
  const BackupDir := "backups"

  /** The items of `items` a run processes, in order: the required ones, or all of them in full mode. */
  function Selected(items: seq<BackupItem>, isFull: bool): (r: seq<BackupItem>)
    ensures forall it :: it in r <==> it in items && (it.required || isFull)
    ensures |r| <= |items|
  {
    if items == [] then []
    else if items[0].required || isFull then [items[0]] + Selected(items[1..], isFull)
    else Selected(items[1..], isFull)
  }

  /** A basic backup takes the first five items, a full backup all ten, both in table order. */
  lemma SelectedItems()
    ensures Selected(BackupItems, false) == BackupItems[..5]
    ensures Selected(BackupItems, true) == BackupItems
  {
    FirstFiveRequired();
    SelectRequiredPrefix(BackupItems, 5);
    SelectAll(BackupItems);
  }

  lemma {:induction false} SelectRequiredPrefix(items: seq<BackupItem>, m: nat)
    requires m <= |items|
    requires forall i :: 0 <= i < |items| ==> (items[i].required <==> i < m)
    ensures Selected(items, false) == items[..m]
  {
    if items != [] {
      if m > 0 {
        SelectRequiredPrefix(items[1..], m - 1);
        assert items[..m] == [items[0]] + items[1..][..m - 1];
      } else {
        SelectRequiredPrefix(items[1..], 0);
      }
    }
  }

  lemma {:induction false} SelectAll(items: seq<BackupItem>)
    ensures Selected(items, true) == items
  {
    if items != [] {
      SelectAll(items[1..]);
    }
  }

  /** One result per item, in order: copied when its source exists, skipped otherwise. */
  function ResultsFor(items: seq<BackupItem>, present: set<string>): (r: seq<BackupResult>)
    ensures |r| == |items|
    ensures forall i :: 0 <= i < |items| ==>
      r[i] == BackupResult(items[i], items[i].src in present, items[i].src !in present)
  {
    seq(|items|, i requires 0 <= i < |items| =>
      BackupResult(items[i], items[i].src in present, items[i].src !in present))
  }

  function SuccessCount(results: seq<BackupResult>): nat {
    if results == [] then 0
    else (if results[0].success then 1 else 0) + SuccessCount(results[1..])
  }

  function SkippedCount(results: seq<BackupResult>): nat {
    if results == [] then 0
    else (if results[0].skipped then 1 else 0) + SkippedCount(results[1..])
  }

  /** Every result is either a success or a skip. */
  predicate WellFormed(results: seq<BackupResult>) {
    forall i :: 0 <= i < |results| ==> results[i].skipped == !results[i].success
  }

  /** The copied and skipped counts on the summary screen add up to the items processed. */
  lemma {:induction false} CountsAddUp(results: seq<BackupResult>)
    requires WellFormed(results)
    ensures SuccessCount(results) + SkippedCount(results) == |results|
  {
    if results != [] {
      CountsAddUp(results[1..]);
    }
  }

  /** The manifest's `files` record: each processed item's archive path with its success flag. */
  function FilesOf(results: seq<BackupResult>): (r: seq<(string, bool)>)
    ensures |r| == |results|
    ensures forall i :: 0 <= i < |results| ==> r[i] == (results[i].item.dest, results[i].success)
  {
    seq(|results|, i requires 0 <= i < |results| => (results[i].item.dest, results[i].success))
  }

  function ManifestFor(version: string, isFull: bool, timestamp: string, createdAt: string, results: seq<BackupResult>): BackupManifest {
    BackupManifest("astro-koharu-backup", version, if isFull then "full" else "basic", timestamp, createdAt, FilesOf(results))
  }

  /** No two items share an archive path. */
  predicate DistinctDests(items: seq<BackupItem>) {
    forall i, j :: 0 <= i < j < |items| ==> items[i].dest != items[j].dest
  }

  /** No two backup items share an archive path, so the manifest's `files` has one key per processed item. */
  lemma DestsDistinct()
    ensures DistinctDests(BackupItems)
  {
    forall i, j | 0 <= i < j < |BackupItems| ensures BackupItems[i].dest != BackupItems[j].dest {
      var a, b := BackupItems[i].dest, BackupItems[j].dest;
      assert |a| != |b| || a[0] != b[0];
    }
  }

  /** Both selections keep the archive paths distinct. */
  lemma SelectedDistinct(isFull: bool)
    ensures DistinctDests(Selected(BackupItems, isFull))
  {
    DestsDistinct();
    SelectionKeepsDistinct(BackupItems, isFull);
  }

  /** Selecting items keeps their archive paths distinct. */
  lemma {:induction false} SelectionKeepsDistinct(items: seq<BackupItem>, isFull: bool)
    requires DistinctDests(items)
    ensures DistinctDests(Selected(items, isFull))
  {
    if items != [] {
      SelectionKeepsDistinct(items[1..], isFull);
      var rest := Selected(items[1..], isFull);
      forall j | 0 <= j < |rest| ensures rest[j].dest != items[0].dest {
        assert rest[j] in items[1..];
        var k :| 0 <= k < |items[1..]| && items[1..][k] == rest[j];
        assert items[k + 1] == rest[j];
      }
    }
  }

  /**
   * The manifest of a run: named `astro-koharu-backup`, typed `full` exactly
   * for a full backup, and recording for each processed item, in order, its
   * archive path and whether it was copied, under distinct keys when the
   * items' archive paths are distinct (as `SelectedDistinct` shows they are).
   */
  lemma ManifestOf(version: string, isFull: bool, ts: string, iso: string, items: seq<BackupItem>, present: set<string>)
    requires DistinctDests(items)
    ensures var m := ManifestFor(version, isFull, ts, iso, ResultsFor(items, present));
      && m.name == "astro-koharu-backup"
      && (m.kind == "full" <==> isFull) && (m.kind == "basic" <==> !isFull)
      && |m.files| == |items|
      && (forall i :: 0 <= i < |items| ==> m.files[i] == (items[i].dest, items[i].src in present))
      && (forall i, j :: 0 <= i < j < |items| ==> m.files[i].0 != m.files[j].0)
  {
  }

  // ------------------------------------------------------------- timestamps

  /** `replace(/[:.]/g, '-')`. */
  function DashColonsAndDots(s: string): (r: string)
    ensures |r| == |s|
    ensures forall i :: 0 <= i < |s| ==> r[i] == (if s[i] == ':' || s[i] == '.' then '-' else s[i])
  {
    seq(|s|, i requires 0 <= i < |s| => if s[i] == ':' || s[i] == '.' then '-' else s[i])
  }

  /** The timestamp in archive names, from the ISO form of the current instant. */
  function Timestamp(iso: string): string {
    var s := DashColonsAndDots(iso);
    ReplaceFirst(s[..if |s| < 19 then |s| else 19], "T", "-")
  }

  function BackupName(timestamp: string): string { "backup-" + timestamp }
  function ArchiveName(timestamp: string): string { BackupName(timestamp) + ".tar.gz" }
  function StagingName(timestamp: string): string { ".tmp-" + BackupName(timestamp) }

  /** `Date.prototype.toISOString` output: `YYYY-MM-DDTHH:mm:ss.sssZ`. */
  predicate IsIsoInstant(iso: string) {
    |iso| == 24
    && iso[4] == '-' && iso[7] == '-' && iso[10] == 'T' && iso[13] == ':' && iso[16] == ':'
    && iso[19] == '.' && iso[23] == 'Z'
    && forall i :: 0 <= i < 23 && i !in {4, 7, 10, 13, 16, 19} ==> IsDigit(iso[i])
  }

  /** The timestamp keeps the date and time digits and separates every field by `-`: `YYYY-MM-DD-HH-mm-ss`. */
  lemma TimestampOfIso(iso: string)
    requires IsIsoInstant(iso)
    ensures var ts := Timestamp(iso);
      && |ts| == 19
      && (forall i :: 0 <= i < 19 && i in {4, 7, 10, 13, 16} ==> ts[i] == '-')
      && (forall i :: 0 <= i < 19 && i !in {4, 7, 10, 13, 16} ==> ts[i] == iso[i] && IsDigit(ts[i]))
  {
    var s := DashColonsAndDots(iso)[..19];
    assert s[10] == 'T';
    forall k | 0 <= k < 10 ensures !MatchAt(s, "T", k) {
      assert s[k..k + 1] == [s[k]];
      assert s[k] == '-' || IsDigit(s[k]);
    }
    assert MatchAt(s, "T", 10) by { assert s[10..11] == [s[10]]; }
    assert IndexOf(s, "T") == Some(10);
  }

  /** Archives are named so that the backup listing picks them up. */
  lemma ArchiveIsListed(timestamp: string)
    ensures EndsWith(ArchiveName(timestamp), ".tar.gz")
  {
    var a := ArchiveName(timestamp);
    assert a[|a| - 7..] == ".tar.gz";
  }

  // ------------------------------------------------------------ file layout

  /** Backup sources lie outside the backup directory. */
  lemma SourcesOutsideBackups()
    ensures forall it :: it in BackupItems ==> !Under(it.src, BackupDir)
  {
    forall it | it in BackupItems ensures !Under(it.src, BackupDir) {
      assert it.src[0] != (BackupDir + "/")[0];
    }
  }

  lemma UnderTrans(p: string, q: string, root: string)
    requires Under(p, q) && Under(q, root)
    ensures Under(p, root)
  {
    if q != root && p != q {
      assert (root + "/") <= q;
      assert q <= p by { assert q == (q + "/")[..|q|]; }
      assert (root + "/") <= p;
    }
  }

  lemma JoinUnder(root: string, rel: string)
    ensures Under(PathJoin(root, rel), root)
  {
    assert (root + "/") == PathJoin(root, rel)[..|root| + 1];
  }

  lemma DirnameUnder(root: string, rel: string)
    requires root != []
    ensures Under(Dirname(PathJoin(root, rel)), root)
  {
    var p := PathJoin(root, rel);
    var k := LastSlash(p);
    assert p[|root|] == '/';
    assert k >= |root|;
    if k > |root| {
      assert p[..k][..|root| + 1] == root + "/";
    } else {
      assert p[..k] == root;
    }
  }

  function StagingPath(timestamp: string): string { PathJoin(BackupDir, StagingName(timestamp)) }
  function ArchivePath(timestamp: string): string { PathJoin(BackupDir, ArchiveName(timestamp)) }

  /** A copy fault takes effect only when its item is reached with its source present. */
  predicate CopyFails(fault: Fault, items: seq<BackupItem>, present: set<string>) {
    fault.Throws? && fault.at.CopyItem? && fault.at.index < |items| && items[fault.at.index].src in present
  }

  /** Whether a fault raised after the staging directory exists takes effect. */
  predicate StageFails(fault: Fault, items: seq<BackupItem>, present: set<string>) {
    fault.Throws? && !WhilePreparing(fault.at) && (!fault.at.CopyItem? || CopyFails(fault, items, present))
  }

  /** Whether the run ends in the error screen. */
  predicate RunFails(fault: Fault, items: seq<BackupItem>, present: set<string>) {
    fault.Throws? && (WhilePreparing(fault.at) || StageFails(fault, items, present))
  }

  /** The staging directory and the archive lie in the backup directory, apart from each other. */
  lemma StagingLayout(ts: string)
    ensures StagingPath(ts) != [] && StagingPath(ts) != BackupDir
    ensures Under(StagingPath(ts), BackupDir)
    ensures !Under(ArchivePath(ts), StagingPath(ts)) && ArchivePath(ts) != BackupDir
  {
    JoinUnder(BackupDir, StagingName(ts));
    ArchiveNotStaged(ts);
  }

  /** A path outside the backup directory is outside the staging directory too. */
  lemma OutsideStaging(src: string, ts: string)
    requires !Under(src, BackupDir)
    ensures !Under(src, StagingPath(ts)) && src != BackupDir
  {
    StagingLayout(ts);
    if Under(src, StagingPath(ts)) {
      UnderTrans(src, StagingPath(ts), BackupDir);
    }
  }

  /** Faults raised while preparing the directories. */
  predicate WhilePreparing(at: Step) { at.MakeBackupDir? || at.ResetStaging? }

  /** Faults raised once the status is `compressing`. */
  predicate AfterPacking(at: Step) { at.Compress? || at.Cleanup? || at.ReadSize? }

  /** The statuses a failed run passes through: the error comes after `compressing` once packing has begun. */
  function ErrorTrail(at: Step): seq<Status> {
    if AfterPacking(at) then [Backing, Compressing, Error] else [Backing, Error]
  }

  /** A fault after the staging directory was created and before it is removed leaves it on disk. */
  predicate StagingLeftBehind(at: Step) {
    !WhilePreparing(at) && !at.ReadSize?
  }

  /**
   * After a successful run: the archive exists and holds the manifest and
   * every selected item whose source was present, and the staging
   * directory is gone.
   */
  predicate Archived(paths: set<string>, archives: map<string, set<string>>, items: seq<BackupItem>,
                     present: set<string>, ts: string) {
    && ArchivePath(ts) in paths && ArchivePath(ts) in archives
    && (forall it :: it in items && it.src in present ==> it.dest in archives[ArchivePath(ts)])
    && "manifest.json" in archives[ArchivePath(ts)]
    && (forall p :: Under(p, StagingPath(ts)) ==> p !in paths)
  }

  /** Copies `src` to `rel` below `staging`, creating its parent directory first; nothing outside `staging` changes. */
  method StageCopy(fs: FileSystem, src: string, staging: string, rel: string)
    requires staging != [] && src in fs.paths
    modifies fs
    ensures old(fs.paths) <= fs.paths && PathJoin(staging, rel) in fs.paths && fs.archives == old(fs.archives)
    ensures forall p :: !Under(p, staging) ==> (p in fs.paths <==> p in old(fs.paths))
  {
    var dest := PathJoin(staging, rel);
    DirnameUnder(staging, rel);
    JoinUnder(staging, rel);
    fs.MakeDir(Dirname(dest));
    ghost var before := fs.paths;
    fs.CopyTree(src, dest);
    CopiedUnder(before, src, dest);
    assert dest == dest + src[|src|..];
    forall p | p in fs.paths && p !in before ensures Under(p, staging) {
      UnderTrans(p, dest, staging);
    }
  }

  /** `tar -czf` of the staging directory: the archive holds every staged item and the manifest. */
  method PackStaging(fs: FileSystem, ts: string, ghost items: seq<BackupItem>, ghost present: set<string>)
    requires forall it :: it in items && it.src in present ==> PathJoin(StagingPath(ts), it.dest) in fs.paths
    requires PathJoin(StagingPath(ts), "manifest.json") in fs.paths
    modifies fs
    ensures fs.paths == old(fs.paths) + {ArchivePath(ts)} && ArchivePath(ts) in fs.archives
    ensures forall it :: it in items && it.src in present ==> it.dest in fs.archives[ArchivePath(ts)]
    ensures "manifest.json" in fs.archives[ArchivePath(ts)]
  {
    ghost var staged := fs.paths;
    fs.Pack(ArchivePath(ts), StagingPath(ts));
    forall it | it in items && it.src in present ensures it.dest in fs.archives[ArchivePath(ts)] {
      RelativeHas(staged, StagingPath(ts), it.dest);
    }
    RelativeHas(staged, StagingPath(ts), "manifest.json");
  }

  class BackupApp {
    /** The backup table the app works from. */
    const table: seq<BackupItem>
    const showReturnHint: bool
    var status: Status
    var isFullBackup: bool
    var results: seq<BackupResult>
    var backupFile: string
    var error: string
    /** Every status the run has set, in order. */
    var trail: seq<Status>
    /** How many times `onComplete` has run. */
    var completeCalls: nat
    /** Whether the delayed `onComplete` after a finished run has been scheduled. */
    var exitScheduled: bool

    constructor(initialFull: bool, showReturnHint: bool)
      ensures table == BackupItems && Valid()
      ensures this.showReturnHint == showReturnHint
      ensures status == (if initialFull then Pending else Selecting)
      ensures isFullBackup == initialFull
      ensures results == [] && backupFile == "" && error == "" && trail == []
      ensures completeCalls == 0 && !exitScheduled
    {
      table := BackupItems;
      this.showReturnHint := showReturnHint;
      SourcesOutsideBackups();
      status := if initialFull then Pending else Selecting;
      isFullBackup := initialFull;
      results := [];
      backupFile := "";
      error := "";
      trail := [];
      completeCalls := 0;
      exitScheduled := false;
    }

    /** Every source in the table lies outside the backup directory. */
    predicate Valid() {
      forall it :: it in table ==> !Under(it.src, BackupDir)
    }

    /** Picking a mode: `cancel` leaves at once, anything else sets the mode and starts. */
    method HandleModeSelect(value: string)
      modifies this
      ensures value == "cancel" ==>
        completeCalls == old(completeCalls) + 1 && status == old(status) && isFullBackup == old(isFullBackup)
      ensures value != "cancel" ==>
        completeCalls == old(completeCalls) && status == Pending && isFullBackup == (value == "full")
      ensures results == old(results) && trail == old(trail) && exitScheduled == old(exitScheduled)
    {
      if value == "cancel" {
        completeCalls := completeCalls + 1;
        return;
      }
      isFullBackup := value == "full";
      status := Pending;
    }

    /** The key-press prompt that returns to the menu. */
    predicate PressAnyKeyActive()
      reads this
    {
      (status == Done || status == Error) && showReturnHint
    }

    method Fail(message: string)
      modifies this
      ensures status == Error && error == message && trail == old(trail) + [Error]
      ensures exitScheduled == (old(exitScheduled) || !showReturnHint)
      ensures results == old(results) && backupFile == old(backupFile)
      ensures isFullBackup == old(isFullBackup) && completeCalls == old(completeCalls)
    {
      error := message;
      status := Error;
      trail := trail + [Error];
      if !showReturnHint {
        exitScheduled := true;
      }
    }

    /**
     * The copy loop of a run: each item whose source exists is copied to
     * its archive path under `staging`, the others are skipped, and the
     * results shown grow by one entry per item. `present` is the set of
     * paths outside `staging` when the loop starts.
     */
    method CopyItems(fs: FileSystem, items: seq<BackupItem>, staging: string, ghost present: set<string>, fault: Fault)
      returns (ok: bool, acc: seq<BackupResult>)
      requires staging != [] && staging in fs.paths
      requires forall it :: it in items ==> !Under(it.src, staging) && (it.src in fs.paths <==> it.src in present)
      modifies this, fs
      ensures ok <==> !CopyFails(fault, items, present)
      ensures ok ==> (
        && status == old(status) && trail == old(trail)
        && acc == ResultsFor(items, present)
        && results == (if items == [] then old(results) else acc)
        && exitScheduled == old(exitScheduled)
        && forall it :: it in items && it.src in present ==> PathJoin(staging, it.dest) in fs.paths)
      ensures !ok ==> (
        && status == Error && error == fault.message && trail == old(trail) + [Error]
        && results == (if fault.at.index == 0 then old(results) else ResultsFor(items[..fault.at.index], present))
        && exitScheduled == (old(exitScheduled) || !showReturnHint))
      ensures isFullBackup == old(isFullBackup) && completeCalls == old(completeCalls) && backupFile == old(backupFile)
      ensures staging in fs.paths && fs.archives == old(fs.archives)
      ensures forall p :: !Under(p, staging) ==> (p in fs.paths <==> p in old(fs.paths))
    {
      ghost var start := fs.paths;
      acc := [];
      var k := 0;
      while k < |items|
        invariant 0 <= k <= |items|
        invariant acc == ResultsFor(items[..k], present)
        invariant results == if k == 0 then old(results) else acc
        invariant !(fault.Throws? && fault.at.CopyItem? && fault.at.index < k && items[fault.at.index].src in present)
        invariant staging in fs.paths && fs.archives == old(fs.archives)
        invariant forall p :: !Under(p, staging) ==> (p in fs.paths <==> p in start)
        invariant forall j :: 0 <= j < k && items[j].src in present ==> PathJoin(staging, items[j].dest) in fs.paths
        invariant status == old(status) && trail == old(trail) && exitScheduled == old(exitScheduled)
        invariant isFullBackup == old(isFullBackup) && completeCalls == old(completeCalls) && backupFile == old(backupFile)
      {
        var item := items[k];
        var found := fs.Exists(item.src);
        if found && fault.Throws? && fault.at == CopyItem(k) {
          Fail(fault.message);
          return false, acc;
        }
        if found {
          StageCopy(fs, item.src, staging, item.dest);
        }
        acc := acc + [BackupResult(item, found, !found)];
        assert items[..k + 1] == items[..k] + [item];
        results := acc;
        k := k + 1;
      }
      assert items[..k] == items;
      forall it | it in items && it.src in present ensures PathJoin(staging, it.dest) in fs.paths {
        var j :| 0 <= j < |items| && items[j] == it;
      }
      return true, acc;
    }

    /**
     * One backup run against the file system `fs`. `version` is the
     * package version, `iso` the current instant and `fault` where, if
     * anywhere, an operation throws. Returns the manifest if it was written.
     */
    method RunBackup(fs: FileSystem, version: string, iso: string, fault: Fault) returns (manifest: Option<BackupManifest>)
      requires Valid()
      modifies this, fs
      ensures isFullBackup == old(isFullBackup) && completeCalls == old(completeCalls)
      ensures exitScheduled == (old(exitScheduled) || !showReturnHint)
      ensures !RunFails(fault, Selected(table, isFullBackup), old(fs.paths)) ==>
        status == Done && trail == old(trail) + [Backing, Compressing, Done] && backupFile == ArchivePath(Timestamp(iso))
      ensures !RunFails(fault, Selected(table, isFullBackup), old(fs.paths)) ==>
        (Selected(table, isFullBackup) != [] ==> results == ResultsFor(Selected(table, isFullBackup), old(fs.paths)))
        && manifest == Some(ManifestFor(version, isFullBackup, Timestamp(iso), iso, ResultsFor(Selected(table, isFullBackup), old(fs.paths))))
      ensures !RunFails(fault, Selected(table, isFullBackup), old(fs.paths)) ==>
        Archived(fs.paths, fs.archives, Selected(table, isFullBackup), old(fs.paths), Timestamp(iso))
      ensures RunFails(fault, Selected(table, isFullBackup), old(fs.paths)) ==>
        status == Error && error == fault.message && manifest == None
        && trail == old(trail) + ErrorTrail(fault.at)
      ensures RunFails(fault, Selected(table, isFullBackup), old(fs.paths)) && StagingLeftBehind(fault.at) ==>
        StagingPath(Timestamp(iso)) in fs.paths
      ensures CopyFails(fault, Selected(table, isFullBackup), old(fs.paths)) && fault.at.index > 0 ==>
        results == ResultsFor(Selected(table, isFullBackup)[..fault.at.index], old(fs.paths))
      ensures forall p :: !Under(p, StagingPath(Timestamp(iso))) && p != ArchivePath(Timestamp(iso)) && p != BackupDir ==>
        (p in fs.paths <==> p in old(fs.paths))
    {
      ghost var present := fs.paths;
      var isFull := isFullBackup;
      var items := Selected(table, isFull);
      var ts := Timestamp(iso);
      status := Backing;
      trail := trail + [Backing];
      var ok := Prepare(fs, ts, fault);
      if !ok {
        return None;
      }
      forall it | it in items ensures !Under(it.src, StagingPath(ts)) && (it.src in fs.paths <==> it.src in present) {
        OutsideStaging(it.src, ts);
      }
      manifest := Stage(fs, items, present, ts, version, iso, isFull, fault);
    }

    /** Everything after the staging directory exists: copying, the manifest, packing and cleaning up. */
    method Stage(fs: FileSystem, items: seq<BackupItem>, ghost present: set<string>, ts: string,
                 version: string, iso: string, isFull: bool, fault: Fault)
      returns (manifest: Option<BackupManifest>)
      requires StagingPath(ts) in fs.paths
      requires forall it :: it in items ==> !Under(it.src, StagingPath(ts)) && (it.src in fs.paths <==> it.src in present)
      modifies this, fs
      ensures isFullBackup == old(isFullBackup) && completeCalls == old(completeCalls)
      ensures exitScheduled == (old(exitScheduled) || !showReturnHint)
      ensures !StageFails(fault, items, present) ==>
        status == Done && trail == old(trail) + [Compressing, Done] && backupFile == ArchivePath(ts)
        && (items != [] ==> results == ResultsFor(items, present))
        && manifest == Some(ManifestFor(version, isFull, ts, iso, ResultsFor(items, present)))
        && Archived(fs.paths, fs.archives, items, present, ts)
      ensures StageFails(fault, items, present) ==>
        status == Error && error == fault.message && manifest == None
        && trail == old(trail) + (if AfterPacking(fault.at) then [Compressing, Error] else [Error])
        && (!fault.at.ReadSize? ==> StagingPath(ts) in fs.paths)
      ensures CopyFails(fault, items, present) && fault.at.index > 0 ==>
        results == ResultsFor(items[..fault.at.index], present)
      ensures forall p :: !Under(p, StagingPath(ts)) && p != ArchivePath(ts) ==> (p in fs.paths <==> p in old(fs.paths))
    {
      StagingLayout(ts);
      var ok, backupResults := CopyItems(fs, items, StagingPath(ts), present, fault);
      if !ok {
        return None;
      }
      manifest := Some(ManifestFor(version, isFull, ts, iso, backupResults));
      ok := Finish(fs, ts, items, present, fault);
      if !ok {
        manifest := None;
      }
    }

    /** Creating the backup directory and an empty staging directory. */
    method Prepare(fs: FileSystem, ts: string, fault: Fault) returns (ok: bool)
      modifies this, fs
      ensures ok <==> !(fault.Throws? && WhilePreparing(fault.at))
      ensures ok ==> (
        && status == old(status) && trail == old(trail) && exitScheduled == old(exitScheduled)
        && StagingPath(ts) in fs.paths
        && forall p :: !Under(p, StagingPath(ts)) ==> (p in fs.paths <==> p in old(fs.paths) || p == BackupDir))
      ensures !ok ==> (
        && status == Error && error == fault.message && trail == old(trail) + [Error]
        && exitScheduled == (old(exitScheduled) || !showReturnHint)
        && fs.paths == old(fs.paths) + (if fault.at == ResetStaging then {BackupDir} else {}))
      ensures fs.archives == old(fs.archives)
      ensures results == old(results) && isFullBackup == old(isFullBackup)
        && completeCalls == old(completeCalls) && backupFile == old(backupFile)
    {
      if fault.Throws? && fault.at == MakeBackupDir {
        Fail(fault.message);
        return false;
      }
      fs.MakeDir(BackupDir);
      if fault.Throws? && fault.at == ResetStaging {
        Fail(fault.message);
        return false;
      }
      var staging := StagingPath(ts);
      fs.RemoveTree(staging);
      fs.MakeDir(staging);
      return true;
    }

    /** Writing the manifest, packing the archive, removing the staging directory and reporting. */
    method Finish(fs: FileSystem, ts: string, ghost items: seq<BackupItem>, ghost present: set<string>, fault: Fault)
      returns (ok: bool)
      requires forall it :: it in items && it.src in present ==> PathJoin(StagingPath(ts), it.dest) in fs.paths
      modifies this, fs
      ensures ok <==> !(fault.Throws? && (fault.at.WriteManifest? || AfterPacking(fault.at)))
      ensures ok ==> (
        && status == Done && trail == old(trail) + [Compressing, Done] && backupFile == ArchivePath(ts)
        && Archived(fs.paths, fs.archives, items, present, ts))
      ensures !ok ==> (
        && status == Error && error == fault.message && backupFile == old(backupFile)
        && trail == old(trail) + (if fault.at.WriteManifest? then [Error] else [Compressing, Error])
        && (!fault.at.ReadSize? ==> old(fs.paths) <= fs.paths))
      ensures forall p :: !Under(p, StagingPath(ts)) && p != ArchivePath(ts) ==> (p in fs.paths <==> p in old(fs.paths))
      ensures results == old(results) && isFullBackup == old(isFullBackup) && completeCalls == old(completeCalls)
      ensures exitScheduled == (old(exitScheduled) || !showReturnHint)
    {
      var staging, archive := StagingPath(ts), ArchivePath(ts);
      StagingLayout(ts);
      if fault.Throws? && fault.at == WriteManifest {
        Fail(fault.message);
        return false;
      }
      JoinUnder(staging, "manifest.json");
      fs.WriteFile(PathJoin(staging, "manifest.json"));

      status := Compressing;
      trail := trail + [Compressing];
      if fault.Throws? && fault.at == Compress {
        Fail(fault.message);
        return false;
      }
      PackStaging(fs, ts, items, present);
      if fault.Throws? && fault.at == Cleanup {
        Fail(fault.message);
        return false;
      }
      fs.RemoveTree(staging);
      if fault.Throws? && fault.at == ReadSize {
        Fail(fault.message);
        return false;
      }
      backupFile := archive;
      status := Done;
      trail := trail + [Done];
      if !showReturnHint {
        exitScheduled := true;
      }
      return true;
    }

    /** The effect that starts a run once the status is `pending`. */
    method PendingEffect(fs: FileSystem, version: string, iso: string, fault: Fault)
      requires Valid()
      modifies this, fs
      ensures old(status) != Pending ==> status == old(status) && trail == old(trail) && fs.paths == old(fs.paths)
      ensures old(status) == Pending ==> status == Done || status == Error
    {
      if status == Pending {
        var _ := RunBackup(fs, version, iso, fault);
      }
    }
  }

  lemma RelativeHas(paths: set<string>, root: string, rel: string)
    requires PathJoin(root, rel) in paths
    ensures rel in Relative(paths, root)
  {
    var p := PathJoin(root, rel);
    assert root + "/" <= p;
    assert p[|root| + 1..] == rel;
  }

  lemma ArchiveNotStaged(ts: string)
    ensures !Under(PathJoin(BackupDir, ArchiveName(ts)), PathJoin(BackupDir, StagingName(ts)))
  {
    var a, s := PathJoin(BackupDir, ArchiveName(ts)), PathJoin(BackupDir, StagingName(ts));
    assert a[8] != (s + "/")[8];
  }
}
