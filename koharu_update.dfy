/**
 * The handler layer of the update command. The state machine itself (the
 * reducer and the per-status effects) is not part of this model: here the
 * status is whatever the reducer last produced, and the model records the
 * events the handlers dispatch, the calls of `onComplete`, the scheduled
 * auto-exit and the release-notes request.
 */
module KoharuUpdate {
  import opened Common
  import opened KoharuFs
  import KoharuBackup

  datatype Status =
    | Checking | DirtyWarning | BackupConfirm | BackingUp | Fetching | Preview
    | Merging | Installing | Done | Conflict | UpToDate | Error

  /** The events the handlers dispatch to the reducer. */
  datatype Event =
    | BackupConfirmed
    | BackupDone(backupFile: string)
    | BackupSkipped
    | UpdateConfirmed
    | Failed(error: string)

  /** The prefix of the error a failed backup dispatches. */
  const BackupFailedPrefix := "备份失败: "

  /** The error a failed `git merge --abort` dispatches. */
  const AbortFailedMessage := "无法中止合并，请手动执行 git merge --abort"

  /** The statuses in which the command finishes on its own. */
  predicate Finishes(status: Status, checkOnly: bool) {
    status.UpToDate? || status.Done? || status.Error? || (status.Preview? && checkOnly)
  }

  /** The statuses in which a key press returns to the menu (when the hint is shown). */
  predicate AwaitsKey(status: Status, checkOnly: bool) {
    status.Done? || status.Error? || status.UpToDate? || status.DirtyWarning? || (status.Preview? && checkOnly)
  }

  /** Every status the command finishes in also waits for a key; a dirty work tree waits without finishing. */
  lemma FinishingAwaitsKey(status: Status, checkOnly: bool)
    ensures Finishes(status, checkOnly) ==> AwaitsKey(status, checkOnly)
    ensures AwaitsKey(status, checkOnly) && !Finishes(status, checkOnly) <==> status.DirtyWarning?
  {
  }

  /** `path.basename(p)` for a path without a trailing slash. */
  function Basename(p: string): (r: string)
    ensures |r| <= |p| && r == p[|p| - |r|..]
    ensures forall i :: 0 <= i < |r| ==> r[i] != '/'
  {
    p[LastSlash(p) + 1..]
  }

  lemma BasenameOfJoin(dir: string, name: string)
    requires forall i :: 0 <= i < |name| ==> name[i] != '/'
    ensures Basename(PathJoin(dir, name)) == name
  {
    var p := PathJoin(dir, name);
    assert p[|dir|] == '/';
    assert forall i :: |dir| < i < |p| ==> p[i] == name[i - |dir| - 1];
    assert LastSlash(p) == |dir|;
  }

  /** The archive a backup writes is reported by its file name alone. */
  lemma ReportedArchiveName(iso: string)
    requires KoharuBackup.IsIsoInstant(iso)
    ensures Basename(KoharuBackup.ArchivePath(KoharuBackup.Timestamp(iso))) == KoharuBackup.ArchiveName(KoharuBackup.Timestamp(iso))
  {
    var ts := KoharuBackup.Timestamp(iso);
    KoharuBackup.TimestampOfIso(iso);
    var name := KoharuBackup.ArchiveName(ts);
    assert name == "backup-" + ts + ".tar.gz";
    forall i | 0 <= i < |name| ensures name[i] != '/' {
      if 7 <= i < 7 + |ts| {
        assert name[i] == ts[i - 7];
      }
    }
    BasenameOfJoin(KoharuBackup.BackupDir, name);
  }

  /** The first `limit` entries of a list shown on screen, and how many more there are when any are hidden. */
  function Truncate<T>(items: seq<T>, limit: nat): (r: (seq<T>, Option<nat>))
    ensures |r.0| == if |items| <= limit then |items| else limit
    ensures r.0 <= items
    ensures r.1.Some? <==> |items| > limit
    ensures r.1.Some? ==> |r.0| + r.1.value == |items|
  {
    if |items| > limit then
      var more: nat := |items| - limit;
      (items[..limit], Some(more))
    else (items, None)
  }

  /** Uncommitted files are listed five at a time, commits ten at a time. */
  function ShownFiles(files: seq<string>): (seq<string>, Option<nat>) { Truncate(files, 5) }
  function ShownCommits<C>(commits: seq<C>): (seq<C>, Option<nat>) { Truncate(commits, 10) }

  /** Every entry is either shown or counted, never both. */
  lemma TruncateCovers<T>(items: seq<T>, limit: nat)
    ensures var (shown, more) := Truncate(items, limit);
      items == shown + items[|shown|..] && |items[|shown|..]| == (if more.Some? then more.value else 0)
  {
  }

  class UpdateApp {
    const checkOnly: bool
    const force: bool
    const showReturnHint: bool
    /** What the reducer last produced. */
    var status: Status
    /** Every event dispatched, in order. */
    var dispatched: seq<Event>
    /** How many times `onComplete` has run. */
    var completeCalls: nat
    /** How many times the delayed `onComplete` has been (re)scheduled. */
    var exitSchedules: nat
    /** The latest versions whose release notes were requested, in order. */
    var releaseRequests: seq<string>
    var releaseLoading: bool
    var releaseInfo: Option<string>

    constructor(checkOnly: bool, force: bool, showReturnHint: bool)
      ensures this.checkOnly == checkOnly && this.force == force && this.showReturnHint == showReturnHint
      ensures status == Checking && dispatched == [] && completeCalls == 0 && exitSchedules == 0
      ensures releaseRequests == [] && !releaseLoading && releaseInfo == None
    {
      this.checkOnly := checkOnly;
      this.force := force;
      this.showReturnHint := showReturnHint;
      status := Checking;
      dispatched := [];
      completeCalls := 0;
      exitSchedules := 0;
      releaseRequests := [];
      releaseLoading := false;
      releaseInfo := None;
    }

    /** `handleComplete`: the delayed exit, only without the return prompt. */
    method HandleComplete()
      modifies this
      ensures exitSchedules == old(exitSchedules) + (if showReturnHint then 0 else 1)
      ensures status == old(status) && dispatched == old(dispatched) && completeCalls == old(completeCalls)
      ensures releaseRequests == old(releaseRequests) && releaseLoading == old(releaseLoading) && releaseInfo == old(releaseInfo)
    {
      if !showReturnHint {
        exitSchedules := exitSchedules + 1;
      }
    }

    /**
     * The reducer moved to `next`: the effects keyed on the status run. A
     * finishing status schedules the exit; a preview forced outside check
     * mode confirms the update at once; a preview of a known version asks
     * for its release notes. `Enter` stands for a change of status:
     * React re-runs these effects only when `status` differs from the
     * last render's, so callers invoke it only with a new status.
     */
    method Enter(next: Status, latestVersion: string)
      modifies this
      ensures status == next && completeCalls == old(completeCalls) && releaseInfo == old(releaseInfo)
      ensures exitSchedules == old(exitSchedules) + (if Finishes(next, checkOnly) && !showReturnHint then 1 else 0)
      ensures dispatched == old(dispatched) + (if next.Preview? && force && !checkOnly then [UpdateConfirmed] else [])
      ensures next.Preview? && latestVersion != "" && latestVersion != "unknown" ==> (
        releaseRequests == old(releaseRequests) + [latestVersion] && releaseLoading)
      ensures !(next.Preview? && latestVersion != "" && latestVersion != "unknown") ==> (
        releaseRequests == old(releaseRequests) && releaseLoading == old(releaseLoading))
    {
      status := next;
      if status.UpToDate? || status.Done? || status.Error? {
        HandleComplete();
      }
      if status.Preview? && checkOnly {
        HandleComplete();
      }
      if status.Preview? && latestVersion != "" && latestVersion != "unknown" {
        releaseLoading := true;
        releaseRequests := releaseRequests + [latestVersion];
      }
      if status.Preview? && force && !checkOnly {
        dispatched := dispatched + [UpdateConfirmed];
      }
    }

    /** The release-notes request settled: notes that arrived are kept, a failure changes nothing else. */
    method ReleaseSettled(notes: Option<string>)
      modifies this
      ensures !releaseLoading
      ensures releaseInfo == (if notes.Some? then notes else old(releaseInfo))
      ensures status == old(status) && dispatched == old(dispatched) && completeCalls == old(completeCalls)
      ensures exitSchedules == old(exitSchedules) && releaseRequests == old(releaseRequests)
    {
      if notes.Some? {
        releaseInfo := notes;
      }
      releaseLoading := false;
    }

    /**
     * Accepting the backup prompt: the confirmation, then the backup's
     * outcome, given as the archive path written or the error thrown.
     */
    method HandleBackupConfirm(outcome: Result<string>)
      modifies this
      ensures |dispatched| == |old(dispatched)| + 2 && dispatched[..|old(dispatched)|] == old(dispatched)
      ensures dispatched[|old(dispatched)|] == BackupConfirmed
      ensures outcome.Ok? ==> dispatched[|dispatched| - 1] == BackupDone(Basename(outcome.value))
      ensures outcome.Err? ==> dispatched[|dispatched| - 1] == Failed(BackupFailedPrefix + outcome.message)
      ensures status == old(status) && completeCalls == old(completeCalls) && exitSchedules == old(exitSchedules)
    {
      dispatched := dispatched + [BackupConfirmed];
      match outcome {
        case Ok(file) =>
          dispatched := dispatched + [BackupDone(Basename(file))];
        case Err(message) =>
          dispatched := dispatched + [Failed(BackupFailedPrefix + message)];
      }
    }

    method HandleBackupSkip()
      modifies this
      ensures dispatched == old(dispatched) + [BackupSkipped]
      ensures status == old(status) && completeCalls == old(completeCalls) && exitSchedules == old(exitSchedules)
    {
      dispatched := dispatched + [BackupSkipped];
    }

    method HandleUpdateConfirm()
      modifies this
      ensures dispatched == old(dispatched) + [UpdateConfirmed]
      ensures status == old(status) && completeCalls == old(completeCalls) && exitSchedules == old(exitSchedules)
    {
      dispatched := dispatched + [UpdateConfirmed];
    }

    /** Declining the update or the conflict prompt leaves without telling the reducer. */
    method Decline()
      modifies this
      ensures completeCalls == old(completeCalls) + 1
      ensures dispatched == old(dispatched) && status == old(status) && exitSchedules == old(exitSchedules)
    {
      completeCalls := completeCalls + 1;
    }

    /**
     * Accepting the conflict prompt: `aborted` is whether `git merge --abort`
     * succeeded. Success leaves without dispatching; failure dispatches the
     * error asking for a manual abort.
     */
    method HandleAbortMerge(aborted: bool)
      modifies this
      ensures aborted ==> completeCalls == old(completeCalls) + 1 && dispatched == old(dispatched)
      ensures !aborted ==> completeCalls == old(completeCalls) && dispatched == old(dispatched) + [Failed(AbortFailedMessage)]
      ensures status == old(status) && exitSchedules == old(exitSchedules)
    {
      if aborted {
        completeCalls := completeCalls + 1;
      } else {
        dispatched := dispatched + [Failed(AbortFailedMessage)];
      }
    }

    predicate PressAnyKeyActive()
      reads this
    {
      AwaitsKey(status, checkOnly) && showReturnHint
    }

    /** A key press while the prompt is active returns to the menu. */
    method KeyPressed()
      modifies this
      ensures completeCalls == old(completeCalls) + (if old(PressAnyKeyActive()) then 1 else 0)
      ensures status == old(status) && dispatched == old(dispatched) && exitSchedules == old(exitSchedules)
    {
      if PressAnyKeyActive() {
        completeCalls := completeCalls + 1;
      }
    }
  }
}
