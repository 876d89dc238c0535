# astro-koharu: a verified model of the blog's logic

astro-koharu is an Astro blog theme. Most of it is layout, translation
tables and configuration. Underneath sit a number of small pieces of exact
logic, and this project models them in Dafny and proves what they promise:

- **The site-maintenance command line** (`koharu`):
  - the backup-item and restore tables, and how they agree;
  - the argument parser and the listing of backup archives;
  - the backup pipeline, with its manifest, timestamp naming and status screens;
  - restore, both the dry run and the apply loop;
  - the handler layer of the update command and the step-status helper.

  The file system, `tar` and `git` are abstract: a set of existing paths, and the member list of each archive.
- **The CMS endpoints**:
  - path safety and the order in which requests are validated;
  - front matter serialisation;
  - the line-based insertion of category mappings into the site configuration;
  - post path and front matter generation, and draft toggling;
  - the development-only access guard.

  YAML, gray-matter, date parsing and slug generation are uninterpreted function parameters.
- **The CMS client**:
  - category text format and parse;
  - slug cleaning and the custom-category list;
  - dashboard sort and filter state;
  - the edit-mode store;
  - editor URLs and file paths.
- **i18n routing**: the locale a URL is in, adding and removing the locale prefix, translation fallback and `{param}` interpolation, and the static locale paths.
- **Markdown and quizzes**:
  - the spoiler syntax plugin;
  - reading a quiz out of the rendered list item, over an abstract DOM tree;
  - splitting fill-in-the-blank questions around their gaps;
  - the answer and reveal machines of the single-choice, multiple-choice, true/false and click-to-answer quizzes.
- **Media players and post lists**:
  - the track-index machine of the audio and video hooks, over order, loop and random modes;
  - the lyrics binary search and the playlist grouping;
  - the shared controls;
  - the Fisher–Yates shuffle of the random and related post lists;
  - the single-modal store.
- **Build configuration**: adapter priority, and the module-resolution plugins that swap the CMS, BlockNote and the snowfall canvas for empty stand-ins.

There is one Dafny module per source file, and `Common` holds the JavaScript string and array behaviour they share.

Code that updates state in place is modelled as a class with the same fields:

- the backup and restore apps;
- the handlers that write to a disk;
- the stores;
- the quiz components;
- the player hooks;
- the post lists.

Each method of such a class is proved against a pure function, and the properties are lemmas about those functions. Loops in the source are methods with loop invariants:

- the argument parser;
- the backup and restore loops;
- the category-map insertion;
- the spoiler scan;
- the gap splitter;
- the binary search;
- the shuffle.

`Math.random()` is a parameter in [0, 1) or a nondeterministic choice within range.

## Model

| member | source | states |
|---|---|---|
| Common.TrimStart | src/components/cms/FrontmatterEditor.tsx:44 | the white space at the start of a string goes: the result is no longer and does not start with white space |
| Common.TrimEnd | src/components/cms/FrontmatterEditor.tsx:44 | the white space at the end goes: the result is no longer and does not end with white space |
| Common.TrimStartShape | src/components/cms/FrontmatterEditor.tsx:44 | what `trimStart` keeps is a suffix of the input and everything dropped is white space |
| Common.TrimEndShape | src/components/cms/FrontmatterEditor.tsx:44 | what `trimEnd` keeps is a prefix of the input and everything dropped is white space |
| Common.Trim | src/components/cms/FrontmatterEditor.tsx:44-46 | `trim()` has no white space at either end |
| Common.TrimTrimmed | src/components/cms/FrontmatterEditor.tsx:46 | trimming a string without white space at its ends changes nothing |
| Common.TrimEmptyIff | src/components/cms/FrontmatterEditor.tsx:44 | `trim()` is empty exactly when the string is all white space |
| Common.TrimEndKeepsFirst | src/components/cms/dashboard/useCustomCategories.ts:49-52 | a string starting with a non-space character keeps it after `trimEnd`, so it is not blank |
| Common.TrimmedNonEmptyNotAllSpace | src/components/cms/dashboard/useCustomCategories.ts:49-52 | a trimmed non-empty string is not all white space |
| Common.IndexFrom | src/lib/cms/editor-url.ts:24 | `indexOf(pat, from)` finds the first occurrence at or after `from`, or none when there is none |
| Common.FindChar | src/lib/quiz/parse-quiz.ts:24 | the position found holds the character searched for |
| Common.FindCharFirst | src/lib/quiz/parse-quiz.ts:24 | no earlier position holds the character; none found means no position does |
| Common.IndexOf | src/lib/cms/editor-url.ts:24 | `indexOf(pat)` is the first occurrence, or none when the pattern does not occur |
| Common.ContainsIff | src/pages/api/cms/write.ts:28 | `includes(pat)` holds exactly when the pattern occurs somewhere |
| Common.SliceNoChar | src/components/cms/FrontmatterEditor.tsx:46 | a piece of a string without a character is without it too |
| Common.ContainsChar | cms/src/api/write.ts:85 | `includes` of a one-character string holds exactly when the character occurs |
| Common.ReplaceFirst | src/lib/cms/editor-url.ts:24 | `replace` with a string pattern replaces only the first occurrence, and changes nothing when there is none |
| Common.ReplaceFirstPrefix | scripts/koharu/restore.tsx:60 | when the string starts with the pattern, `replace` swaps that prefix |
| Common.ReplaceAll | src/i18n/utils.ts:45 | `replaceAll` changes nothing when the pattern does not occur |
| Common.ReplaceAllRemoves | src/i18n/utils.ts:45 | after `replaceAll`, a character the replacement does not contain is gone |
| Common.Split | src/components/cms/FrontmatterEditor.tsx:46 | `split(sep)` gives at least one piece and no piece contains the separator |
| Common.NoMatchBefore | src/components/cms/FrontmatterEditor.tsx:46 | the text before the first occurrence of the separator does not contain it |
| Common.Join | src/components/cms/FrontmatterEditor.tsx:30-34 | `join` of a single piece is that piece |
| Common.JoinSplit | src/i18n/utils.ts:147-151 | splitting and joining again with the same separator gives back the input |
| Common.FirstSepAtJoint | src/components/cms/FrontmatterEditor.tsx:46 | the first separator of `a + sep + b` is right after `a` when `a` cannot start one |
| Common.SplitJoin | src/components/cms/FrontmatterEditor.tsx:30-46 | joining pieces without the separator and splitting again gives back the pieces |
| Common.SplitAtJoint | src/components/cms/FrontmatterEditor.tsx:46 | splitting `a + sep + rest` cuts right after `a` |
| Common.SingleCharSafe | src/components/cms/FrontmatterEditor.tsx:46 | with a one-character separator every piece without that character is safe to join |
| Common.NonEmpty | src/components/cms/FrontmatterEditor.tsx:98 | `filter(Boolean)` keeps exactly the non-empty strings, in order |
| Common.TrimAll | src/components/cms/FrontmatterEditor.tsx:97 | `map(t => t.trim())` trims every piece in place |
| Common.DigitPrefix | scripts/koharu/shared.tsx:155 | the longest run of leading digits |
| Common.DigitsValueOfDigitString | scripts/koharu/shared.tsx:155 | a string of digits is its own leading run |
| Common.ParseIntDigits | scripts/koharu/shared.tsx:155 | `parseInt` reads a string of digits as the number it writes |
| Common.ParseIntUnsigned | scripts/koharu/shared.tsx:155 | a string starting with a digit parses to the value of its leading digits |
| Common.ParseIntNaN | scripts/koharu/shared.tsx:155 | a string starting with neither white space, a sign nor a digit is `NaN` |
| Common.FromCharCode | src/components/markdown/QuizBlock.tsx:59 | `String.fromCharCode` gives the character with that code, taken modulo 2^16 |
| Common.DigitChar | src/lib/cms/editor-url.ts:24 | the decimal digit of a number below ten |
| Common.NatToString | src/lib/cms/editor-url.ts:24 | `String(n)` is a non-empty run of digits whose value is n |
| Common.ParseIntNatToString | src/lib/cms/editor-url.ts:24 | `parseInt` reads back the number `String(n)` writes |
| KoharuShared.FirstFiveRequired | scripts/koharu/shared.tsx:28-40 | the backup table has ten items and exactly the first five are required |
| KoharuShared.FirstMatch | scripts/koharu/shared.tsx:43-53 | the index found is the first restore entry whose key is the path or a directory above it; none means no entry matches |
| KoharuShared.RestoreTarget | scripts/koharu/shared.tsx:43-53 | no target exactly when no key matches; otherwise the first matching entry's project path followed by the rest of the path after the key |
| KoharuShared.KeysNotNested | scripts/koharu/shared.tsx:43-53 | no restore key equals another key or lies below one, so each archive path has at most one candidate key |
| KoharuShared.KeyRestores | scripts/koharu/shared.tsx:43-53 | every restore key maps to its own project path |
| KoharuShared.BackupItemsRoundTrip | scripts/koharu/shared.tsx:28-53 | every backup item's archive path maps back through the restore table to the project path it was copied from |
| KoharuShared.ItemRestores | scripts/koharu/shared.tsx:28-53 | the round trip for one backup item |
| KoharuShared.ItemIsEntry | scripts/koharu/shared.tsx:28-53 | apart from the avatar, backup item i and restore entry i (i-1 after the avatar) hold the same pair of paths |
| KoharuShared.AvatarRoundTrip | scripts/koharu/shared.tsx:32-48 | `img/avatar.webp` is restored to `public/img/avatar.webp` through the `img` key |
| KoharuShared.RestoreMapMatchesItems | scripts/koharu/shared.tsx:28-53 | every restore key is some backup item's archive path, and keys and project paths are pairwise distinct |
| KoharuShared.KeyIsItem | scripts/koharu/shared.tsx:28-53 | one restore key is a backup item's archive path |
| KoharuShared.ProjectPathsDiffer | scripts/koharu/shared.tsx:43-53 | two different restore entries have different project paths |
| KoharuShared.ParseArgs | scripts/koharu/shared.tsx:127-170 | the loop over the tokens yields the arguments the token-by-token reference definition gives |
| KoharuShared.NoArgsDefaults | scripts/koharu/shared.tsx:128-138 | with no tokens every flag is false, `keep` is null and both names are empty |
| KoharuShared.KeepConsumesToken | scripts/koharu/shared.tsx:154-159 | `--keep` followed by a token sets `keep` from that token and the token is never taken as a name |
| KoharuShared.KeepDigit | scripts/koharu/shared.tsx:155-158 | a token that is one non-zero digit sets `keep` to that number |
| KoharuShared.KeepZero | scripts/koharu/shared.tsx:155-158 | a token of zeros is not positive and leaves `keep` unchanged |
| KoharuShared.KeepNotNumber | scripts/koharu/shared.tsx:155-158 | a token starting with a letter is NaN and leaves `keep` unchanged |
| KoharuShared.ClassifyKeep | scripts/koharu/shared.tsx:154 | the token `--keep` is classified as the keep option |
| KoharuShared.TrailingKeepIgnored | scripts/koharu/shared.tsx:154 | a `--keep` with no token after it changes nothing |
| KoharuShared.StepFlag | scripts/koharu/shared.tsx:142-153 | each flag token turns on its own flag, and no token other than `--keep` touches `keep` |
| KoharuShared.FlagsFromTokens | scripts/koharu/shared.tsx:140-167 | without `--keep`, a flag ends true exactly when it started true or a token for it is present, and `keep` stays as it was |
| KoharuShared.UnknownOptionsIgnored | scripts/koharu/shared.tsx:160-166 | tokens that start with a dash but name no option leave the arguments unchanged |
| KoharuShared.BareTokens | scripts/koharu/shared.tsx:160-166 | the first plain token becomes the command and the last later one becomes the backup file |
| KoharuShared.ParseIntDoubleDash | scripts/koharu/shared.tsx:155-156 | a token that starts with `--` does not parse as an integer |
| KoharuShared.LexTotal | scripts/koharu/shared.tsx:93 | the default string order is total |
| KoharuShared.LexAsym | scripts/koharu/shared.tsx:93 | the default string order is antisymmetric |
| KoharuShared.Insert | scripts/koharu/shared.tsx:93 | inserting into a sorted list keeps it sorted and adds exactly the new element |
| KoharuShared.Sort | scripts/koharu/shared.tsx:93 | `sort()` returns the same names in ascending order |
| KoharuShared.Reverse | scripts/koharu/shared.tsx:94 | `reverse()` puts element i at position n-1-i |
| KoharuShared.ReverseMultiset | scripts/koharu/shared.tsx:94 | reversing keeps every element and its count |
| KoharuShared.FilterArchives | scripts/koharu/shared.tsx:92 | exactly the names ending in `.tar.gz` are kept, each as often as it occurs |
| KoharuShared.DescribeAll | scripts/koharu/shared.tsx:96-123 | one entry per listed name, in order, built from that name and its manifest |
| KoharuShared.NoDirectoryNoBackups | scripts/koharu/shared.tsx:86-88 | without a backup directory the list is empty |
| KoharuShared.ListedNames | scripts/koharu/shared.tsx:115-116 | the names of the listed entries, in order |
| KoharuShared.ListedAreReversedArchives | scripts/koharu/shared.tsx:90-96 | the listed names are the archives, sorted, then reversed |
| KoharuShared.BackupListShape | scripts/koharu/shared.tsx:90-96 | a name is listed exactly when it is in the directory and ends in `.tar.gz`, as often as it occurs there |
| KoharuShared.BackupListNewestFirst | scripts/koharu/shared.tsx:90-113 | the listing is in descending order, and an archive whose manifest cannot be read is listed with type `unknown` and an empty timestamp |
| KoharuFs.LastSlash | scripts/koharu/backup.tsx:69 | the position of the last `/` in a path, or -1 when there is none |
| KoharuFs.DirnameOfJoin | scripts/koharu/backup.tsx:66-69 | the directory of `path.join(dir, name)` for a plain name is `dir`, the directory `mkdirSync` creates before a copy |
| KoharuFs.Removed | scripts/koharu/backup.tsx:55-94 | `rmSync(root, {recursive, force})` removes exactly the paths at or below `root` |
| KoharuFs.Copied | scripts/koharu/backup.tsx:70 | `cpSync(src, dst, {recursive})` keeps every existing path and places each path below `src` at the same place below `dst` |
| KoharuFs.CopiedUnder | scripts/koharu/backup.tsx:70 | a recursive copy adds nothing outside the destination |
| KoharuFs.Extracted | scripts/koharu/restore.tsx:89 | `tar -xzf archive -C dir` creates each member below `dir` and nothing outside it |
| KoharuFs.FileSystem.constructor | scripts/koharu/backup.tsx:2 | the file system starts with the given paths and archives |
| KoharuFs.FileSystem.MakeDir | scripts/koharu/backup.tsx:45-56 | `mkdirSync` adds the directory and nothing else |
| KoharuFs.FileSystem.WriteFile | scripts/koharu/backup.tsx:87 | `writeFileSync` adds the file and nothing else |
| KoharuFs.FileSystem.RemoveTree | scripts/koharu/backup.tsx:55-94 | `rmSync` leaves exactly the paths outside the removed tree |
| KoharuFs.FileSystem.CopyTree | scripts/koharu/backup.tsx:70 | `cpSync` leaves the paths the recursive copy describes |
| KoharuFs.FileSystem.Pack | scripts/koharu/backup.tsx:91 | `tar -czf archive -C dir .` creates the archive and records the paths below `dir`, relative to it, as its members |
| KoharuFs.FileSystem.Unpack | scripts/koharu/restore.tsx:89 | `tar -xzf archive -C dir` adds the archive's members below `dir` |
| KoharuBackup.Selected | scripts/koharu/backup.tsx:61 | an item is processed exactly when it is required or the backup is full |
| KoharuBackup.SelectedItems | scripts/koharu/backup.tsx:61 | a basic backup processes the first five table items and a full backup all ten, in table order |
| KoharuBackup.SelectRequiredPrefix | scripts/koharu/backup.tsx:61 | when exactly the first m items are required, a basic backup processes exactly those m |
| KoharuBackup.SelectAll | scripts/koharu/backup.tsx:61 | a full backup processes every item in order |
| KoharuBackup.ResultsFor | scripts/koharu/backup.tsx:64-76 | one result per processed item, in order, successful exactly when the source exists and skipped otherwise |
| KoharuBackup.CountsAddUp | scripts/koharu/backup.tsx:121-122 | the success and skip counts add up to the number of processed items |
| KoharuBackup.FilesOf | scripts/koharu/backup.tsx:85 | the manifest's `files` pairs each processed item's archive path with its success flag, in order |
| KoharuBackup.DestsDistinct | scripts/koharu/shared.tsx:28-40 | no two backup items share an archive path |
| KoharuBackup.SelectedDistinct | scripts/koharu/backup.tsx:61-85 | both selections keep archive paths distinct, so `Object.fromEntries` loses no entry |
| KoharuBackup.SelectionKeepsDistinct | scripts/koharu/backup.tsx:61 | filtering a list keeps its archive paths distinct |
| KoharuBackup.ManifestOf | scripts/koharu/backup.tsx:79-86 | the manifest is named `astro-koharu-backup`, its type is `full` exactly for a full backup and `basic` otherwise, and `files` holds one distinct key per processed item with its success flag |
| KoharuBackup.DashColonsAndDots | scripts/koharu/backup.tsx:49 | every `:` and `.` of the ISO string becomes `-` and nothing else changes |
| KoharuBackup.TimestampOfIso | scripts/koharu/backup.tsx:49 | the timestamp is 19 characters, `YYYY-MM-DD-HH-mm-ss`: the ISO digits with every separator, `T` included, turned into `-` |
| KoharuBackup.ArchiveIsListed | scripts/koharu/backup.tsx:50-52 | the archive name ends in `.tar.gz`, so the backup listing shows it |
| KoharuBackup.SourcesOutsideBackups | scripts/koharu/backup.tsx:65 | no backup source lies inside the backup directory |
| KoharuBackup.UnderTrans | scripts/koharu/backup.tsx:51 | lying below a directory is transitive |
| KoharuBackup.JoinUnder | scripts/koharu/backup.tsx:66 | a joined path lies below its first part |
| KoharuBackup.DirnameUnder | scripts/koharu/backup.tsx:69 | the parent created for a staged item lies inside the staging directory |
| KoharuBackup.StagingLayout | scripts/koharu/backup.tsx:51-52 | the staging directory lies inside the backup directory and the archive lies outside the staging directory |
| KoharuBackup.OutsideStaging | scripts/koharu/backup.tsx:51-65 | a source outside the backup directory is outside the staging directory |
| KoharuBackup.StageCopy | scripts/koharu/backup.tsx:68-71 | the item is present at its place in the staging directory and nothing outside that directory changes |
| KoharuBackup.PackStaging | scripts/koharu/backup.tsx:91 | the archive holds every copied item's archive path and `manifest.json` |
| KoharuBackup.BackupApp.constructor | scripts/koharu/backup.tsx:23-29 | the status starts `pending` for an initial full backup and `selecting` otherwise; results and names start empty |
| KoharuBackup.BackupApp.HandleModeSelect | scripts/koharu/backup.tsx:31-38 | `cancel` calls `onComplete` and changes nothing else; any other value sets full mode exactly for `full` and moves to `pending` |
| KoharuBackup.BackupApp.Fail | scripts/koharu/backup.tsx:106-111 | a thrown error sets the message and `error`, and schedules the exit unless the return hint is shown |
| KoharuBackup.BackupApp.CopyItems | scripts/koharu/backup.tsx:64-76 | without a fault, one result per item as `ResultsFor` says and every present item copied into staging; a fault at item k sets `error` with the results of the items before k; nothing outside staging changes |
| KoharuBackup.BackupApp.RunBackup | scripts/koharu/backup.tsx:40-113 | a run without fault goes `backing, compressing, done`, names the archive from the timestamp, records the results and the manifest, and leaves the items and the manifest in the archive; a fault ends in `error` after the stages reached; the staging directory remains after a fault before cleanup; nothing outside the backup directory changes |
| KoharuBackup.BackupApp.Stage | scripts/koharu/backup.tsx:58-100 | from copying to the end: `compressing, done` with results, manifest and archive, or `error` after the stages reached, leaving the staging directory unless the fault comes after it was removed |
| KoharuBackup.BackupApp.Prepare | scripts/koharu/backup.tsx:45-56 | the backup directory and an empty staging directory exist afterwards; a fault here ends in `error` |
| KoharuBackup.BackupApp.Finish | scripts/koharu/backup.tsx:79-100 | writes the manifest, packs the archive, removes staging and ends `done`; a fault ends in `error`, after `compressing` once packing has begun |
| KoharuBackup.BackupApp.PendingEffect | scripts/koharu/backup.tsx:115-119 | a run starts only in `pending` and ends in `done` or `error` |
| KoharuBackup.RelativeHas | scripts/koharu/backup.tsx:91 | a path below the packed directory is packed under its relative name |
| KoharuBackup.ArchiveNotStaged | scripts/koharu/backup.tsx:51-52 | the archive is not inside the staging directory, so removing staging keeps it |
| KoharuRestore.KeepLines | scripts/koharu/restore.tsx:52-53 | a listing line is kept exactly when it is not empty, not `./` and not `manifest.json` |
| KoharuRestore.KeepLinesAppend | scripts/koharu/restore.tsx:53 | filtering a concatenation filters each part |
| KoharuRestore.Targets | scripts/koharu/restore.tsx:56-64 | each archive path, one trailing slash removed, is looked up through the restore table, in order |
| KoharuRestore.Somes | scripts/koharu/restore.tsx:61 | the collected targets are no more than the lines looked up |
| KoharuRestore.SomesStep | scripts/koharu/restore.tsx:59-62 | one more line adds its target, when it has one, at the end |
| KoharuRestore.SomesHas | scripts/koharu/restore.tsx:61 | exactly the targets that were found are collected |
| KoharuRestore.PreviewTargets | scripts/koharu/restore.tsx:55-65 | the preview holds exactly the targets of the archive paths some restore key claims |
| KoharuRestore.MatchEntry | scripts/koharu/restore.tsx:58-63 | the scan over the restore table stops at the first key equal to the path or above it and returns that entry's target |
| KoharuRestore.PreviewFiles | scripts/koharu/restore.tsx:55-65 | the loop over the kept lines builds the preview the reference definition gives |
| KoharuRestore.DryRunPreview | scripts/koharu/restore.tsx:51-65 | the dry run's preview of a `tar -tzf` listing, with the leading `./` of each member dropped |
| KoharuRestore.StripDots | scripts/koharu/restore.tsx:51-53 | every line loses one leading `./` |
| KoharuRestore.Dotted | scripts/koharu/backup.tsx:91 | `tar -C dir .` lists every member as `./` followed by its name |
| KoharuRestore.KeysStartPlain | scripts/koharu/shared.tsx:43-53 | no restore key is empty or starts with a dot |
| KoharuRestore.DottedUnclaimed | scripts/koharu/restore.tsx:59 | an archive path starting with `./` matches no restore key |
| KoharuRestore.SomesNone | scripts/koharu/restore.tsx:61 | nothing found, nothing collected |
| KoharuRestore.DottedPreviewEmpty | scripts/koharu/restore.tsx:56-64 | a listing whose every path starts with `./` previews nothing |
| KoharuRestore.ListingLines | scripts/koharu/restore.tsx:51-52 | splitting the listing at newlines gives `./`, each member with `./` in front, and an empty last line |
| KoharuRestore.DryRunAsWrittenMisses | scripts/koharu/restore.tsx:51-65 | as written, the dry run previews nothing for an archive the backup command made |
| KoharuRestore.DryRunPreviewsMembers | scripts/koharu/restore.tsx:51-53 | with the leading `./` dropped, the listing yields exactly the kept member names |
| KoharuRestore.KeepBlankEnds | scripts/koharu/restore.tsx:53 | the empty lines around the listing are dropped |
| KoharuRestore.StripDotted | scripts/koharu/restore.tsx:51-53 | dropping `./` from `./n` gives `n` |
| KoharuRestore.StripDotsOfListing | scripts/koharu/restore.tsx:51-53 | dropping `./` from the listing's lines gives the member names between two empty lines |
| KoharuRestore.EntryPreview | scripts/koharu/restore.tsx:57-61 | the directory line of a restore key previews as that entry's project path |
| KoharuRestore.Restored | scripts/koharu/restore.tsx:94-103 | the report lists at most one project path per restore entry |
| KoharuRestore.RestoredExactly | scripts/koharu/restore.tsx:94-103 | a project path is reported exactly when its entry's key was in the archive |
| KoharuRestore.RestoredNoRepeats | scripts/koharu/restore.tsx:94-103 | with distinct project paths in the table, no path is reported twice |
| KoharuRestore.RestoredAll | scripts/koharu/restore.tsx:94-103 | when every key was unpacked, every entry is reported, in table order |
| KoharuRestore.FullBackupRestoresAll | scripts/koharu/restore.tsx:94-103 | an archive holding every backup item restores every entry, in order, without repeats |
| KoharuRestore.AddedOutsideTemp | scripts/koharu/restore.tsx:86-100 | what a copy into the project adds is never inside the scratch directory |
| KoharuRestore.ExtractedHas | scripts/koharu/restore.tsx:89-98 | a key exists in the unpacked tree exactly when the archive has that member |
| KoharuRestore.CopyEntries | scripts/koharu/restore.tsx:94-103 | copies exactly the entries whose key was unpacked, in table order, and reports their project paths; everything it adds is below a restored path or is the directory above one; a fault at a present entry stops it |
| KoharuRestore.RestoreCopy | scripts/koharu/restore.tsx:99-100 | the project path exists afterwards and everything added is below it or is its parent directory |
| KoharuRestore.JoinUnder | scripts/koharu/restore.tsx:95 | a joined path lies below its first part |
| KoharuRestore.RestoreApp.constructor | scripts/koharu/restore.tsx:27-31 | the app starts in `confirming` exactly when an archive is given or `force` is set, and in `selecting` otherwise |
| KoharuRestore.RestoreApp.HandleSelect | scripts/koharu/restore.tsx:128-135 | `cancel` calls `onComplete` without a status change; any other value selects that archive and moves to `confirming` |
| KoharuRestore.RestoreApp.HandleCancel | scripts/koharu/restore.tsx:145-150 | declining moves to `cancelled` and schedules the exit unless the return hint is shown |
| KoharuRestore.RestoreApp.Fail | scripts/koharu/restore.tsx:113-118 | a thrown error sets the message and `error`, and schedules the exit unless the return hint is shown |
| KoharuRestore.RestoreApp.RunDryRun | scripts/koharu/restore.tsx:49-79 | a readable listing ends in `done` with the preview and changes no file; a failed listing ends in `error` with its message |
| KoharuRestore.RestoreApp.RunRestore | scripts/koharu/restore.tsx:81-120 | without a fault it ends `restoring, done`, reports the restored entries, creates their project paths and removes the scratch directory; a fault ends `restoring, error` and leaves the scratch directory once it was created |
| KoharuRestore.RestoreApp.HandleConfirm | scripts/koharu/restore.tsx:137-143 | a dry run changes no file and ends `done` exactly when the listing could be read; otherwise the restore runs and ends `done` exactly when nothing throws |
| KoharuRestore.RestoreApp.ForceEffect | scripts/koharu/restore.tsx:122-126 | with `force`, an archive and status `confirming` the restore runs without a prompt; otherwise nothing changes |
| KoharuRestore.RestoreApp.Apply | scripts/koharu/restore.tsx:91-112 | the copy loop and removal of the scratch directory: `done` with the report and nothing left in scratch, or `error` with the scratch directory still there |
| KoharuUpdate.FinishingAwaitsKey | scripts/koharu/update.tsx:48-127 | every status that exits on its own also waits for a key press; only the dirty-work-tree warning waits without exiting |
| KoharuUpdate.Basename | scripts/koharu/update.tsx:97 | `path.basename` is a suffix of the path without any `/` |
| KoharuUpdate.BasenameOfJoin | scripts/koharu/update.tsx:97 | the base name of `dir/name` is `name` |
| KoharuUpdate.ReportedArchiveName | scripts/koharu/update.tsx:96-97 | a successful backup is reported by its archive's file name alone |
| KoharuUpdate.Truncate | scripts/koharu/update.tsx:145-306 | at most `limit` entries are shown, in order, and the count of the rest appears exactly when some are hidden |
| KoharuUpdate.TruncateCovers | scripts/koharu/update.tsx:145-306 | every entry is either shown or counted, never both |
| KoharuUpdate.UpdateApp.constructor | scripts/koharu/update.tsx:31-35 | the command starts `checking` with nothing dispatched or scheduled and no release notes |
| KoharuUpdate.UpdateApp.HandleComplete | scripts/koharu/update.tsx:41-45 | the delayed exit is scheduled exactly when the return hint is not shown |
| KoharuUpdate.UpdateApp.Enter | scripts/koharu/update.tsx:48-90 | entering `up-to-date`, `done`, `error`, or `preview` in check-only mode schedules the exit when the hint is off; `preview` dispatches `UPDATE_CONFIRM` exactly with `force` and not check-only; release notes are requested only in `preview` with a known latest version |
| KoharuUpdate.UpdateApp.ReleaseSettled | scripts/koharu/update.tsx:65-74 | loading ends; notes that arrived are kept and a failed request changes nothing else |
| KoharuUpdate.UpdateApp.HandleBackupConfirm | scripts/koharu/update.tsx:93-101 | dispatches `BACKUP_CONFIRM`, then exactly one of `BACKUP_DONE` with the archive's base name or `ERROR` prefixed `备份失败: ` |
| KoharuUpdate.UpdateApp.HandleBackupSkip | scripts/koharu/update.tsx:103 | dispatches `BACKUP_SKIP` and nothing else |
| KoharuUpdate.UpdateApp.HandleUpdateConfirm | scripts/koharu/update.tsx:104 | dispatches `UPDATE_CONFIRM` and nothing else |
| KoharuUpdate.UpdateApp.Decline | scripts/koharu/update.tsx:105-468 | declining the update or the abort prompt calls `onComplete` and dispatches nothing |
| KoharuUpdate.UpdateApp.HandleAbortMerge | scripts/koharu/update.tsx:107-114 | a successful abort calls `onComplete` and dispatches nothing; a failed one dispatches the manual `git merge --abort` error |
| KoharuUpdate.UpdateApp.KeyPressed | scripts/koharu/update.tsx:117-127 | a key press calls `onComplete` exactly when the prompt is active: hint shown and status `done`, `error`, `up-to-date`, `dirty-warning`, or `preview` in check-only mode |
| KoharuStepFlow.IndexOf | scripts/koharu/hooks/useStepFlow.ts:32-33 | `indexOf` is the first position holding the value, or -1 exactly when it is absent |
| KoharuStepFlow.GetStepStatus | scripts/koharu/hooks/useStepFlow.ts:27-41 | every step is `completed` when the normalised current step is not listed; otherwise a step is `active` exactly when it normalises to the current step, an unlisted step is `completed`, and a listed step is `pending` exactly when it comes later |
| KoharuStepFlow.OneActive | scripts/koharu/hooks/useStepFlow.ts:35-38 | with distinct listed steps, those before the current one are `completed`, the current one `active` and the later ones `pending`, so exactly one is active |
| KoharuStepFlow.FirstIndexOfDistinct | scripts/koharu/hooks/useStepFlow.ts:32-33 | in a list without repeats, `indexOf` of the element at i is i |
| KoharuStepFlow.StepFlow.constructor | scripts/koharu/hooks/useStepFlow.ts:24-53 | a flow that starts in `done` or `error` without the hint schedules its exit at once, with success exactly for `done` |
| KoharuStepFlow.StepFlow.SetStep | scripts/koharu/hooks/useStepFlow.ts:44-53 | changing the step cancels the pending timer and schedules a new exit only for `done`/`error` without the hint; setting the same step keeps the timer |
| KoharuStepFlow.StepFlow.TimerFires | scripts/koharu/hooks/useStepFlow.ts:49 | the scheduled `onComplete` runs once with its success flag |
| KoharuStepFlow.StepFlow.KeyPressed | scripts/koharu/hooks/useStepFlow.ts:56-58 | with the hint shown at `done` or `error`, a key press calls `onComplete`, with success exactly for `done` |
| CmsJson.Keys | src/pages/api/cms/write.ts:38 | the keys of an object's entries, in property order |
| CmsJson.Lookup | src/pages/api/cms/write.ts:38-45 | a property read finds nothing exactly when the key is absent, and otherwise a value stored under that key |
| CmsJson.LookupAt | src/pages/api/cms/write.ts:38-45 | with distinct keys, reading an entry's key gives that entry's value |
| CmsJson.LookupAppend | src/pages/api/cms/write.ts:37-46 | reading after a new property is appended: old keys as before, the new key gives its value |
| CmsJson.Assign | src/components/cms/FrontmatterEditor.tsx:77-79 | assigning a property keeps the key order, appending the key when it is new, and leaves the other entries alone |
| CmsJson.AssignLookup | src/components/cms/FrontmatterEditor.tsx:77-79 | the assigned property reads back, every other property reads as before, and keys stay distinct |
| CmsJson.Decimal | src/i18n/utils.ts:45 | `String(n)` of a natural number is a non-empty run of digits |
| CmsJson.IntText | src/i18n/utils.ts:45 | `String(n)` of an integer is digits with an optional leading minus, and the plain digits for a natural number |
| CmsJson.Spread | src/pages/api/cms/write.ts:131 | `{...v}` copies a plain object's entries, gives an array's indices as keys, and gives nothing for other values |
| CmsGuard.ValidateCmsAccess | src/lib/cms/guard.ts:28-46 | outside development mode the development-only 403; in development with the CMS disabled the not-enabled 403; no error exactly when both hold |
| CmsGuard.ErrorResponseShape | src/lib/cms/guard.ts:51-56 | an error response carries its status and a body with the single property `error` holding the message |
| CmsGuard.JsonResponseDefault | src/lib/cms/guard.ts:61-66 | a JSON response without a status has status 200 and the value as its body |
| CmsDisk.Disk.constructor | src/pages/api/cms/write.ts:164-167 | the disk starts with the given files and directories |
| CmsDisk.Disk.MakeDir | src/pages/api/cms/write.ts:164 | `mkdir` adds the directory and nothing else |
| CmsDisk.Disk.WriteFile | src/pages/api/cms/write.ts:167 | `writeFile` creates or replaces the file's text and nothing else |
| CmsPath.Segments | src/pages/api/cms/write.ts:27 | splitting at `/` gives at least one piece and no piece holds a slash |
| CmsPath.NoSlashSegments | src/pages/api/cms/write.ts:27 | a name without a slash is a single segment |
| CmsPath.SegmentsConcat | src/pages/api/cms/write.ts:119 | the segments of `a/b` are those of `a` followed by those of `b` |
| CmsPath.Normalize | src/pages/api/cms/write.ts:27 | `path.normalize` never gives the empty string (it gives `.` at least) |
| CmsPath.Basename | src/pages/api/cms/write.ts:122 | the base name holds no slash |
| CmsPath.LastDot | src/pages/api/cms/write.ts:122 | the position of the last `.`, or -1 when there is none |
| CmsPath.MarkdownExtension | src/pages/api/cms/write.ts:121-128 | the extension check passes exactly for base names that end in `.md` or `.mdx` with something before it |
| CmsPath.ResolveAppend | src/pages/api/cms/write.ts:27 | resolving segments in two goes is resolving them at once |
| CmsPath.AbsoluteNoDots | src/pages/api/cms/write.ts:27-28 | normalising an absolute path never keeps a `..` |
| CmsPath.DotsStay | src/pages/api/cms/write.ts:27-28 | in a relative path, a `..` that was kept is never removed again |
| CmsPath.ResolveOnTop | src/pages/api/cms/write.ts:119 | resolving below a directory that holds no `..` leaves that directory in front |
| CmsPath.JoinHasPart | src/pages/api/cms/write.ts:28 | every part occurs in the parts joined by `/` |
| CmsPath.NormalizeShape | src/pages/api/cms/write.ts:27 | the normalised path is the kept names joined by `/`, with the leading and trailing slashes of the input |
| CmsPath.MatchInside | src/pages/api/cms/write.ts:28 | an occurrence inside a piece is an occurrence in the whole text |
| CmsPath.KeptDotsShow | src/pages/api/cms/write.ts:28 | a `..` kept by normalisation shows in the normalised text, so `includes('..')` sees it |
| CmsPath.SafeIsRelative | src/pages/api/cms/write.ts:26-29 | an id that passes `isPathSafe` is relative and keeps no `..` segment |
| CmsPath.ContentSegments | src/pages/api/cms/write.ts:119 | the file path's segments are the root's, `src/content/blog`, then the id's |
| CmsPath.ContentDirSegments | src/pages/api/cms/write.ts:20-119 | the segments of the content directory followed by an id |
| CmsPath.ContentTailSegments | src/pages/api/cms/write.ts:20-119 | the segments of `content/blog/` followed by an id |
| CmsPath.NameSegment | src/pages/api/cms/write.ts:119 | a name without slash before a `/` is one segment ahead of the rest |
| CmsPath.SafePathStaysInContentDir | src/pages/api/cms/write.ts:111-119 | for an id `isPathSafe` accepts, the joined file path is absolute and normalises to the root's names, then `src/content/blog`, then the id's names, so it stays inside the content directory |
| CmsPath.DotsInsideNameRejected | src/pages/api/cms/write.ts:28 | `a..b.md` is rejected, though `..` is only part of a name |
| CmsFrontmatter.Pad | src/pages/api/cms/write.ts:41 | zero-padding to a width keeps the digits at the end and fills the front with `0` |
| CmsFrontmatter.FormatDate | src/pages/api/cms/write.ts:41 | `format(d, 'yyyy-MM-dd HH:mm:ss')` throws exactly for an invalid date |
| CmsFrontmatter.DecimalLength | src/pages/api/cms/write.ts:41 | a number below 10^k has at most k digits |
| CmsFrontmatter.PaddedDigits | src/pages/api/cms/write.ts:41 | a field padded to width k is exactly k digits |
| CmsFrontmatter.StampOf | src/pages/api/cms/write.ts:41-156 | the six padded fields with their separators match the timestamp pattern |
| CmsFrontmatter.FormattedIsStamp | src/pages/api/cms/write.ts:41-156 | every instant with a four-digit year formats to text the timestamp pattern matches |
| CmsFrontmatter.SerializedFails | src/pages/api/cms/write.ts:35-48 | serialising throws exactly when some value is an invalid date |
| CmsFrontmatter.SerializedLookup | src/pages/api/cms/write.ts:35-48 | every key reads in the result as its value serialised: dates as text, `undefined` and `null` dropped, every other value unchanged; keys stay distinct |
| CmsFrontmatter.SerializedStep | src/pages/api/cms/write.ts:38-45 | one more entry keeps the property of `SerializedLookup` |
| CmsFrontmatter.SerializeFrontmatter | src/pages/api/cms/write.ts:35-48 | the loop over the entries builds the record the reference definition gives |
| CmsFrontmatter.ErrSticks | src/pages/api/cms/write.ts:38-41 | once an entry throws, the whole call throws that error |
| CmsFrontmatter.UnquoteLine | src/pages/api/cms/write.ts:156 | a line changes exactly when it is a whole `date: '<timestamp>'` or `updated: '<timestamp>'` line, and then it loses exactly its two quotes |
| CmsFrontmatter.UnquoteEach | src/pages/api/cms/write.ts:156 | every line rewritten on its own, in order |
| CmsFrontmatter.InsideLine | src/pages/api/cms/write.ts:156 | past a line's start nothing is rewritten until the next line |
| CmsFrontmatter.LineThrough | src/pages/api/cms/write.ts:156 | a line followed by a line end or the end of the text is rewritten as `UnquoteLine` says |
| CmsFrontmatter.LineThroughStamp | src/pages/api/cms/write.ts:156 | a timestamp line found at a line start is the whole line |
| CmsFrontmatter.StampNoLineEnds | src/pages/api/cms/write.ts:156 | a timestamp line holds no line end |
| CmsFrontmatter.StampLineAt | src/pages/api/cms/write.ts:156 | a timestamp line followed by a line end is found at its start |
| CmsFrontmatter.LineThroughPlain | src/pages/api/cms/write.ts:156 | a line that is no quoted timestamp passes through unchanged |
| CmsFrontmatter.PlainLineStep | src/pages/api/cms/write.ts:156 | a non-empty plain line is copied as it is |
| CmsFrontmatter.EmptyLineStep | src/pages/api/cms/write.ts:156 | an empty line is copied as it is |
| CmsFrontmatter.UnquoteDatesLines | src/pages/api/cms/write.ts:156 | the multi-line rewrite of a text is the rewrite of each of its lines |
| CmsFrontmatter.QuotedStampOf | src/pages/api/cms/write.ts:156 | `key: '<timestamp>'` is a quoted timestamp line |
| CmsFrontmatter.FormattedDateUnquoted | src/pages/api/cms/write.ts:41-156 | a formatted `date` or `updated` that the YAML dump quoted comes out unquoted |
| CmsFrontmatter.StampUnquoted | src/pages/api/cms/write.ts:156 | a quoted timestamp on a `date` or `updated` line loses exactly its quotes |
| CmsWrite.Field | src/pages/api/cms/write.ts:86-87 | destructuring reads a property of an object body, and `undefined` when there is none |
| CmsWrite.ParseDateFieldLookup | src/pages/api/cms/write.ts:132-137 | converting one field replaces a text value by the date it parses to and leaves every other property alone |
| CmsWrite.ProcessedLookup | src/pages/api/cms/write.ts:131-137 | the copied front matter reads as the original, except that `date` and `updated` sent as text read as the dates they parse to |
| CmsWrite.WrittenDate | src/pages/api/cms/write.ts:131-140 | `date` and `updated` are written as their processed values serialised |
| CmsWrite.UnparsableDateFails | src/pages/api/cms/write.ts:133-140 | a date sent as text that does not parse makes serialisation throw |
| CmsWrite.ProcessedText | src/pages/api/cms/write.ts:132-137 | a date sent as text is, after processing, the date it parses to |
| CmsWrite.WrittenDateText | src/pages/api/cms/write.ts:132-140 | when the write goes ahead, a date sent as text parsed to a valid date and is written as that date's formatted text |
| CmsWrite.SerializedDateAt | src/pages/api/cms/write.ts:39-41 | a valid date in the record is written as its formatted text |
| CmsWrite.DateSerialized | src/pages/api/cms/write.ts:39-41 | a valid date value serialises to its formatted text |
| CmsWrite.Post | src/pages/api/cms/write.ts:68-180 | 403 outside development and when the CMS is disabled; then 400 for, in this order, a missing `postId`, a missing or non-object frontmatter, non-string content, an unsafe path and a wrong extension; 500 for a body that is not an object, a date that cannot be formatted or a file-system error; nothing is written unless every check passes; on success the directory is made and the file holds the serialised front matter and the content |
| CmsWrite.WrittenInsideContentDir | src/pages/api/cms/write.ts:111-119 | an accepted post id is written below `src/content/blog` of the project root |
| CmsServerWrite.StringIssues | cms/src/api/write.ts:42 | `z.string()` reports nothing exactly for text |
| CmsServerWrite.PostIdIssues | cms/src/api/write.ts:40 | `postId` reports nothing exactly for non-empty text, and at most one message |
| CmsServerWrite.RecordIssues | cms/src/api/write.ts:41 | `z.record` reports nothing exactly for a plain object |
| CmsServerWrite.ValueIssues | cms/src/api/write.ts:43 | the mapping values report nothing exactly when every value is text |
| CmsServerWrite.MappingIssues | cms/src/api/write.ts:43 | `categoryMappings` reports nothing exactly when it is absent or an object of text values |
| CmsServerWrite.SchemaIssuesIff | cms/src/api/write.ts:39-61 | the schema reports no message exactly for the bodies it accepts |
| CmsServerWrite.NotAnObject | cms/src/api/write.ts:56-60 | a body that is not an object gets the single message naming its type |
| CmsServerWrite.ServerDateParse | cms/src/api/write.ts:82-99 | text containing `T` is parsed as ISO and any other text in the local `yyyy-MM-dd HH:mm:ss` format |
| CmsServerWrite.MappingPairs | cms/src/api/write.ts:125-126 | the mappings passed on are the body's name and slug pairs, in order |
| CmsServerWrite.WriteHandler | cms/src/api/write.ts:51-141 | a body the schema refuses gets 400 with its messages joined by `, `; then an unsafe path and a wrong extension get 400, in that order; nothing is written and no mapping is added unless both pass; non-empty mappings are added before the write; a thrown error gives 500; on success the directory is made and the file holds the serialised front matter and the content |
| CmsServerWrite.IsoDateWritten | cms/src/api/write.ts:83-102 | a `date` with a `T` is read as an ISO instant and written as that instant's formatted text |
| CmsCreate.LeadingIsSpace | src/pages/api/cms/create.ts:88-92 | the indent taken from an entry line is its leading white space, and what follows it is not white space |
| CmsCreate.EntryLines | src/pages/api/cms/create.ts:79-102 | one `${indent}${name}: ${slug}` line per mapping, in entry order |
| CmsCreate.FirstIndentIsSpace | src/pages/api/cms/create.ts:88-92 | the indent used for new entries is white space |
| CmsCreate.FirstHeaderIsFirst | src/pages/api/cms/create.ts:69 | the section found opens at the first `categoryMap:` line, and with none found there is no such line |
| CmsCreate.SectionEnds | src/pages/api/cms/create.ts:76 | the section runs up to the first top-level key that is not a comment |
| CmsCreate.WalkInserted | src/pages/api/cms/create.ts:67-96 | once the mappings are in, the remaining lines are copied unchanged |
| CmsCreate.WalkInside | src/pages/api/cms/create.ts:67-103 | inside the section the mappings go in where the section ends, with the indent of its first entry line |
| CmsCreate.WalkOutside | src/pages/api/cms/create.ts:61-103 | the line-by-line rewrite from the top splices the new entries in at the end of the first `categoryMap:` section |
| CmsCreate.WithMappingsCons | src/pages/api/cms/create.ts:67-96 | lines before the first header are kept as they are |
| CmsCreate.WalkFromHeader | src/pages/api/cms/create.ts:67-103 | starting at a header line, the rewrite splices the entries in at the end of its section |
| CmsCreate.WalkOne | src/pages/api/cms/create.ts:67-96 | one step of the loop: a header opens the section, a top-level key closes it after the entries, an indented line fixes the indent |
| CmsCreate.PushEntries | src/pages/api/cms/create.ts:79-81 | pushing the entries appends one line per mapping |
| CmsCreate.InsertMappings | src/pages/api/cms/create.ts:61-105 | the text written is the lines of the file with the new entries spliced into the `categoryMap:` section, joined by newlines |
| CmsCreate.NoSectionUnchanged | src/pages/api/cms/create.ts:61-105 | a file without a `categoryMap:` line is written back unchanged and the mappings are not recorded |
| CmsCreate.MappingsAddedOnce | src/pages/api/cms/create.ts:67-103 | with a section, the result is the file plus exactly one block of entries, all at one white-space indent, at the end of the first section |
| CmsCreate.AddCategoryMappings | src/pages/api/cms/create.ts:42-106 | only `config/site.yaml` changes, and only when it exists, parses and the write succeeds; it then holds the rewritten text |
| CmsCreate.ItemTexts | src/pages/api/cms/create.ts:158-163 | `join` shows each element as text and `null` or `undefined` as nothing |
| CmsCreate.SegmentPrecedence | src/pages/api/cms/create.ts:120-132 | a non-empty custom mapping wins, then a non-empty site mapping, then the slug of the name; an empty custom mapping is ignored |
| CmsCreate.CategorySegments | src/pages/api/cms/create.ts:120-132 | one path segment per category, in order |
| CmsCreate.FilePathParts | src/pages/api/cms/create.ts:112-135 | the path is the category segments as directories, then the title's slug with `.md` |
| CmsCreate.SplitSlashPath | src/pages/api/cms/create.ts:134 | directories and a file name without slashes, joined by `/`, split back into the same pieces |
| CmsCreate.JoinLast | src/pages/api/cms/create.ts:134 | joining with one more piece puts the separator and the piece at the end |
| CmsCreate.FrontmatterShape | src/pages/api/cms/create.ts:140-179 | the front matter opens with `---`, title, date and updated, ends with `catalog: true`, `---` and two empty lines, has the categories lines exactly when there are categories and `draft: true` exactly when draft is set |
| CmsCreate.DistinctLines | src/pages/api/cms/create.ts:144-176 | the draft and categories lines differ from every other line written |
| CmsCreate.FrontmatterDates | src/pages/api/cms/create.ts:141-153 | `date` and `updated` are the same `yyyy-MM-dd HH:mm:ss` text |
| CmsCreate.ArrayField | src/pages/api/cms/create.ts:213-214 | a property is kept only when it is an array |
| CmsCreate.NewMappings | src/pages/api/cms/create.ts:53-81 | the mappings passed on are the body's properties in order, each value as text |
| CmsCreate.Post | src/pages/api/cms/create.ts:198-260 | 403 from the guard; 500 for a missing body; 400 for a missing or blank title and for an unsafe path; 409 when the file exists; a failed mkdir gives 500 with nothing changed; non-empty mappings are added to the site config before the post is written, and a failure there gives 500 without the post; on success 201 with the post id and the file holds the generated front matter |
| CmsToggleDraft.Toggled | src/pages/api/cms/toggle-draft.ts:74-76 | the new flag is the negation of `draft === true` |
| CmsToggleDraft.ToggledLookup | src/pages/api/cms/toggle-draft.ts:74-76 | the new flag is stored under `draft`, every other property is kept |
| CmsToggleDraft.ToggleTwice | src/pages/api/cms/toggle-draft.ts:74-76 | toggling twice restores the flag as a boolean and keeps every other property |
| CmsToggleDraft.Post | src/pages/api/cms/toggle-draft.ts:42-113 | 403 from the guard; 400 for a missing postId, an unsafe path and a wrong extension, in that order; 404 for a missing file; 500 for a parse or write error; on success the file holds the toggled front matter and the body reports the new flag |
| CmsCategoryMapping.KeepSlugChars | src/components/cms/CategoryMappingDialog.tsx:36 | the characters kept are slug characters, never more than were given, and slug text is kept whole |
| CmsCategoryMapping.SanitizeSlug | src/components/cms/CategoryMappingDialog.tsx:35-37 | the cleaned text holds only `[a-z0-9-]` |
| CmsCategoryMapping.SanitizeSlugFixed | src/components/cms/CategoryMappingDialog.tsx:35-37 | text that is already a slug is left as it is |
| CmsCategoryMapping.SanitizeSlugIdempotent | src/components/cms/CategoryMappingDialog.tsx:35-37 | cleaning twice is cleaning once, and text is unchanged exactly when it is already a slug |
| CmsCategoryMapping.AsciiLower | src/components/cms/CategoryMappingDialog.tsx:36 | lower-casing ASCII text maps each capital to its small letter and keeps the length |
| CmsCategoryMapping.SanitizeAscii | src/components/cms/CategoryMappingDialog.tsx:36 | on ASCII text cleaning lower-cases the letters and deletes every other disallowed character, keeping order |
| CmsCategoryMapping.AsciiLowerCons | src/components/cms/CategoryMappingDialog.tsx:36 | lower-casing works character by character from the front |
| CmsCategoryMapping.KeepAppend | src/components/cms/CategoryMappingDialog.tsx:36 | the global replace works on each part of the text independently |
| CmsCategoryMapping.NonAsciiLetters | src/components/cms/CategoryMappingDialog.tsx:36 | lower-casing before filtering lets the Kelvin sign through as `k` and the dotted capital I as `i`, and drops `É` |
| CmsCategoryMapping.SanitizeOne | src/components/cms/CategoryMappingDialog.tsx:36 | one character is lower-cased, then filtered |
| CmsCategoryMapping.SanitizeMappings | src/components/cms/CategoryMappingDialog.tsx:56-60 | every slug is cleaned and every category name kept, in order |
| CmsCategoryMapping.SubmitKeepsNames | src/components/cms/CategoryMappingDialog.tsx:56-60 | submitting confirms only slugs, keeps the set of names, and submitting the result again changes nothing |
| CmsCustomCategories.Names | src/components/cms/dashboard/useCustomCategories.ts:58 | the names of the custom categories, in order |
| CmsCustomCategories.WithoutName | src/components/cms/dashboard/useCustomCategories.ts:73 | the entries kept are exactly those with another name |
| CmsCustomCategories.WithoutNameDistinct | src/components/cms/dashboard/useCustomCategories.ts:73 | removing keeps names distinct |
| CmsCustomCategories.MappingEntries | src/components/cms/dashboard/useCustomCategories.ts:88-91 | each custom category's name mapped to its slug, in list order |
| CmsCustomCategories.AddOutcome | src/components/cms/dashboard/useCustomCategories.ts:49-63 | "required" exactly when the trimmed name or slug is empty, "already exists" exactly when the trimmed name is a site or custom category, otherwise the trimmed pair, whose name is new |
| CmsCustomCategories.AcceptedIsNew | src/components/cms/dashboard/useCustomCategories.ts:49-65 | an accepted entry is trimmed, non-empty and new, so names stay distinct |
| CmsCustomCategories.AcceptedKeepsGood | src/components/cms/dashboard/useCustomCategories.ts:49-65 | appending an accepted entry keeps every entry good and every name distinct |
| CmsCustomCategories.AppendGood | src/components/cms/dashboard/useCustomCategories.ts:65 | appending a good entry to good entries gives good entries |
| CmsCustomCategories.CustomCategories.constructor | src/components/cms/dashboard/useCustomCategories.ts:22-26 | the hook starts with no custom categories, the input hidden and empty |
| CmsCustomCategories.CustomCategories.ResetInput | src/components/cms/dashboard/useCustomCategories.ts:28-32 | clears the name and slug and hides the input, keeping the list |
| CmsCustomCategories.CustomCategories.ResetAll | src/components/cms/dashboard/useCustomCategories.ts:34-37 | also empties the list |
| CmsCustomCategories.CustomCategories.HandleCustomNameChange | src/components/cms/dashboard/useCustomCategories.ts:39-42 | typing a name stores it and suggests its generated slug |
| CmsCustomCategories.CustomCategories.HandleSlugChange | src/components/cms/dashboard/useCustomCategories.ts:44-46 | an edited slug is stored cleaned, so it holds only `[a-z0-9-]` |
| CmsCustomCategories.CustomCategories.AddCustomCategory | src/components/cms/dashboard/useCustomCategories.ts:48-70 | a refused entry shows its error and changes nothing else; an accepted one is appended, reported to `onCategoryAdded` and clears the input; the list stays valid |
| CmsCustomCategories.CustomCategories.RemoveCustomCategory | src/components/cms/dashboard/useCustomCategories.ts:72-74 | drops every entry with that name and keeps the rest in order |
| CmsCustomCategories.CustomCategories.OpenCustomInput | src/components/cms/dashboard/useCustomCategories.ts:76-78 | shows the input and changes nothing else |
| CmsCustomCategories.CustomCategories.CloseCustomInput | src/components/cms/dashboard/useCustomCategories.ts:80-82 | clears and hides the input and keeps the list |
| CmsCustomCategories.CustomCategories.GetCategoryMappings | src/components/cms/dashboard/useCustomCategories.ts:87-93 | `undefined` exactly when there are no custom categories, otherwise each name mapped to its slug |
| CmsCreateDialog.Without | src/components/cms/dashboard/CreatePostDialog.tsx:112 | the filter keeps exactly the other categories, never more of them |
| CmsCreateDialog.WithoutAbsent | src/components/cms/dashboard/CreatePostDialog.tsx:112 | filtering out an absent category changes nothing |
| CmsCreateDialog.WithoutAppend | src/components/cms/dashboard/CreatePostDialog.tsx:112 | filtering distributes over concatenation |
| CmsCreateDialog.WithoutMultiset | src/components/cms/dashboard/CreatePostDialog.tsx:112 | filtering removes every copy of the category and keeps every other one |
| CmsCreateDialog.Toggled | src/components/cms/dashboard/CreatePostDialog.tsx:107-117 | a selected category is removed, every copy, and the rest kept; another is appended |
| CmsCreateDialog.ToggleTwiceUnselected | src/components/cms/dashboard/CreatePostDialog.tsx:107-117 | toggling an unselected category twice gives the selection back |
| CmsCreateDialog.ToggleTwiceSelected | src/components/cms/dashboard/CreatePostDialog.tsx:107-117 | toggling a selected category twice moves it to the end |
| CmsCreateDialog.DistinctOnce | src/components/cms/dashboard/CreatePostDialog.tsx:107-117 | a category of a selection without duplicates is in it once |
| CmsCreateDialog.ToggleTwiceSameCategories | src/components/cms/dashboard/CreatePostDialog.tsx:107-117 | over a selection without duplicates, toggling twice gives back the same categories |
| CmsCreateDialog.FieldHead | src/components/cms/dashboard/CreatePostDialog.tsx:91-97 | the first property of the request is read back as written |
| CmsCreateDialog.FieldSkip | src/components/cms/dashboard/CreatePostDialog.tsx:91-97 | a property is found past the ones with other names |
| CmsCreateDialog.FieldTitle | src/components/cms/dashboard/CreatePostDialog.tsx:92 | the endpoint reads `title` as the dialog wrote it |
| CmsCreateDialog.FieldCategories | src/components/cms/dashboard/CreatePostDialog.tsx:93 | the endpoint reads `categories` as the dialog wrote it |
| CmsCreateDialog.FieldTags | src/components/cms/dashboard/CreatePostDialog.tsx:94 | the endpoint reads `tags` as the dialog wrote it |
| CmsCreateDialog.FieldDraft | src/components/cms/dashboard/CreatePostDialog.tsx:95 | the endpoint reads `draft` as the dialog wrote it |
| CmsCreateDialog.FieldMappings | src/components/cms/dashboard/CreatePostDialog.tsx:96 | the endpoint reads `categoryMappings` as the dialog wrote it |
| CmsCreateDialog.RequestTitleRead | src/components/cms/dashboard/CreatePostDialog.tsx:92 | the endpoint accepts the title exactly when the dialog's title is not blank, and sees it trimmed |
| CmsCreateDialog.TextsOfCategoriesArg | src/components/cms/dashboard/CreatePostDialog.tsx:93 | the categories sent read back as the selection, and an empty selection as none |
| CmsCreateDialog.RequestCategoriesRead | src/components/cms/dashboard/CreatePostDialog.tsx:93 | the create endpoint sees the selected categories as the dialog held them |
| CmsCreateDialog.RequestDraftRead | src/components/cms/dashboard/CreatePostDialog.tsx:95 | the endpoint reads the draft flag as set exactly when the box is ticked |
| CmsCreateDialog.NamesAndSlugs | src/components/cms/dashboard/useCustomCategories.ts:88-91 | each custom category's name with its slug, in list order |
| CmsCreateDialog.NewMappingsOfArg | src/components/cms/dashboard/CreatePostDialog.tsx:96 | the mappings argument reaches the endpoint as the names and slugs |
| CmsCreateDialog.RequestMappingsRead | src/components/cms/dashboard/CreatePostDialog.tsx:96 | the create endpoint sees each custom category's name and slug |
| CmsCreateDialog.CreatePostDialog.constructor | src/components/cms/dashboard/CreatePostDialog.tsx:35-65 | the form opens empty with `draft` on and no custom categories |
| CmsCreateDialog.CreatePostDialog.ToggleCategory | src/components/cms/dashboard/CreatePostDialog.tsx:107-117 | the selection becomes the toggled one and nothing else changes |
| CmsCreateDialog.CreatePostDialog.AddCustomCategory | src/components/cms/dashboard/CreatePostDialog.tsx:60-65 | an accepted custom category is appended to the list and selected; a refused one changes neither |
| CmsCreateDialog.CreatePostDialog.HandleRemoveCustomCategory | src/components/cms/dashboard/CreatePostDialog.tsx:73-82 | removing a custom category also drops it from the selection |
| CmsCreateDialog.CreatePostDialog.HandleClose | src/components/cms/dashboard/CreatePostDialog.tsx:67-71 | the form and the custom categories are reset, then `onClose` runs |
| CmsCreateDialog.CreatePostDialog.OnSubmit | src/components/cms/dashboard/CreatePostDialog.tsx:84-105 | one request with the form's values and mappings; on success a success toast, the form closed and reset and the post id reported; on failure the error toast and nothing else changes |
| CmsDashboardState.Filter | src/components/cms/dashboard/useDashboardState.ts:33-35 | an empty filter is left out of the query, any other is sent as it is |
| CmsDashboardState.BuildParams | src/components/cms/dashboard/useDashboardState.ts:31-41 | each text filter is absent exactly when empty, the status exactly when `all`, and the sort is passed through |
| CmsDashboardState.Flipped | src/components/cms/dashboard/useDashboardState.ts:49 | the order is flipped |
| CmsDashboardState.SortAfter | src/components/cms/dashboard/useDashboardState.ts:47-54 | a click sorts by the clicked field; the same field flips the order, another field sorts descending |
| CmsDashboardState.SortTwiceRestores | src/components/cms/dashboard/useDashboardState.ts:47-54 | two clicks on the current field give back the sort it started from |
| CmsDashboardState.SortNewFieldTwice | src/components/cms/dashboard/useDashboardState.ts:47-54 | a click on a new field, then a second click, sorts that field ascending |
| CmsDashboardState.DashboardState.constructor | src/components/cms/dashboard/useDashboardState.ts:16-28 | the overview tab, no filters, every status, newest first, nothing open |
| CmsDashboardState.DashboardState.HandleSort | src/components/cms/dashboard/useDashboardState.ts:47-54 | the sort becomes the one after the click and nothing else changes |
| CmsDashboardState.DashboardState.HandleSortTwice | src/components/cms/dashboard/useDashboardState.ts:47-54 | two clicks on the current field leave the query as it was |
| CmsDashboardState.DashboardState.HandleEdit | src/components/cms/dashboard/useDashboardState.ts:56-58 | the post is opened for editing; the tab, query, dialog, toasts and refetch count stay |
| CmsDashboardState.DashboardState.HandleToggleDraft | src/components/cms/dashboard/useDashboardState.ts:60-68 | success toasts "marked as draft" or "published" by the new flag and refetches; a failure toasts the error's message, or the fixed text for a non-`Error`, and does not refetch; the tab, query, edited post and dialog stay |
| CmsDashboardState.DashboardState.HandlePostCreated | src/components/cms/dashboard/useDashboardState.ts:70-73 | a new post is opened for editing and the list refetched; the tab, query, dialog and toasts stay |
| CmsDashboardState.DashboardState.HandleEditorClose | src/components/cms/dashboard/useDashboardState.ts:75-78 | closing the editor clears the edited post and refetches; the tab, query, dialog and toasts stay |
| CmsDashboardState.DashboardState.OpenCreateDialog | src/components/cms/dashboard/useDashboardState.ts:80 | opens the create dialog; the tab, query, edited post, toasts and refetch count stay |
| CmsDashboardState.DashboardState.CloseCreateDialog | src/components/cms/dashboard/useDashboardState.ts:81 | closes the create dialog; the tab, query, edited post, toasts and refetch count stay |
| CmsEditButton.FindById | src/components/cms/EditButton.tsx:61 | `find` gives the first editor with the id, and nothing exactly when no editor has it |
| CmsEditButton.EditorChoice | src/components/cms/EditButton.tsx:59-65 | a recorded and configured preference wins; without one the default editor is used; the result is configured, and nothing exactly when there are no editors |
| CmsEditButton.Render | src/components/cms/EditButton.tsx:82-160 | nothing before mount or when disabled; the hidden entry outside edit mode; in edit mode the menu with the current editor and the local editors only when some are configured and a project path is set |
| CmsEditButton.EditButton.constructor | src/components/cms/EditButton.tsx:35-41 | `contentRelativePath` defaults to `src/content/blog`; the browser editor starts closed |
| CmsEditButton.EditButton.HandleEditorClick | src/components/cms/EditButton.tsx:67-80 | without a project path nothing happens; otherwise the editor becomes preferred and the window goes to its URL for the post's full path |
| CmsEditButton.EditButton.OpenInEditor | src/lib/cms/editor-url.ts:66-69 | the window goes to the editor's URL for the file at line 1 |
| CmsEditButton.EditButton.HandleBrowserEdit | src/components/cms/EditButton.tsx:49-51 | opens the in-browser editor |
| CmsEditButton.EditButton.CloseEditor | src/components/cms/EditButton.tsx:158 | closes the in-browser editor |
| CmsEditButton.EditButton.HandleHiddenEntryClick | src/components/cms/EditButton.tsx:54-56 | turns edit mode on and, with storage, records it there |
| CmsEditButton.EditButton.ChosenEditorIsOffered | src/components/cms/EditButton.tsx:59-80 | after choosing a configured editor the button offers that editor |
| CmsEditorUrl.NoBraceSafe | src/lib/cms/editor-url.ts:24 | brace-free text holds no placeholder |
| CmsEditorUrl.ReplaceAfterPlain | src/lib/cms/editor-url.ts:24 | `replace` changes the first placeholder after brace-free text |
| CmsEditorUrl.ReplaceInPlain | src/lib/cms/editor-url.ts:24 | brace-free text is left alone |
| CmsEditorUrl.IntTextPlain | src/lib/cms/editor-url.ts:24 | a number's text has no brace |
| CmsEditorUrl.NoPlaceholdersUnchanged | src/lib/cms/editor-url.ts:23-25 | a template without placeholders comes back unchanged |
| CmsEditorUrl.PlainConcat | src/lib/cms/editor-url.ts:24 | brace-free pieces join into brace-free text |
| CmsEditorUrl.FilledTemplate | src/lib/cms/editor-url.ts:23-25 | a template with each placeholder once, in order, gets the path, line and column in their places |
| CmsEditorUrl.FillPath | src/lib/cms/editor-url.ts:24 | the path goes in place of `{path}` |
| CmsEditorUrl.FillLine | src/lib/cms/editor-url.ts:24 | the line goes in place of `{line}` |
| CmsEditorUrl.LinePlaceholderInPath | src/lib/cms/editor-url.ts:24 | a `{line}` inside the file path is the one replaced, not the template's |
| CmsEditorUrl.DropTrailingSlashes | src/lib/cms/editor-url.ts:41 | the result is a prefix that does not end in `/` |
| CmsEditorUrl.DropLeadingSlashes | src/lib/cms/editor-url.ts:43 | the result is no longer and does not start with `/` |
| CmsEditorUrl.LeadingDroppedSuffix | src/lib/cms/editor-url.ts:43 | what is left is the end of the text |
| CmsEditorUrl.OnlySlashesDropped | src/lib/cms/editor-url.ts:41-43 | only slashes are dropped, at the end and at the start |
| CmsEditorUrl.DropNothing | src/lib/cms/editor-url.ts:41-43 | without slashes there to drop nothing changes |
| CmsEditorUrl.FullFilePathParts | src/lib/cms/editor-url.ts:39-46 | the three normalised parts joined by single slashes, and already normalised parts joined as they are |
| CmsEditorUrl.FullFilePathExample | src/lib/cms/editor-url.ts:35-37 | the documented example holds |
| CmsEditorUrl.ExampleJoined | src/lib/cms/editor-url.ts:35-37 | the documented result is the parts joined by slashes |
| CmsEditorUrl.FindDefault | src/lib/cms/editor-url.ts:56 | the first editor flagged default, and none exactly when none is flagged |
| CmsEditorUrl.DefaultEditorChoice | src/lib/cms/editor-url.ts:54-57 | nothing exactly for no editors; otherwise the first default-flagged editor, or the first editor when none is flagged |
| CmsFrontmatterEditor.FormattedParts | src/components/cms/FrontmatterEditor.tsx:27-33 | one displayed part per category, in order |
| CmsFrontmatterEditor.AsPaths | src/components/cms/FrontmatterEditor.tsx:53-58 | with some multi-level part, every part becomes a path |
| CmsFrontmatterEditor.AsNames | src/components/cms/FrontmatterEditor.tsx:61-62 | without one, every part becomes a single name |
| CmsFrontmatterEditor.ParseTags | src/components/cms/FrontmatterEditor.tsx:95-98 | every tag parsed is non-empty, trimmed and comma-free |
| CmsFrontmatterEditor.TrimNoChar | src/components/cms/FrontmatterEditor.tsx:46 | trimming brings in no character |
| CmsFrontmatterEditor.TrimmedPiecesClean | src/components/cms/FrontmatterEditor.tsx:46 | trimmed pieces of a comma split are empty or clean |
| CmsFrontmatterEditor.NonEmptyClean | src/components/cms/FrontmatterEditor.tsx:98 | `filter(Boolean)` of empty-or-clean pieces leaves clean pieces |
| CmsFrontmatterEditor.GoodNameSafe | src/components/cms/FrontmatterEditor.tsx:30 | a good level name holds no ` > ` and cannot run into one |
| CmsFrontmatterEditor.JoinedLevels | src/components/cms/FrontmatterEditor.tsx:30 | joining levels with ` > ` puts a separator in exactly when there are two or more, and splitting gives them back |
| CmsFrontmatterEditor.JoinedLevelsEnds | src/components/cms/FrontmatterEditor.tsx:30 | the joined path starts and ends with the outer levels' characters and has no comma |
| CmsFrontmatterEditor.SpaceAll | src/components/cms/FrontmatterEditor.tsx:34 | every element with a space in front |
| CmsFrontmatterEditor.SpaceJoin | src/components/cms/FrontmatterEditor.tsx:34 | `, ` joining reads as `,` joining of space-prefixed parts |
| CmsFrontmatterEditor.CommaSpaceJoin | src/components/cms/FrontmatterEditor.tsx:34 | the pieces of a `, ` join split on `,` are the first part and the others behind a space |
| CmsFrontmatterEditor.TrimSpaced | src/components/cms/FrontmatterEditor.tsx:46 | a trimmed part behind one space trims back to itself |
| CmsFrontmatterEditor.TrimStartSpace | src/components/cms/FrontmatterEditor.tsx:46 | a leading space is trimmed away |
| CmsFrontmatterEditor.SpacedPieces | src/components/cms/FrontmatterEditor.tsx:34-46 | the pieces are comma-free and trim back to the parts |
| CmsFrontmatterEditor.JoinFirst | src/components/cms/FrontmatterEditor.tsx:34 | a join starts with the first part's first character |
| CmsFrontmatterEditor.CommaRoundTrip | src/components/cms/FrontmatterEditor.tsx:34-46 | clean parts joined with `, `, split on `,` and trimmed, are the parts again, and the text is not blank |
| CmsFrontmatterEditor.PathShape | src/components/cms/FrontmatterEditor.tsx:30-58 | a displayed path is clean, has ` > ` exactly when it has two levels, and parses back to the path |
| CmsFrontmatterEditor.CategoryRoundTrip | src/components/cms/FrontmatterEditor.tsx:24-63 | flat names, or paths with one of at least two levels, shown and parsed again are the same categories |
| CmsFrontmatterEditor.ParseCleanJoin | src/components/cms/FrontmatterEditor.tsx:43-63 | clean parts joined with `, ` parse part by part, as paths when any part is multi-level |
| CmsFrontmatterEditor.FlatRoundTrip | src/components/cms/FrontmatterEditor.tsx:24-63 | flat names round-trip |
| CmsFrontmatterEditor.NestedRoundTrip | src/components/cms/FrontmatterEditor.tsx:24-63 | nested paths round-trip |
| CmsFrontmatterEditor.NestedParts | src/components/cms/FrontmatterEditor.tsx:24-58 | the displayed parts of nested categories are clean, one has a ` > `, and each parses back as its path |
| CmsFrontmatterEditor.MixedInputAllPaths | src/components/cms/FrontmatterEditor.tsx:49-58 | `a, b > c` parses to `[[a], [b, c]]`: a single name becomes a one-level path once any part is multi-level |
| CmsFrontmatterEditor.TagRoundTrip | src/components/cms/FrontmatterEditor.tsx:68-98 | clean tags joined with `, ` parse back to themselves |
| CmsFrontmatterEditor.EmptyTags | src/components/cms/FrontmatterEditor.tsx:95-98 | empty input has no tags |
| CmsFrontmatterEditor.NonEmptyAll | src/components/cms/FrontmatterEditor.tsx:98 | `filter(Boolean)` keeps non-empty pieces |
| CmsFrontmatterEditor.BlankInput | src/components/cms/FrontmatterEditor.tsx:43-98 | blank input clears the categories and the tags |
| CmsFrontmatterEditor.NonEmptyOfEmpties | src/components/cms/FrontmatterEditor.tsx:98 | empty pieces are all dropped |
| CmsFrontmatterEditor.BlankPieces | src/components/cms/FrontmatterEditor.tsx:95-96 | the pieces of blank text are blank |
| CmsFrontmatterEditor.StrItems | src/components/cms/FrontmatterEditor.tsx:87 | names stored as an array of strings, in order |
| CmsFrontmatterEditor.CategoriesValue | src/components/cms/FrontmatterEditor.tsx:87 | the categories stored as an array, one item per category |
| CmsFrontmatterEditor.StrTexts | src/components/cms/FrontmatterEditor.tsx:27-34 | each stored string read as its text |
| CmsFrontmatterEditor.DecodeEncode | src/components/cms/FrontmatterEditor.tsx:67-87 | stored categories read back as themselves |
| CmsFrontmatterEditor.DecodeTagsOfStored | src/components/cms/FrontmatterEditor.tsx:68-99 | stored tags read back as themselves |
| CmsFrontmatterEditor.CategoryTextAfterEcho | src/components/cms/FrontmatterEditor.tsx:71-88 | after typing, the box re-synchronised from the record shows the parsed categories, and input that is a displayed list shows unchanged |
| CmsFrontmatterEditor.TagTextAfterEcho | src/components/cms/FrontmatterEditor.tsx:71-100 | the same for the tags box |
| CmsFrontmatterEditor.PropAfterAssign | src/components/cms/FrontmatterEditor.tsx:76-81 | the spread sets one property and keeps every other |
| CmsFrontmatterEditor.FlagShowsStored | src/components/cms/FrontmatterEditor.tsx:255-267 | a draft, sticky or summary box shows the state it stored, and keeps every other property |
| CmsFrontmatterEditor.DefaultOnShowsStored | src/components/cms/FrontmatterEditor.tsx:277-289 | a catalog or numbering box shows the state it stored, and keeps every other property |
| CmsFrontmatterEditor.TextShowsStored | src/components/cms/FrontmatterEditor.tsx:179-180 | an optional text box shows what it stored, and empty text stores `undefined` |
| CmsFrontmatterEditor.FrontmatterForm.constructor | src/components/cms/FrontmatterEditor.tsx:65-68 | the boxes start with the record's categories and tags shown |
| CmsFrontmatterEditor.FrontmatterForm.UpdateField | src/components/cms/FrontmatterEditor.tsx:76-81 | passes the record with one property set to `onChange` |
| CmsFrontmatterEditor.FrontmatterForm.HandleCategoryChange | src/components/cms/FrontmatterEditor.tsx:83-90 | keeps the typed text and passes the parsed categories, or `undefined` when there are none |
| CmsFrontmatterEditor.FrontmatterForm.HandleTagChange | src/components/cms/FrontmatterEditor.tsx:92-102 | keeps the typed text and passes the parsed tags, or `undefined` when there are none |
| CmsFrontmatterEditor.FrontmatterForm.HandleTitleChange | src/components/cms/FrontmatterEditor.tsx:126 | the title box stores its text as it is |
| CmsFrontmatterEditor.FrontmatterForm.HandleDateChange | src/components/cms/FrontmatterEditor.tsx:146 | cleared text passes nothing; other text stores the parsed date |
| CmsFrontmatterEditor.FrontmatterForm.HandleUpdatedChange | src/components/cms/FrontmatterEditor.tsx:162 | cleared text removes the date; other text stores the parsed date |
| CmsFrontmatterEditor.FrontmatterForm.HandleTextChange | src/components/cms/FrontmatterEditor.tsx:180 | an optional text box stores its text, or `undefined` when empty |
| CmsFrontmatterEditor.FrontmatterForm.HandleFlagChange | src/components/cms/FrontmatterEditor.tsx:256 | a draft, sticky or summary box stores `true` or `undefined` |
| CmsFrontmatterEditor.FrontmatterForm.HandleDefaultOnChange | src/components/cms/FrontmatterEditor.tsx:278 | a catalog or numbering box stores `undefined` or `false` |
| CmsFrontmatterEditor.FrontmatterForm.Receive | src/components/cms/FrontmatterEditor.tsx:70-74 | a new record re-synchronises both boxes exactly when its categories or tags changed |
| CmsStore.EditModeStore.constructor | src/store/cms.ts:19 | the atom starts off and local storage holds what earlier sessions left |
| CmsStore.EditModeStore.Init | src/store/cms.ts:29-52 | nothing on the server; off when the CMS is disabled; `?edit=true` or `false` sets the mode and stores it; otherwise the stored `true` decides |
| CmsStore.EditModeStore.Toggle | src/store/cms.ts:57-64 | flips the mode and, where storage exists, stores the new value |
| CmsStore.EditModeStore.Enable | src/store/cms.ts:69-74 | turns the mode on and stores `true` where storage exists |
| CmsStore.EditModeStore.Disable | src/store/cms.ts:79-84 | turns the mode off and stores `false` where storage exists |
| CmsStore.EditModeStore.InitThenMirrored | src/store/cms.ts:29-52 | an initialisation from the URL leaves the store and the atom agreeing, and one from storage keeps them agreeing |
| CmsStore.EditModeStore.ToggleTwice | src/store/cms.ts:57-64 | toggling twice restores the mode and leaves it stored |
| I18nConfig.LocaleEntries | src/i18n/config.ts:14-17 | every configured locale in order, labelled by its code when it has no label |
| I18nConfig.LocaleList | src/i18n/config.ts:23 | the codes in order |
| I18nConfig.SupportedIff | src/i18n/config.ts:20-30 | a code is supported exactly when some entry has it |
| I18nConfig.GetLocaleLabel | src/i18n/config.ts:36-38 | the label of the first entry with the code, else the code itself |
| I18nConfig.BuildFallbackMap | src/i18n/config.ts:45-53 | every non-default locale, and nothing else, falls back to the default |
| I18nUtils.Placeholder | src/i18n/utils.ts:45 | the placeholder for a parameter starts with `{` |
| I18nUtils.RawValue | src/i18n/utils.ts:32-33 | the locale's own text when it has the key, else the default strings' text, else nothing |
| I18nUtils.Interpolate | src/i18n/utils.ts:43-47 | the loop replaces every `{name}` by its value, one parameter after the other |
| I18nUtils.T | src/i18n/utils.ts:31-50 | `t` returns the interpolated text, or the key when no non-empty text is found |
| I18nUtils.TryTranslate | src/i18n/utils.ts:57-70 | `tryTranslate` returns the interpolated text, or nothing when no non-empty text is found |
| I18nUtils.TranslationOrder | src/i18n/utils.ts:31-41 | the locale's text wins; an empty text there gives the key without consulting the defaults; otherwise the default text, or the key |
| I18nUtils.TryTranslationAgrees | src/i18n/utils.ts:31-70 | `tryTranslate` finds nothing exactly when `t` falls back to the key for lack of text, and otherwise agrees with `t` |
| I18nUtils.ReplaceAllAbsent | src/i18n/utils.ts:45 | `replaceAll` leaves text alone when the pattern does not occur |
| I18nUtils.InterpolateWithoutPlaceholders | src/i18n/utils.ts:43-47 | text without `{` is returned as it is, whatever the parameters |
| I18nUtils.ResolveNavName | src/i18n/utils.ts:206-211 | a non-empty key is translated; otherwise the fallback name, or empty text |
| I18nUtils.Segments | src/i18n/utils.ts:102 | `split('/').filter(Boolean)` gives non-empty segments |
| I18nUtils.GetLocaleFromUrl | src/i18n/utils.ts:101-110 | the first segment when it is a supported non-default locale, else the default; the result is always the default or a supported locale |
| I18nUtils.LocalizedPath | src/i18n/utils.ts:125-134 | the path made absolute, prefixed by `/locale` unless the locale is the default; the result starts with `/` |
| I18nUtils.LocalizedRoot | src/i18n/utils.ts:125-134 | the root in a non-default locale is `/en/`, with the trailing slash |
| I18nUtils.StripLocaleFromPath | src/i18n/utils.ts:146-156 | a leading supported non-default locale is removed and the rest rebuilt from its segments; other paths are returned unchanged |
| I18nUtils.GetHtmlLang | src/i18n/utils.ts:186-192 | `zh` is tagged `zh-CN`; every other code is its own tag |
| I18nUtils.NonEmptyAll | src/i18n/utils.ts:102 | `filter(Boolean)` keeps non-empty segments |
| I18nUtils.SegmentsAbsolute | src/i18n/utils.ts:102 | the segments of an absolute path are those after its leading `/` |
| I18nUtils.SegmentsPrefixed | src/i18n/utils.ts:102-133 | putting `/locale` in front of a path puts the locale in front of its segments |
| I18nUtils.RebuildClean | src/i18n/utils.ts:151-152 | joining the segments of a clean path rebuilds it |
| I18nUtils.RootSegments | src/i18n/utils.ts:102 | the root has no segments |
| I18nUtils.LocalizeStripRoundTrip | src/i18n/utils.ts:101-156 | a clean unlocalised path localised to a supported locale strips back to itself, and the locale is read back from it |
| I18nUtils.AlternateUrlSwitches | src/i18n/utils.ts:168-171 | switching a localised page to another locale gives the page localised to that locale |
| LocaleRoutes.GetLocaleStaticPaths | src/pages/_shared/utils.ts:12-14 | no path for the default locale, and one path for every other occurrence in the list |
| LocaleRoutes.StaticPathsInOrder | src/pages/_shared/utils.ts:13 | the paths keep the locales' order |
| LocaleRoutes.StaticPathsMembers | src/pages/_shared/utils.ts:13 | a locale gets a path exactly when it is configured and is not the default |
| MarkdownSpoiler.ContentEnd | src/lib/markdown/remark-shoka-spoiler.ts:10 | the content of a spoiler ends at a closing `!!` |
| MarkdownSpoiler.ContentHasNoBang | src/lib/markdown/remark-shoka-spoiler.ts:10 | the content holds no `!` |
| MarkdownSpoiler.NextSpoiler | src/lib/markdown/remark-shoka-spoiler.ts:33 | `exec` from the last index finds a spoiler at or after it |
| MarkdownSpoiler.NextSpoilerLeftmost | src/lib/markdown/remark-shoka-spoiler.ts:33 | `exec` finds the leftmost spoiler, and none only when there is none |
| MarkdownSpoiler.AttrBlock | src/lib/markdown/remark-shoka-spoiler.ts:13 | an attribute block is non-empty and fits in the text after the spoiler |
| MarkdownSpoiler.AttrBlockShape | src/lib/markdown/remark-shoka-spoiler.ts:13 | the block is the brace-enclosed run at the start, and it holds no `}` |
| MarkdownSpoiler.Word | src/lib/markdown/remark-shoka-spoiler.ts:18 | the first word is the longest prefix without white space |
| MarkdownSpoiler.Words | src/lib/markdown/remark-shoka-spoiler.ts:18 | the words are non-empty and hold no white space |
| MarkdownSpoiler.ExtractClasses | src/lib/markdown/remark-shoka-spoiler.ts:16-21 | the classes extracted hold no white space |
| MarkdownSpoiler.DotTokens | src/lib/markdown/remark-shoka-spoiler.ts:19-20 | only `.`-tokens are kept, without their dot, never more than there were words |
| MarkdownSpoiler.ResumeAt | src/lib/markdown/remark-shoka-spoiler.ts:45-53 | scanning resumes past the spoiler |
| MarkdownSpoiler.Gap | src/lib/markdown/remark-shoka-spoiler.ts:34-36 | a text part for the stretch before a spoiler, none when it starts right away |
| MarkdownSpoiler.ResumeAfterAttrs | src/lib/markdown/remark-shoka-spoiler.ts:40-46 | scanning resumes after the closing `!!`, and past the attribute block when one follows |
| MarkdownSpoiler.PiecesStep | src/lib/markdown/remark-shoka-spoiler.ts:33-54 | one step of the scan: the stretch before the next spoiler, the spoiler, then the pieces after it |
| MarkdownSpoiler.SourcesAppend | src/lib/markdown/remark-shoka-spoiler.ts:33-60 | the text behind pieces distributes over concatenation |
| MarkdownSpoiler.SourcesOne | src/lib/markdown/remark-shoka-spoiler.ts:33-60 | the text behind one piece |
| MarkdownSpoiler.SourcesSnoc | src/lib/markdown/remark-shoka-spoiler.ts:33-60 | the text behind pieces with one more at the end |
| MarkdownSpoiler.SourcesConcat | src/lib/markdown/remark-shoka-spoiler.ts:33-60 | the text behind two runs of pieces |
| MarkdownSpoiler.SliceJoin | src/lib/markdown/remark-shoka-spoiler.ts:33-60 | three consecutive stretches make up the rest of the text |
| MarkdownSpoiler.SourcesOfStep | src/lib/markdown/remark-shoka-spoiler.ts:33-60 | pieces read from three consecutive stretches give back the stretches |
| MarkdownSpoiler.SpoilerSource | src/lib/markdown/remark-shoka-spoiler.ts:40-53 | the spoiler found covers exactly the text up to where scanning resumes |
| MarkdownSpoiler.RebuildLast | src/lib/markdown/remark-shoka-spoiler.ts:58-60 | with no spoiler left, the rest is one plain piece |
| MarkdownSpoiler.RebuildStep | src/lib/markdown/remark-shoka-spoiler.ts:33-54 | one step of the scan preserves the rebuilt text |
| MarkdownSpoiler.PiecesRebuildText | src/lib/markdown/remark-shoka-spoiler.ts:29-60 | the scan loses and adds no text: the pieces' sources joined are the scanned text |
| MarkdownSpoiler.PiecesWellFormed | src/lib/markdown/remark-shoka-spoiler.ts:10-35 | every spoiler content is non-empty, has no `!` and no white space at either end; plain parts are never empty |
| MarkdownSpoiler.RenderAll | src/lib/markdown/remark-shoka-spoiler.ts:33-60 | one output node per piece |
| MarkdownSpoiler.RenderAllAppend | src/lib/markdown/remark-shoka-spoiler.ts:33-60 | rendering distributes over concatenation |
| MarkdownSpoiler.RenderOne | src/lib/markdown/remark-shoka-spoiler.ts:33-60 | rendering one piece |
| MarkdownSpoiler.RenderStep | src/lib/markdown/remark-shoka-spoiler.ts:33-60 | rendering a head, a piece and the rest |
| MarkdownSpoiler.ScanStepAfterText | src/lib/markdown/remark-shoka-spoiler.ts:34-53 | a text part then the span extend the parts by one step of the rendering |
| MarkdownSpoiler.ScanStepAdjacent | src/lib/markdown/remark-shoka-spoiler.ts:34-53 | a spoiler right after the previous one adds only its span |
| MarkdownSpoiler.ExtendRendering | src/lib/markdown/remark-shoka-spoiler.ts:33-60 | the rendering of a split sequence is split alike |
| MarkdownSpoiler.PrependAssoc | src/lib/markdown/remark-shoka-spoiler.ts:33-60 | regrouping the parts |
| MarkdownSpoiler.ScanEnd | src/lib/markdown/remark-shoka-spoiler.ts:58-60 | after the last spoiler the rest of the text, if any, ends the parts |
| MarkdownSpoiler.SpoilerSpan | src/lib/markdown/remark-shoka-spoiler.ts:38-53 | the span is `spoiler` plus the extra classes around the content, and scanning resumes past any attribute block |
| MarkdownSpoiler.EmitMatch | src/lib/markdown/remark-shoka-spoiler.ts:34-53 | one iteration advances the last index and keeps the parts a prefix of the full rendering |
| MarkdownSpoiler.SpoilerParts | src/lib/markdown/remark-shoka-spoiler.ts:29-60 | no parts when there is no spoiler; otherwise the rendering of the text's pieces, in order |
| MarkdownSpoiler.VisitText | src/lib/markdown/remark-shoka-spoiler.ts:25-62 | without an index or parent, or without a spoiler, nothing changes; otherwise the text node is replaced by the parts in place |
| QuizParse.ChildWithTag | src/lib/quiz/parse-quiz.ts:29 | `querySelector(':scope > tag')` gives a child with the tag, and nothing only when no child has it |
| QuizParse.ChildWithClass | src/lib/quiz/parse-quiz.ts:65 | `querySelector(':scope > .cls')` gives a child with the class, and nothing only when no child has it |
| QuizParse.Descendants | src/lib/quiz/parse-quiz.ts:48 | `querySelectorAll` finds elements only |
| QuizParse.Spans | src/lib/quiz/parse-quiz.ts:48 | the `span` elements with the class are exactly those found that are spans with the class |
| QuizParse.GetSource | src/lib/quiz/parse-quiz.ts:64-66 | the `.quiz-original` child when there is one, else the element itself |
| QuizParse.DetectQuizType | src/lib/quiz/parse-quiz.ts:4-13 | fill exactly for class `fill`; multi exactly for `multi` without `fill`; otherwise single exactly when the source has a direct `ul`, true/false exactly when it has none |
| QuizParse.Kept | src/lib/quiz/parse-quiz.ts:19-23 | the clone keeps exactly the children that are not option lists or explanation quotes |
| QuizParse.KeptAppend | src/lib/quiz/parse-quiz.ts:19-23 | removal works child by child |
| QuizParse.ExtractQuestionHtml | src/lib/quiz/parse-quiz.ts:16-25 | the question is the trimmed markup of the children left after removing `ul`, `ol` and `blockquote` |
| QuizParse.OptionsOf | src/lib/quiz/parse-quiz.ts:32-35 | no more options than items |
| QuizParse.ExtractOptions | src/lib/quiz/parse-quiz.ts:28-36 | no options without a direct `ul` |
| QuizParse.OptionsFollowItems | src/lib/quiz/parse-quiz.ts:32-35 | one option per `li`, holding its markup, correct exactly when it has the class `correct` |
| QuizParse.ExtractExplanation | src/lib/quiz/parse-quiz.ts:39-42 | an explanation exactly when there is a direct `blockquote`, and then its markup |
| QuizParse.GapTexts | src/lib/quiz/parse-quiz.ts:47-53 | no more gap texts than spans |
| QuizParse.GapTextsAppend | src/lib/quiz/parse-quiz.ts:48-52 | gap texts are read span by span |
| QuizParse.ExtractGaps | src/lib/quiz/parse-quiz.ts:45-54 | the loop collects the text of every `span.gap` outside a blockquote, in document order |
| QuizParse.NoGapsInsideBlockquote | src/lib/quiz/parse-quiz.ts:50 | inside a blockquote no gap is read at all |
| QuizParse.DescendantsInherit | src/lib/quiz/parse-quiz.ts:50 | every element below a blockquote has a blockquote as an ancestor |
| QuizParse.ExtractMistakes | src/lib/quiz/parse-quiz.ts:57-61 | no mistakes without a direct `blockquote` |
| QuizParse.TextsOfFound | src/lib/quiz/parse-quiz.ts:60 | the text of each element found, in order |
| QuizParse.ParseQuizElement | src/lib/quiz/parse-quiz.ts:69-82 | the type is detected; options only for single and multi, the answer only for true/false, gaps and mistakes only for fill; each field read from the source element |
| FillBlankQuiz.AnswerEnd | src/components/markdown/quiz/FillBlankQuiz.tsx:21 | the answer inside a gap ends at the closing `</span>` |
| FillBlankQuiz.MatchEnd | src/components/markdown/quiz/FillBlankQuiz.tsx:31 | the next search starts past the match |
| FillBlankQuiz.AnswerHasNoTag | src/components/markdown/quiz/FillBlankQuiz.tsx:21 | the answer text has no `<` |
| FillBlankQuiz.NextGap | src/components/markdown/quiz/FillBlankQuiz.tsx:25 | `exec` from the last index finds a gap at or after it |
| FillBlankQuiz.NextGapLeftmost | src/components/markdown/quiz/FillBlankQuiz.tsx:25 | the match found is the leftmost, and none is found only when there is none |
| FillBlankQuiz.Lead | src/components/markdown/quiz/FillBlankQuiz.tsx:26-28 | the markup before a gap, nothing when the gap starts right away |
| FillBlankQuiz.SegmentsStep | src/components/markdown/quiz/FillBlankQuiz.tsx:25-32 | one step of the scan: the markup before the next gap, the gap, then the rest |
| FillBlankQuiz.SourcesAppend | src/components/markdown/quiz/FillBlankQuiz.tsx:25-36 | the text behind stretches distributes over concatenation |
| FillBlankQuiz.SourcesOne | src/components/markdown/quiz/FillBlankQuiz.tsx:25-36 | the text behind one stretch |
| FillBlankQuiz.SourcesSnoc | src/components/markdown/quiz/FillBlankQuiz.tsx:25-36 | the text behind stretches with one more at the end |
| FillBlankQuiz.SourcesConcat | src/components/markdown/quiz/FillBlankQuiz.tsx:25-36 | the text behind two runs of stretches |
| FillBlankQuiz.SliceJoin | src/components/markdown/quiz/FillBlankQuiz.tsx:25-36 | three consecutive slices make up the rest |
| FillBlankQuiz.SourcesOfStep | src/components/markdown/quiz/FillBlankQuiz.tsx:25-36 | stretches read from consecutive slices give back the slices |
| FillBlankQuiz.BlankSource | src/components/markdown/quiz/FillBlankQuiz.tsx:21-31 | a gap covers exactly the text of its match |
| FillBlankQuiz.RebuildLast | src/components/markdown/quiz/FillBlankQuiz.tsx:34-36 | with no gap left the rest is one markup stretch |
| FillBlankQuiz.RebuildStep | src/components/markdown/quiz/FillBlankQuiz.tsx:25-32 | one step of the scan preserves the rebuilt text |
| FillBlankQuiz.SegmentsRebuild | src/components/markdown/quiz/FillBlankQuiz.tsx:17-39 | splitting loses nothing: the stretches joined give back the question's markup |
| FillBlankQuiz.SegmentsWellFormed | src/components/markdown/quiz/FillBlankQuiz.tsx:21-36 | markup stretches are never empty and no answer holds a `<` |
| FillBlankQuiz.GapContent | src/components/markdown/quiz/FillBlankQuiz.tsx:29 | the gap shows its answer, or nothing past the end of the answers |
| FillBlankQuiz.LabelAppend | src/components/markdown/quiz/FillBlankQuiz.tsx:23-30 | numbering continues across concatenated stretches |
| FillBlankQuiz.Range | src/components/markdown/quiz/FillBlankQuiz.tsx:23-30 | the numbers from `lo` up to `hi`, in order |
| FillBlankQuiz.LabelLength | src/components/markdown/quiz/FillBlankQuiz.tsx:25-36 | one part per stretch |
| FillBlankQuiz.LabelNumbers | src/components/markdown/quiz/FillBlankQuiz.tsx:23-30 | gaps are numbered one after the other |
| FillBlankQuiz.LabelContents | src/components/markdown/quiz/FillBlankQuiz.tsx:29 | each gap shows the answer of its number, and its number is in the range handed out |
| FillBlankQuiz.LabelKeepsMarkup | src/components/markdown/quiz/FillBlankQuiz.tsx:27 | markup parts carry the markup stretches unchanged |
| FillBlankQuiz.LabelStep | src/components/markdown/quiz/FillBlankQuiz.tsx:25-32 | one step of the loop: the markup part, then the gap with the current number |
| FillBlankQuiz.BlanksAppend | src/components/markdown/quiz/FillBlankQuiz.tsx:23-30 | gaps are counted stretch by stretch |
| FillBlankQuiz.ExtendParts | src/components/markdown/quiz/FillBlankQuiz.tsx:26-30 | parts pushed before a gap keep the parts a prefix of the result |
| FillBlankQuiz.LeadParts | src/components/markdown/quiz/FillBlankQuiz.tsx:26-28 | a markup part only when there is text before the gap |
| FillBlankQuiz.EmitGap | src/components/markdown/quiz/FillBlankQuiz.tsx:26-31 | one iteration advances the last index past the match and keeps the parts a prefix of the result |
| FillBlankQuiz.QuestionParts | src/components/markdown/quiz/FillBlankQuiz.tsx:17-39 | the loop gives the markup and numbered gaps of the question, in order |
| FillBlankQuiz.QuestionPartsNumbered | src/components/markdown/quiz/FillBlankQuiz.tsx:17-39 | the gaps are numbered 0, 1, … one per placeholder, each showing the answer of its number or nothing |
| FillBlankQuiz.Upto | src/components/markdown/quiz/FillBlankQuiz.tsx:14 | the numbers below `n`, `n` of them |
| FillBlankQuiz.RevealingEveryGap | src/components/markdown/quiz/FillBlankQuiz.tsx:14 | once every gap shown is revealed, all count as revealed exactly when there are at least as many gaps as answers |
| FillBlankQuiz.RevealMonotone | src/components/markdown/quiz/FillBlankQuiz.tsx:10-14 | revealing never hides anything |
| FillBlankQuiz.SubsetSize | src/components/markdown/quiz/FillBlankQuiz.tsx:14 | a subset is no larger |
| FillBlankQuiz.FillBlank.constructor | src/components/markdown/quiz/FillBlankQuiz.tsx:8 | nothing is revealed at first |
| FillBlankQuiz.FillBlank.RevealGap | src/components/markdown/quiz/FillBlankQuiz.tsx:10-12 | adds the number to the revealed set; what was all revealed stays so |
| FillBlankQuiz.NoGapsStartRevealed | src/components/markdown/quiz/FillBlankQuiz.tsx:14 | a quiz without answers starts with everything shown |
| MultiChoiceQuiz.CorrectFrom | src/components/markdown/quiz/MultiChoiceQuiz.tsx:30 | exactly the indices of correct options, in ascending order |
| MultiChoiceQuiz.CorrectSet | src/components/markdown/quiz/MultiChoiceQuiz.tsx:30 | the set of indices of correct options |
| MultiChoiceQuiz.SubsetSameSize | src/components/markdown/quiz/MultiChoiceQuiz.tsx:31 | a subset of the same size is the whole set |
| MultiChoiceQuiz.AllCorrectIff | src/components/markdown/quiz/MultiChoiceQuiz.tsx:31 | the answer is right exactly when it is revealed and the selection is the set of correct options |
| MultiChoiceQuiz.Letters | src/components/markdown/quiz/MultiChoiceQuiz.tsx:81 | one letter `A` + index per listed index |
| MultiChoiceQuiz.FeedbackLettersAreCorrect | src/components/markdown/quiz/MultiChoiceQuiz.tsx:79-81 | every letter in the verdict for a wrong answer names a correct option |
| MultiChoiceQuiz.FeedbackListsEveryCorrect | src/components/markdown/quiz/MultiChoiceQuiz.tsx:79-81 | every correct option is listed in the verdict |
| MultiChoiceQuiz.FeedbackLettersInOrder | src/components/markdown/quiz/MultiChoiceQuiz.tsx:30-81 | the letters go in alphabetical order |
| MultiChoiceQuiz.Toggle | src/components/markdown/quiz/MultiChoiceQuiz.tsx:15-20 | the option is taken out if it was in and put in otherwise; no other option changes |
| MultiChoiceQuiz.ToggleTwice | src/components/markdown/quiz/MultiChoiceQuiz.tsx:15-20 | toggling twice restores the selection |
| MultiChoiceQuiz.MultiChoice.constructor | src/components/markdown/quiz/MultiChoiceQuiz.tsx:9-10 | nothing selected and not revealed |
| MultiChoiceQuiz.MultiChoice.ToggleOption | src/components/markdown/quiz/MultiChoiceQuiz.tsx:12-23 | toggles the option, and is ignored once revealed |
| MultiChoiceQuiz.MultiChoice.HandleSubmit | src/components/markdown/quiz/MultiChoiceQuiz.tsx:25-28 | reveals exactly when something is selected; the selection stays |
| TrueFalseQuiz.ExactlyOneAnswerRight | src/components/markdown/quiz/TrueFalseQuiz.tsx:20 | with a known answer exactly one button is right; with none neither is; no answer is never right |
| TrueFalseQuiz.Feedback | src/components/markdown/quiz/TrueFalseQuiz.tsx:78 | "right" for a right answer; otherwise the proposition's truth value, a missing one read as false |
| TrueFalseQuiz.WrongAnswerToldOpposite | src/components/markdown/quiz/TrueFalseQuiz.tsx:20-78 | a wrong answer is told the value it did not give |
| TrueFalseQuiz.TrueFalse.constructor | src/components/markdown/quiz/TrueFalseQuiz.tsx:8-9 | no answer and nothing revealed |
| TrueFalseQuiz.TrueFalse.HandleAnswer | src/components/markdown/quiz/TrueFalseQuiz.tsx:11-18 | the first answer is kept and revealed; later ones are ignored |
| QuizBlock.CutNestedList | src/components/markdown/QuizBlock.tsx:23 | everything from the first `<ul` on is dropped, and markup without one is kept |
| QuizBlock.CutLeavesNoList | src/components/markdown/QuizBlock.tsx:23 | what is left is a prefix of the markup with no `<ul` in it |
| QuizBlock.Items | src/components/markdown/QuizBlock.tsx:21 | the `li` elements found, never more than the elements |
| QuizBlock.OptionMarkup | src/components/markdown/QuizBlock.tsx:23 | one option per item, its markup cut before any nested list |
| QuizBlock.CorrectIndex | src/components/markdown/QuizBlock.tsx:24 | the first item with the class `correct`, and -1 exactly when none has it |
| QuizBlock.RevealedRows | src/components/markdown/QuizBlock.tsx:50-54 | after the answer the right row is green, the picked row red unless it is right, every other row faded |
| QuizBlock.NoCorrectItem | src/components/markdown/QuizBlock.tsx:71-76 | with no item marked correct every answer is wrong and the verdict names `@`, the character before `A` |
| QuizBlock.RightIffCorrectItem | src/components/markdown/QuizBlock.tsx:24-71 | an answer is right exactly when it is the first item marked correct |
| QuizBlock.Block.constructor | src/components/markdown/QuizBlock.tsx:16-26 | the options and the correct index are read from the element's items; nothing selected or revealed |
| QuizBlock.Block.HandleSelect | src/components/markdown/QuizBlock.tsx:28-35 | the first click is the answer and reveals it; later ones are ignored |
| PlayerPreview.LastAtOrBefore | src/components/markdown/audio-player/PlayerPreview.tsx:22-36 | the last line at or before the time, every later line after it, or -1 |
| PlayerPreview.SplitIsLast | src/components/markdown/audio-player/PlayerPreview.tsx:22-36 | an index that splits the lines at the time is that last line |
| PlayerPreview.FindCurrentLrcIndex | src/components/markdown/audio-player/PlayerPreview.tsx:22-36 | the binary search returns an index in range or -1, and on lines sorted by time the last line at or before the time |
| PlayerPreview.CurrentLineMonotone | src/components/markdown/audio-player/PlayerPreview.tsx:22-36 | a later time never moves the current line back |
| PlayerPreview.NoCurrentLine | src/components/markdown/audio-player/PlayerPreview.tsx:22-36 | no line is current exactly when there are none or the first comes after the time |
| PlayerPreview.CurrentMarks | src/components/markdown/audio-player/PlayerPreview.tsx:110-111 | exactly the line at the index carries `current` |
| PlayerPreview.OneLineHighlighted | src/components/markdown/audio-player/PlayerPreview.tsx:111 | at most one line is highlighted, none for -1 |
| PlayerPreview.ScrollOffset | src/components/markdown/audio-player/PlayerPreview.tsx:107 | 48 pixels for no or the first line, 32 less for each line after |
| PlayerPreview.CurrentLineCentred | src/components/markdown/audio-player/PlayerPreview.tsx:16-20 | the current line sits in the middle of the pane, as much room above as below |
| PlayerPlaylist.ActiveGroup | src/components/markdown/audio-player/PlayerPlaylist.tsx:42 | the group under the active tab, the first group when the tab is out of range, none without groups |
| PlayerPlaylist.SliceIndex | src/components/markdown/audio-player/PlayerPlaylist.tsx:43 | a slice bound is clamped to the list and taken as is when inside it |
| PlayerPlaylist.Slice | src/components/markdown/audio-player/PlayerPlaylist.tsx:43 | within bounds the slice is the sub-sequence between them |
| PlayerPlaylist.RowsShowGlobalTracks | src/components/markdown/audio-player/PlayerPlaylist.tsx:43-81 | each visible row shows the track at its global index, and the active group shows its count of tracks or as many as are left |
| PlayerPlaylist.NoGroupsShowAll | src/components/markdown/audio-player/PlayerPlaylist.tsx:43-81 | without groups every track shows under its own index |
| PlayerPlaylist.ClampUnit | src/components/markdown/audio-player/PlayerPlaylist.tsx:51 | the click ratio lies in [0, 1] and is unchanged inside it |
| PlayerPlaylist.HandleClick | src/components/markdown/audio-player/PlayerPlaylist.tsx:47-56 | a click on the current track seeks and any other click selects the clicked track |
| PlayerPlaylist.ClickSeekWithinTrack | src/components/markdown/audio-player/PlayerPlaylist.tsx:47-52 | a seek from a click lands between 0 and the duration |
| PlayerPlaylist.TabLabel | src/components/markdown/audio-player/PlayerPlaylist.tsx:72 | a titled tab shows its title |
| PlayerPlaylist.UntitledTabNumber | src/components/markdown/audio-player/PlayerPlaylist.tsx:72 | an untitled tab reads `列表 ` then its position counted from 1 |
| PlayerState.RandomIndex | src/hooks/useAudioPlayer.ts:164 | a random pick lies in the list, and is 0 with one track or none |
| PlayerState.NextIndex | src/hooks/useAudioPlayer.ts:160-169 | next lands in the list and, outside random mode, is the following track wrapping round |
| PlayerState.PrevIndex | src/hooks/useAudioPlayer.ts:171-180 | outside random mode previous is the track before, the last before the first |
| PlayerState.EndIndex | src/hooks/useAudioPlayer.ts:92-103 | a track that ends repeats in loop mode, and otherwise goes to the next, the first after the last |
| PlayerState.StepsStayInList | src/hooks/useAudioPlayer.ts:92-180 | from a track of the list next, previous and the end all land in the list |
| PlayerState.PrevUndoesNext | src/hooks/useAudioPlayer.ts:160-180 | outside random mode previous undoes next and next undoes previous |
| PlayerState.LoopRepeatsOnlyAtEnd | src/hooks/useAudioPlayer.ts:97-180 | loop mode repeats only at the end; with two or more tracks the buttons still move |
| PlayerState.OrderEndIsNext | src/hooks/useAudioPlayer.ts:101-166 | in order mode the end of a track and the next button go to the same track |
| PlayerState.ClampVolume | src/hooks/useAudioPlayer.ts:191 | the volume lies in [0, 1], is unchanged inside it, and is 0 or 1 exactly when the request is at or past that end |
| PlayerState.ClampIdempotent | src/hooks/useAudioPlayer.ts:191 | clamping a clamped volume changes nothing |
| PlayerState.PlayerStore.constructor | src/hooks/useAudioPlayer.ts:12-19 | no active player; the remembered mode and volume as given |
| PlayerState.PauseOnlyForOthers | src/hooks/useAudioPlayer.ts:130-134 | a player pauses only when another one is active and it is playing |
| AudioPlayer.LoadStartsTrack | src/hooks/useAudioPlayer.ts:68-78 | loading a track that exists sets the element's source to its address, tells it to play, makes this player active and resets time, duration and error while marking it loading; mode, volume, mute and the store's memory are untouched |
| AudioPlayer.LoadMissingTrack | src/hooks/useAudioPlayer.ts:71 | loading a missing track, or before the element exists, changes nothing |
| AudioPlayer.EndedPicksTrack | src/hooks/useAudioPlayer.ts:92-107 | at the end of a track playback stops when there are no tracks, and otherwise the track the mode picks is loaded, the same one in loop mode |
| AudioPlayer.NextThenPrev | src/hooks/useAudioPlayer.ts:160-180 | outside random mode the previous-track button undoes the next-track button |
| AudioPlayer.NoTracksNoSteps | src/hooks/useAudioPlayer.ts:139-172 | with no tracks play, next and previous do nothing |
| AudioPlayer.PlayResumes | src/hooks/useAudioPlayer.ts:141-146 | resuming an element that has a source only tells it to play and marks this player active |
| AudioPlayer.TogglePlayFlips | src/hooks/useAudioPlayer.ts:155-158 | toggling pauses a playing player and starts a stopped one |
| AudioPlayer.VolumeClampedAndStored | src/hooks/useAudioPlayer.ts:190-195 | the volume is clamped into [0, 1], given to the element and stored, and the player is muted exactly when the request is at or below 0 |
| AudioPlayer.ToggleMuteTwice | src/hooks/useAudioPlayer.ts:197-203 | muting flips the flag on the state and the element, twice is no change, and without an element nothing happens |
| AudioPlayer.ErrorClearedByPlaying | src/hooks/useAudioPlayer.ts:88-91 | a failed load stops with its message and the next playing event clears it |
| AudioPlayer.OnlyOthersPause | src/hooks/useAudioPlayer.ts:130-134 | only another player's start pauses this one, and only while it plays |
| AudioPlayer.Hook.constructor | src/hooks/useAudioPlayer.ts:33-53 | first track, stopped, nothing loaded, mode and volume from the store, no element yet |
| AudioPlayer.Hook.SetTracks | src/hooks/useAudioPlayer.ts:39-40 | a re-render replaces the tracks and keeps the state and element |
| AudioPlayer.Hook.Mount | src/hooks/useAudioPlayer.ts:56-66 | mounting creates the element at the stored volume |
| AudioPlayer.Hook.Unmount | src/hooks/useAudioPlayer.ts:61-65 | unmounting pauses, clears and drops the element |
| AudioPlayer.Hook.LoadAndPlay | src/hooks/useAudioPlayer.ts:68-78 | the new state, element and active player are those of the load step |
| AudioPlayer.Hook.OnTimeUpdate | src/hooks/useAudioPlayer.ts:86 | the position follows the element |
| AudioPlayer.Hook.OnDurationChange | src/hooks/useAudioPlayer.ts:87 | the duration follows the element, an unknown one read as 0 |
| AudioPlayer.Hook.OnPlaying | src/hooks/useAudioPlayer.ts:88 | playing, not loading, no error |
| AudioPlayer.Hook.OnPause | src/hooks/useAudioPlayer.ts:89 | not playing, nothing else changed |
| AudioPlayer.Hook.OnWaiting | src/hooks/useAudioPlayer.ts:90 | loading, nothing else changed |
| AudioPlayer.Hook.OnError | src/hooks/useAudioPlayer.ts:91 | stopped, not loading, with the load error |
| AudioPlayer.Hook.OnEnded | src/hooks/useAudioPlayer.ts:92-108 | the end step: the mode's next track is loaded, or playback stops without tracks |
| AudioPlayer.Hook.Pause | src/hooks/useAudioPlayer.ts:151-153 | the element is told to pause |
| AudioPlayer.Hook.PauseForOthers | src/hooks/useAudioPlayer.ts:130-134 | the element is told to pause when another player is active and this one plays |
| AudioPlayer.Hook.Play | src/hooks/useAudioPlayer.ts:136-149 | a given index or a missing source loads the track, else the element resumes and this player becomes active |
| AudioPlayer.Hook.TogglePlay | src/hooks/useAudioPlayer.ts:155-158 | pause when playing, play otherwise |
| AudioPlayer.Hook.NextTrack | src/hooks/useAudioPlayer.ts:160-169 | loads the track next picks |
| AudioPlayer.Hook.PrevTrack | src/hooks/useAudioPlayer.ts:171-180 | loads the track previous picks |
| AudioPlayer.Hook.Seek | src/hooks/useAudioPlayer.ts:182-188 | with an element the position moves to the time on both element and state |
| AudioPlayer.Hook.SetVolume | src/hooks/useAudioPlayer.ts:190-195 | the clamped volume goes to the element, the store and the state |
| AudioPlayer.Hook.ToggleMute | src/hooks/useAudioPlayer.ts:197-203 | the mute flag flips on the element and the state |
| AudioPlayer.Hook.SetMode | src/hooks/useAudioPlayer.ts:205-208 | the mode is stored and set |
| VideoPlayer.LoadStartsTrack | src/hooks/useVideoPlayer.ts:62-72 | loading a track that exists sets the element's source to its address, tells it to play, makes this player active and resets time and duration while marking it loading; mode, volume, mute and the store's memory are untouched |
| VideoPlayer.LoadMissingTrack | src/hooks/useVideoPlayer.ts:65 | loading a missing track, or before the element exists, changes nothing |
| VideoPlayer.EndedPicksTrack | src/hooks/useVideoPlayer.ts:86-101 | at the end of a track playback stops when there are no tracks, and otherwise the track the mode picks is loaded, the same one in loop mode |
| VideoPlayer.NextThenPrev | src/hooks/useVideoPlayer.ts:153-173 | outside random mode the previous-track button undoes the next-track button |
| VideoPlayer.NoTracksNoSteps | src/hooks/useVideoPlayer.ts:132-165 | with no tracks play, next and previous do nothing |
| VideoPlayer.PlayResumes | src/hooks/useVideoPlayer.ts:134-139 | resuming an element that has a source only tells it to play and marks this player active |
| VideoPlayer.TogglePlayFlips | src/hooks/useVideoPlayer.ts:148-151 | toggling pauses a playing player and starts a stopped one |
| VideoPlayer.VolumeClampedAndStored | src/hooks/useVideoPlayer.ts:186-194 | the volume is clamped into [0, 1], given to the element and stored, and the player is muted exactly when the request is at or below 0 |
| VideoPlayer.ToggleMuteTwice | src/hooks/useVideoPlayer.ts:196-202 | muting flips the flag on the state and the element, twice is no change, and without an element nothing happens |
| VideoPlayer.ErrorOnlyStops | src/hooks/useVideoPlayer.ts:82-85 | a failed load only stops playing and loading, keeping the track, its position and the element; the next playing event plays again |
| VideoPlayer.OnlyOthersPause | src/hooks/useVideoPlayer.ts:123-127 | only another player's start pauses this one, and only while it plays |
| VideoPlayer.Hook.constructor | src/hooks/useVideoPlayer.ts:35-52 | first track, stopped, nothing loaded, mode and volume from the store, no element yet |
| VideoPlayer.Hook.SetTracks | src/hooks/useVideoPlayer.ts:39-40 | a re-render replaces the tracks and keeps the state and element |
| VideoPlayer.Hook.Mount | src/hooks/useVideoPlayer.ts:55-60 | the rendered element becomes the player's at the stored volume |
| VideoPlayer.Hook.Unmount | src/hooks/useVideoPlayer.ts:111-120 | unmounting drops the element |
| VideoPlayer.Hook.LoadAndPlay | src/hooks/useVideoPlayer.ts:62-72 | the new state, element and active player are those of the load step |
| VideoPlayer.Hook.OnTimeUpdate | src/hooks/useVideoPlayer.ts:80 | the position follows the element |
| VideoPlayer.Hook.OnDurationChange | src/hooks/useVideoPlayer.ts:81 | the duration follows the element, an unknown one read as 0 |
| VideoPlayer.Hook.OnPlaying | src/hooks/useVideoPlayer.ts:82 | playing and not loading |
| VideoPlayer.Hook.OnPause | src/hooks/useVideoPlayer.ts:83 | not playing, nothing else changed |
| VideoPlayer.Hook.OnWaiting | src/hooks/useVideoPlayer.ts:84 | loading, nothing else changed |
| VideoPlayer.Hook.OnError | src/hooks/useVideoPlayer.ts:85 | stopped and not loading |
| VideoPlayer.Hook.OnEnded | src/hooks/useVideoPlayer.ts:86-101 | the end step: the mode's next track is loaded, or playback stops without tracks |
| VideoPlayer.Hook.Pause | src/hooks/useVideoPlayer.ts:144-146 | the element is told to pause |
| VideoPlayer.Hook.PauseForOthers | src/hooks/useVideoPlayer.ts:123-127 | the element is told to pause when another player is active and this one plays |
| VideoPlayer.Hook.Play | src/hooks/useVideoPlayer.ts:129-142 | a given index or a missing source loads the track, else the element resumes and this player becomes active |
| VideoPlayer.Hook.TogglePlay | src/hooks/useVideoPlayer.ts:148-151 | pause when playing, play otherwise |
| VideoPlayer.Hook.NextTrack | src/hooks/useVideoPlayer.ts:153-162 | loads the track next picks |
| VideoPlayer.Hook.PrevTrack | src/hooks/useVideoPlayer.ts:164-173 | loads the track previous picks |
| VideoPlayer.Hook.Seek | src/hooks/useVideoPlayer.ts:175-184 | with an element the position moves to the time on both element and state |
| VideoPlayer.Hook.SetVolume | src/hooks/useVideoPlayer.ts:186-194 | the clamped volume goes to the element, the store and the state |
| VideoPlayer.Hook.ToggleMute | src/hooks/useVideoPlayer.ts:196-202 | the mute flag flips on the element and the state |
| VideoPlayer.Hook.SetMode | src/hooks/useVideoPlayer.ts:204-207 | the mode is stored and set |
| MediaControls.ModeIndex | src/components/markdown/shared/MediaControls.tsx:80 | the position of the mode in the cycle, and -1 exactly when it is not there |
| MediaControls.CycleMode | src/components/markdown/shared/MediaControls.tsx:79-82 | the next mode is always one of the cycle |
| MediaControls.CycleOrder | src/components/markdown/shared/MediaControls.tsx:79-82 | order goes to random, random to loop, loop to order, and an unknown mode to order |
| MediaControls.CycleThrice | src/components/markdown/shared/MediaControls.tsx:44-82 | three presses bring a mode of the cycle back |
| MediaControls.GetVolumeIcon | src/components/markdown/shared/MediaControls.tsx:46-50 | mute icon exactly when muted or silent, down below half volume, up from half volume |
| MediaControls.VolumeIconMonotone | src/components/markdown/shared/MediaControls.tsx:46-50 | a louder volume never shows a quieter icon |
| MediaControls.SliderValue | src/components/markdown/shared/MediaControls.tsx:133 | the slider shows 0 while muted and the volume otherwise |
| MediaControls.SliderAtZeroIffMuteIcon | src/components/markdown/shared/MediaControls.tsx:125-133 | the slider sits at 0 exactly when the mute icon shows |
| MediaControls.KeySeek | src/components/markdown/shared/MediaControls.tsx:149-152 | the arrow keys seek five seconds on or back, not past the duration or 0; other keys do nothing |
| MediaControls.KeySeekWithinTrack | src/components/markdown/shared/MediaControls.tsx:149-152 | from a time inside the track a key seek stays inside it, moves at most five seconds and in the key's direction |
| MediaControls.Progress | src/components/markdown/shared/MediaControls.tsx:71 | the bar is empty while the duration is not known |
| MediaControls.ProgressBounded | src/components/markdown/shared/MediaControls.tsx:71 | within the track the bar lies between 0 and 100 percent |
| MediaControls.ClickSeekWithinTrack | src/components/markdown/shared/MediaControls.tsx:73-77 | a click on the bar seeks between 0 and the duration |
| MediaControls.ShownButtons | src/components/markdown/shared/MediaControls.tsx:67-68 | each group follows its switch and shows when the switch is not given; previous and next go together |
| VideoControls.VideoButtons | src/components/markdown/video-player/VideoControls.tsx:99-127 | the mode button and both track buttons all show exactly when `showTrackButtons` is set |
| VideoControls.SharedWithOneSwitch | src/components/markdown/video-player/VideoControls.tsx:99-127 | the video buttons are the shared controls' buttons with both switches set to the one flag |
| VideoControls.Fullscreen | src/components/markdown/video-player/VideoControls.tsx:86-94 | nothing without the element, leave fullscreen when something is fullscreen, enter it otherwise |
| PostLists.Swapped | src/components/post/RandomPostList.tsx:19 | the two positions trade elements and every other position keeps its own |
| PostLists.SwappedMultiset | src/components/post/RandomPostList.tsx:19 | a swap keeps the same elements |
| PostLists.ApplySwaps | src/components/post/RandomPostList.tsx:17-20 | making swaps in order keeps the length |
| PostLists.ApplySwapsPermutes | src/components/post/RandomPostList.tsx:15-22 | whatever positions are exchanged, the result holds the same elements as the input |
| PostLists.ShuffleArray | src/components/post/RandomPostList.tsx:15-22 | the result is a fresh permutation of the input, made by one swap per position from the last down to 1, each with a position at or below it; the input is unchanged |
| PostLists.SelectionBounds | src/components/post/RandomPostList.tsx:28 | a selection holds only posts of the list, never more often than the list has them, and `count` of them when the list has that many |
| PostLists.SliceTo | src/components/post/RandomPostList.tsx:28 | a prefix of the list, as long as `count` allows, a negative count leaving that many off the end |
| PostLists.RandomPostList.constructor | src/components/post/RandomPostList.tsx:24-25 | nothing selected yet |
| PostLists.RandomPostList.Select | src/components/post/RandomPostList.tsx:27-30 | the shown posts are the first `count` of a shuffle of the posts |
| PostLists.RandomPostList.Render | src/components/post/RandomPostList.tsx:33-72 | a skeleton of `count` rows numbered from 1 while nothing is selected, otherwise the selected posts numbered from 1 under the random heading |
| PostLists.RandomPostList.SelectWithoutPosts | src/components/post/RandomPostList.tsx:27-51 | with no posts only the skeleton is ever shown |
| PostLists.RelatedPostList.constructor | src/components/post/RelatedPostList.tsx:20-22 | related posts are shown from the start, otherwise nothing |
| PostLists.RelatedPostList.Select | src/components/post/RelatedPostList.tsx:24-29 | only without related posts and with fallback posts, the first `fallbackCount` of a shuffle of the fallback; otherwise nothing changes |
| PostLists.RelatedPostList.Render | src/components/post/RelatedPostList.tsx:31-77 | the skeleton numbered from 6 while the fallback is pending, nothing for an empty selection, else the posts numbered from 1 under the related heading or from 6 without one |
| PostLists.RelatedPostList.RenderRelated | src/components/post/RelatedPostList.tsx:21-68 | with related posts they are shown in their order under the heading and the fallback is never used |
| ModalStore.ViewsAgree | src/store/modal.ts:30-38 | the drawer and search are never open together, fullscreen data shows only for its own modal, and some modal is open exactly when one of the four is |
| ModalStore.Modals.constructor | src/store/modal.ts:27 | nothing is open at first |
| ModalStore.Modals.OpenModal | src/store/modal.ts:43-51 | the given modal and data replace whatever was open, and a real modal locks page scrolling when there is a document |
| ModalStore.Modals.CloseModal | src/store/modal.ts:56-61 | scrolling is unlocked when there is a document and no modal is open |
| ModalStore.Modals.ToggleModal | src/store/modal.ts:66-72 | the active modal closes, any other opens without data |
| ModalStore.Modals.ToggleTwiceFromClosed | src/store/modal.ts:66-72 | from a closed store, toggling one modal twice closes it again and unlocks scrolling |
| AstroConfig.AdapterPriority | astro.config.mjs:61-74 | Vercel exactly when `VERCEL` is `1`; otherwise Cloudflare when `CF_PAGES` is `1` or `CLOUDFLARE` is set; otherwise Netlify when `NETLIFY` is `true`; otherwise Node in standalone mode |
| AstroConfig.AdapterExactValues | astro.config.mjs:63-65 | only the exact values pick a platform, while any non-empty `CLOUDFLARE` picks Cloudflare, and Vercel wins over Netlify |
| AstroConfig.SnowfallResolveId | astro.config.mjs:105-111 | the snowfall plugin only ever resolves to the virtual module's `\0` id |
| AstroConfig.SnowfallRedirect | astro.config.mjs:97-118 | the canvas alias is redirected exactly when snowfall is off, the virtual id always resolves, other ids are left alone, and whatever resolves loads the stand-in |
| AstroConfig.SnowfallOffByDefault | astro.config.mjs:100-101 | without a `christmas` section or its `features.snowfall` there is no snowfall |
| AstroConfig.LoadCmsEnabled | astro.config.mjs:38-43 | a missing `cms.yaml` or an empty one reads as disabled |
| AstroConfig.CmsResolveId | astro.config.mjs:144-181 | the CMS plugin only ever resolves to one of its three `\0` ids |
| AstroConfig.ResolvedIdsLoad | astro.config.mjs:182-225 | every id the plugin resolves is one it loads, and the components stand-in's default export is one of its exports |
| AstroConfig.VirtualIdsAlwaysResolve | astro.config.mjs:145-147 | the three virtual ids resolve whether the CMS is on or off |
| AstroConfig.EnabledLeavesOthers | astro.config.mjs:149-180 | with the CMS on every other id is left alone |
| AstroConfig.DisabledRedirects | astro.config.mjs:150-180 | with the CMS off, components win over the library, then `@blocknote` ids go to the stylesheet stand-in when they end in `.css` and to the components stand-in otherwise; every other id is left alone |
| AstroConfig.PathThroughCmsComponents | astro.config.mjs:152-157 | any path through a `components/cms` directory is redirected to the components stand-in when the CMS is off |
| AstroConfig.ConditionalCms.constructor | astro.config.mjs:126-134 | the plugin starts disabled with the CMS settings as loaded |
| AstroConfig.ConditionalCms.ConfigResolved | astro.config.mjs:139-143 | the CMS is on exactly in development or while serving, and when its settings enable it |
| AstroConfig.ProductionBuildDropsCms | astro.config.mjs:139-167 | a production build never keeps the CMS, and CMS components are redirected |
| AstroConfig.UmamiNeedsBoth | astro.config.mjs:284-293 | the analytics integration is included only when its switch is on and its id is non-empty |

## Left out

- File system, `tar`, `git`, `mkdtemp` and package reads are abstract:
  - the disk is a set of existing paths or a map from path to text;
  - an archive is its member list;
  - a scratch directory's random suffix is a parameter.
- `formatSize` (a `toFixed` on a floating-point size) and `getVersion` (a read of `package.json`) in `scripts/koharu/shared.tsx` are not modelled.
- The update command's reducer, effects and operations are not part of this model. It models the handler layer: the events dispatched, the calls of `onComplete`, the auto-exit and the release-notes request.
- These libraries are uninterpreted function parameters:
  - `yaml` and `js-yaml`;
  - gray-matter;
  - date-fns `format`, `parse` and `parseISO`;
  - zod schemas;
  - `generateSlug`;
  - `@lib/cms/validation`.

  Only the way the handlers combine them is proved.
- JavaScript truthiness of non-boolean YAML values is not modelled. Settings such as `cms.enabled`, `christmas.enabled` and `features.snowfall` are booleans that may be missing.
- Dictionaries and records are plain maps. Keys inherited from `Object.prototype` (`constructor`, `toString`) are not modelled.
- Times, durations, volumes and ratios are real numbers:
  - `NaN` durations are a missing value;
  - `getBoundingClientRect` gives a ratio parameter;
  - floating-point rounding is not modelled.
- `Math.random()` is a parameter in [0, 1), and in the shuffle a nondeterministic choice of the swap partner. Distributions are not modelled.
- AudioPlayer.Hook.OnEnded: the load that `onEnded` schedules with `queueMicrotask` runs straight after the handler. Events arriving in between are not modelled; VideoPlayer.Hook.OnEnded likewise.
- A media element's `play()` and `pause()` calls are recorded as the element's `told` flag. Playback itself arrives as the `playing` and `pause` events, which are separate methods.
- `src/store/player.ts` is not part of this model. Its active-player atom and its remembered mode and volume are fields of `PlayerState.PlayerStore`.
- `useLrcText` fetches the lyrics over the network and is not modelled; the lyric lines are an input.
- PlayerPreview.FindCurrentLrcIndex: `(lo + hi) >>> 1` is taken as plain halving. The two differ only for lists of more than 2^31 lines.
- PlayerPlaylist.RowsShowGlobalTracks: stated for groups whose start lies within the track list. With a negative `startIndex`, `slice` counts from the end while the row numbers count from the start (`PlayerPlaylist.Slice` models that slice).
- Common.FromCharCode: a lone surrogate code (`0xD800`–`0xDFFF` after reduction mod 2^16) cannot be held by a Dafny `char`, so it becomes U+FFFD.
- QuizParse: `innerHTML` is a plain serialisation of an abstract tree that keeps only the tag, the class list and the text. Other attributes, entities and void elements are not modelled.
- MarkdownSpoiler.ExtractClasses: `split(/\s+/)` is modelled by the maximal runs of non-space characters. The empty tokens `split` gives at the ends never start with `.`, so the classes are the same.
- VideoControls.Fullscreen: `document.fullscreenElement`, `requestFullscreen` and `exitFullscreen` are given as the action chosen. Their promises are not modelled.
- The named shortcuts of the modal store (`openDrawer`, `toggleSearch`, `openCodeFullscreen`, …, `src/store/modal.ts:75-87`) are `OpenModal`, `CloseModal` and `ToggleModal` with a fixed kind, so they have no members of their own. The fullscreen data comes from the `ui` store and is kept as text.
- `createTranslator` in `src/i18n/utils.ts` only closes `t` over a locale, so it has no member of its own.
- JSX and Ink rendering is not modelled: markup, class names and icons. The model keeps only what decides what is shown: skeleton or list, numbering, the highlighted line, and the buttons shown.
- `src/store/cms.ts` is not where EditButton's editor preference lives: `EditButton.tsx` imports `preferredEditor` and `setPreferredEditor` from that file, but the file does not define them. The model keeps the preference as a field of `CmsEditButton.EditButton`.
- ReplaceFirst: `Common.ReplaceFirst` inserts the replacement literally. JavaScript's `replace` with a string pattern expands `$&`, `$'`, `` $` `` and `$$` in the replacement; no replacement used here is expected to hold them.
- ReplaceAll: `Common.ReplaceAll` inserts the replacement literally, where `replaceAll` expands the same `$` patterns.
- Interpolate: `I18nUtils.Interpolate` inserts a parameter value literally. A value holding a `$` pattern is expanded by `replaceAll` in `src/i18n/utils.ts:45` (the value `$&` puts back the placeholder itself).
- T: `I18nUtils.T` interpolates through `Interpolate`, so `$` patterns in parameter values are taken literally.
- TryTranslate: `I18nUtils.TryTranslate` interpolates through `Interpolate` (`src/i18n/utils.ts:65`), so `$` patterns in parameter values are taken literally.
- FilledTemplate: `CmsEditorUrl.FilledTemplate` inserts the file path and line number literally. `replace` in `src/lib/cms/editor-url.ts:24` would expand a `$&`, `$'`, `` $` `` or `$$` that a file path contains.
- KoharuRestore.RestoreApp.RunDryRun / HandleConfirm / DryRunPreview: model the corrected preview, which drops the leading `./` of each listed member. The preview as written, which lists nothing for an archive the backup command made, is `KoharuRestore.DryRunAsWrittenMisses` (see "## Findings").
- CmsCreate.NewMappings / CategorySegments / Post: a `categoryMappings` that is an array or a string is treated like a missing one. In the source, `Object.entries`, `Object.keys` and `customMappings?.[cat]` index such a value, so an array `["note"]` adds the mapping `0: note` and sends category `0` to `note/`. The dialog always sends an object or nothing.
- CmsCreate.Post: the `409` test `fs.access` also succeeds when a directory exists at the target path. The disk model holds files, so only an existing file is a conflict.
- `CONTENT_DIR` is assumed to be `src/content/blog` (`CmsPath.ContentDir`). `create.ts`, `toggle-draft.ts` and `cms/src/api/write.ts` import it from modules that are not part of this model; `src/pages/api/cms/write.ts:20` defines that value.
- KoharuShared.LexLess: compares code points, where JavaScript's `sort()` compares UTF-16 code units. The two orders differ only for characters outside the Basic Multilingual Plane in archive names.

## Findings

| source | as written | input that shows it | evidently intended | confidence | as-written member | corrected member |
|---|---|---|---|---|---|---|
| scripts/koharu/restore.tsx:51-65 | the dry run compares the raw `tar -tzf` member names with the restore keys and drops only `./` itself; the backup packs with `tar -C <staging> .` (`scripts/koharu/backup.tsx:91`), so every member is listed as `./<path>` and matches no key | any archive the backup command made, e.g. one listing `./config/site.yaml` | strip the leading `./` before matching, so that the preview lists what apply would restore | not executed; medium (depends on the `tar` in use printing the `./` prefix, as GNU and BSD `tar` do for `-C dir .`) | KoharuRestore.DryRunAsWrittenMisses | KoharuRestore.DryRunPreviewsMembers |

## Where the code and its comments differ

The model follows the code in each of these cases:

- `parseCategoryInput` in `src/components/cms/FrontmatterEditor.tsx`:
  - Its doc comment gives `'工具, 笔记 > 前端'` as `['工具', ['笔记', '前端']]`.
  - The code gives `[['工具'], ['笔记', '前端']]`: once any part is a path, every part becomes one (`CmsFrontmatterEditor.MixedInputAllPaths`).
  - Category text therefore round-trips only for flat lists, or for lists with at least one multi-level path, and only for names containing neither `,` nor `>`.
- `localizedPath('/', 'en')` in `src/i18n/utils.ts`: the doc comment says `/en`, but the code gives `/en/` (`I18nUtils.LocalizedRoot`).
