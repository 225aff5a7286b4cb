# Media library consolidation and Radarr import cleanup, modelled in Dafny

This project models two media-library scripts and proves properties of the model.

**The TV consolidator (`tvconsolidator.py`).** It scans several storage roots
for series folders and groups them by a normalised series name. Inside each
folder it finds the canonical episode files, their companions and the
leftover artifacts, and adds up what each root holds. Series found on more
than one root are then consolidated:

- a series is skipped when two copies of one episode differ in size;
- the target root is the one holding the most of the series that still keeps
  `MIN_FREE_BUFFER` (100 GiB) free after the import;
- every missing episode is moved onto the target, together with its companions;
- redundant copies are deleted;
- artifacts are merged into the target folder;
- the source folders are cleaned of junk files and empty directories.

A dry run runs the same checks against the unchanged filesystem and changes nothing (`Consolidation.DryRunChangesNothing`). Since nothing moves, its later checks can decide differently from an execute run: a source folder still holds its episodes, so no `rmdir` is announced, and later series see the free space and the existing files of the unchanged disks.

**The Radarr import tool (`radarr-proper-import.py`).** The model covers its
filesystem-facing core:

- the title sanitiser and the display-path shortener;
- the cleanup of a source folder after an import: small NFO and junk files
  only, never videos or large files;
- the renaming of subtitles and extras after the largest movie file in a
  destination folder;
- the walk over the search roots that sorts movie folders into import,
  relink and rename candidates, unidentified folders and anomalies.

**How the filesystem is modelled.** It is a value `FsState`: a map from file
paths to sizes and a set of directories. Each path is on a root (a volume).
The class `Volumes.FileSystem` holds this state in fields. The methods that
change the filesystem take that class, and each one is proved to leave
exactly the state its specification function computes:

- `safe_move`, `force_move` and `safe_delete`;
- the cleaners;
- the per-series consolidation;
- the Radarr cleanup and renaming.

The properties are proved about those specification functions.

**Inputs the model takes as parameters.** The scripts get these facts from
the operating system or from Radarr, so the model receives them from outside:

- directory listings and `os.walk` orders;
- free space per root;
- whether an NFO file is XML;
- the sizes of directories;
- the Radarr parse result, database and rename check.

**Details of the code that the model keeps:**

- Companions of a moved episode go through `force_move`, which overwrites.
  They are not safe-transferred.
- The junk-name test lower-cases the file name.
- `if not target_disk` also rejects a root given as the empty string.
- Only the last folder name recorded for a root is cleaned
  (`disks[root]['real_folder']` is overwritten).
- The ignore term `@eaDir` is compared against lower-cased names, so it never
  matches. The walk, the movie-file test and the main-video search use these
  tests as written; the corrected tests are stated beside them (see Findings).
- The loop that attaches non-matching files starting with the episode's
  prefix (tvconsolidator.py:282-291) never attaches anything. The prefix
  `filename[:match_end]` ends with the whole `SxxEyy` match, so a file that
  starts with it matches the pattern and is never among `unmatched_files`.
  Such a file, a subtitle `Show.S01E01.en.srt` say, joins the slot's group
  and is attached as a smaller match instead. The model keeps the loop as
  written and proves that it adds nothing.

## Model

| member | source | states |
|---|---|---|
| Names.NormalizeNameIsNormal | tvconsolidator.py:55-64 | The normalised name is trimmed and single-spaced, has no dot, underscore or capital letter. |
| Names.NormalizeNameIdempotent | tvconsolidator.py:55-64 | Normalising a normalised name changes nothing. |
| Names.NormalizeNameInsensitive | tvconsolidator.py:55-64 | Two names that agree up to letter case and `.`/`_`/space substitution normalise to the same key. |
| Names.NormalizeNameByFold | tvconsolidator.py:55-64 | Normalising equals folding each character (case and `.`/`_` to space) first, then stripping and collapsing white space. |
| Text.SplitExt | tvconsolidator.py:92 | `os.path.splitext`: the stem and extension concatenate back to the path; the extension is empty or a dot followed by no dot or slash. |
| Text.Basename | tvconsolidator.py:92 | `os.path.basename`: the result ends the path and has no slash. |
| Pattern.Search | tvconsolidator.py:50 | `PATTERN.search`: a result is the leftmost match of `S<digits>E<digits>` ignoring case, with the greedy digit runs; no result means no match anywhere. |
| Pattern.SearchFrom | tvconsolidator.py:249-252 | The first match at or after a position, or no match from there on. |
| Pattern.DigitRun | tvconsolidator.py:50 | A greedy `\d+` run: all digits and followed by a non-digit or the end. |
| Pattern.SearchKept | tvconsolidator.py:50 | A string that starts with a name up to the end of the name's match matches at the same place. |
| Inventory.GetFileInfo | tvconsolidator.py:74-79 | `get_file_info`: the size of an existing file, and -1 exactly when the file does not exist. |
| Sorting.SortDescCorrect | tvconsolidator.py:267 | Sorting by size descending yields a sorted permutation of the group. |
| Sorting.SortDescStable | tvconsolidator.py:267 | The sort is stable: equal-size entries keep their input order. |
| Sorting.SortDescHead | tvconsolidator.py:267-268 | The head of the sorted group is the first entry of largest size. |
| Sorting.FirstMax | tvconsolidator.py:268 | The index of the first largest entry: no entry is larger, every earlier one is smaller. |
| Lex.LexTotal | tvconsolidator.py:332 | The string order `sorted` uses is total. |
| Lex.LexTransitive | tvconsolidator.py:332 | The order is transitive. |
| Lex.LexAntisymmetric | tvconsolidator.py:332 | The order is antisymmetric. |
| Lex.SortedKeys | tvconsolidator.py:332 | `sorted(library.keys())`: exactly the keys, each once, in strictly increasing order. |
| Volumes.MakeDirs | tvconsolidator.py:99 | `os.makedirs(exist_ok=True)`: files unchanged, the directory exists afterwards, no directory is lost, and a well-formed state (every directory's ancestors exist) stays well formed. |
| Volumes.SafeMoveState | tvconsolidator.py:83-107 | A dry run, a missing source or an existing destination changes nothing; otherwise the file moves to `dest/basename` with its size and nothing is overwritten. |
| Volumes.ForceMoveState | tvconsolidator.py:109-133 | A dry run or a missing source changes nothing; otherwise the file lands at `dest/basename`, replacing what was there, and no other file changes. |
| Volumes.SafeDeleteState | tvconsolidator.py:135-147 | A dry run changes nothing; otherwise exactly the given file is gone. |
| Volumes.FileSystem.SafeMove | tvconsolidator.py:83-107 | Returns whether the move was possible and leaves `SafeMoveState`. |
| Volumes.FileSystem.ForceMove | tvconsolidator.py:109-133 | Returns whether the source existed and leaves `ForceMoveState`. |
| Volumes.FileSystem.SafeDelete | tvconsolidator.py:135-147 | Returns success and leaves `SafeDeleteState`. |
| Volumes.FileSystem.RemoveDirIfEmpty | tvconsolidator.py:172-179 | `os.rmdir` after `os.listdir` is empty: the directory is removed only when it holds no file and no subdirectory. |
| Volumes.FileSystem.Remove | radarr-proper-import.py:287 | `os.remove`: exactly the given file is gone. |
| Volumes.FileSystem.Move | radarr-proper-import.py:294 | `shutil.move` / `os.rename` of a file: the file is at its new path with the same size. |
| Cleaner.DeleteJunkFacts | tvconsolidator.py:157-167 | Deleting a directory's junk removes only junk-named files of that directory, no directory, and nothing in a dry run. |
| Cleaner.CleanDirFacts | tvconsolidator.py:157-182 | One walked directory: only junk files under the folder go, and a directory goes only when all its files were junk and it is then empty. |
| Cleaner.CleanStepsFacts | tvconsolidator.py:149-182 | The bottom-up walk only removes junk files under the folder, removes only walked directories that were empty, and keeps a dry run a no-op. |
| Cleaner.CleanupKeepsDirsWithRealFiles | tvconsolidator.py:149-182 | A non-junk file and the directory holding it both survive the cleanup, in simulate and apply mode. |
| Cleaner.DeleteJunkIn | tvconsolidator.py:159-167 | The file loop leaves `DeleteJunk` and reports the directory empty exactly when every file was junk. |
| Cleaner.CleanupFolderTree | tvconsolidator.py:149-182 | `cleanup_folder_tree` leaves exactly the state `CleanupState` computes. |
| Classify.CandOf | tvconsolidator.py:249-257 | A matching file's record: its path under the directory and the match end within the name. |
| Classify.MembersFacts | tvconsolidator.py:248-257 | Each (season, episode) group holds the listed files matching that key, once each. |
| Classify.UnmatchedFacts | tvconsolidator.py:258-259 | The unmatched list holds the listed names without a match, without repeats. |
| Classify.GroupedOk | tvconsolidator.py:245-259 | Grouping puts every matching file into the group of its key, with distinct keys. |
| Classify.GroupMatches | tvconsolidator.py:245-259 | The grouping loop computes `Grouped` and `UnmatchedOf`. |
| Classify.SortedMembers | tvconsolidator.py:267-268 | The sorted group starts with the first largest member and holds the same distinct files. |
| Classify.ClaimSmaller | tvconsolidator.py:276-280 | Every smaller file of the group becomes a companion in order; the total is their size sum; they are claimed. |
| Classify.ClaimPrefixed | tvconsolidator.py:282-291 | The prefix loop as written: for a given list of names, exactly the unclaimed ones that start with the prefix become companions, once each, with their sizes, and are claimed. Over the directory's non-matching names it adds nothing (`NoUnmatchedPrefixed`). |
| Classify.BuildCopy | tvconsolidator.py:270-297 | The copy headed by the largest file: the other files of the group in order, then whatever the prefix loop adds (nothing, for the directory's non-matching names); its total is the sum of all sizes; names are distinct and were not claimed before, and afterwards exactly they are added to the claimed set. |
| Classify.ClaimGroup | tvconsolidator.py:266-301 | A copy exists exactly when the largest file exceeds `MIN_VIDEO_SIZE`; it lists the largest, the smaller matches and whatever the prefix loop adds, with distinct unclaimed names. |
| Classify.ClaimEpisodes | tvconsolidator.py:264-305 | The loop over groups finds one copy per qualifying key and claims exactly their files. |
| Classify.ArtifactsSound | tvconsolidator.py:306-315 | Every artifact is a listed, unclaimed, non-hidden file of the directory with its size. |
| Classify.ArtifactsComplete | tvconsolidator.py:306-315 | Every listed, unclaimed, non-hidden file is an artifact. |
| Classify.ArtifactsDistinct | tvconsolidator.py:306-315 | No artifact is listed twice. |
| Classify.CollectArtifacts | tvconsolidator.py:306-315 | The artifact loop computes `ArtifactsOf`. |
| Classify.ClassifyDirectory | tvconsolidator.py:244-315 | One walked directory: every copy is well formed, keys are distinct, a key has a copy exactly when its largest file exceeds `MIN_VIDEO_SIZE`, no file is claimed twice, and the artifacts are exactly the unclaimed, non-hidden files. |
| Classify.PrefixMatches | tvconsolidator.py:282-283 | A name that starts with a matching file's name up to `match.end()` matches the pattern as well. |
| Classify.NoUnmatchedPrefixed | tvconsolidator.py:247-291 | No name of `unmatched_files` starts with a candidate's prefix, so the prefix loop never adds a companion. |
| Classify.FoundCompanions | tvconsolidator.py:266-297 | The companions of every copy found in a directory are exactly the other matching files of its slot, largest first. |
| Scanner.Credit | tvconsolidator.py:304 | Adding to a root's total keeps the roots and folder names. |
| Scanner.CreditBalanced | tvconsolidator.py:304 | Crediting what was added keeps every root's total equal to what the series holds there. |
| Scanner.WithCopyOk | tvconsolidator.py:301-304 | Recording a copy and crediting its aggregate size keeps the group well formed and balanced. |
| Scanner.WithArtifactOk | tvconsolidator.py:312-315 | Recording an artifact and crediting its size keeps the group well formed and balanced. |
| Scanner.WithFolderOk | tvconsolidator.py:233-236 | Recording a folder sets that root's folder name and keeps every known root. |
| Scanner.WithFolderNamed | tvconsolidator.py:233-236 | After recording a folder, the display name and every folder name normalise to the key. |
| Scanner.ScanDirectory | tvconsolidator.py:244-315 | The group becomes the old group with the directory's copies and artifacts added (`AddDir`), where these are the directory classified as in `ClassifyDirectory`; it stays well formed, with the same roots. |
| Scanner.ScanWalk | tvconsolidator.py:239-315 | The group becomes the old group with every directory of the walk added in walk order, each classified as in `ClassifyDirectory`; it stays well formed. |
| Scanner.ScanSeries | tvconsolidator.py:225-315 | One series folder: the group becomes the old group with this folder recorded on this root and its walk added (`AddSeries`); it stays well formed and named for its key. |
| Scanner.Get | tvconsolidator.py:202-207 | A missing key reads as the empty default group. |
| Scanner.GetOk | tvconsolidator.py:230 | A group read from a well-formed library is well formed and named for its key. |
| Scanner.PutOk | tvconsolidator.py:230 | Storing a well-formed group named for its key keeps the library well formed. |
| Scanner.ScanFolder | tvconsolidator.py:225-315 | The library becomes the old library with the folder's group replaced by `AddSeries` of it; it stays well formed, records the folder's key on the root, and keeps every earlier record. |
| Scanner.ScanRoot | tvconsolidator.py:219-315 | The library becomes the old library with every listed folder added in listing order (`AddFolders`), each walk classified; every folder is recorded under its normalised key. |
| Scanner.ScanLibrary | tvconsolidator.py:186-317 | `scan_library`: the library is exactly what adding every classified directory of every listed folder, root by root, produces (`AddRoots`); it is well formed, and every folder of every readable root is recorded on that root under its normalised name. |
| Scanner.AddDirHolds | tvconsolidator.py:296-315 | After a directory is added, the group holds each of its copies in its slot and each of its artifacts, and everything it held before. |
| Scanner.AddWalkHolds | tvconsolidator.py:239-315 | After a walk is added, the group holds what every directory of the walk contributed, and everything it held before. |
| Scanner.AddRootsHolds | tvconsolidator.py:186-317 | The library built by the scan holds, under the key of every listed folder, each episode copy and artifact of that folder's classified directories, and loses nothing it held before. |
| Planning.ConflictBySizes | tvconsolidator.py:350-355 | More than one copy with more than one distinct size is exactly two copies of different sizes. |
| Planning.HasConflict | tvconsolidator.py:349-355 | The conflict loop returns true exactly when some episode has copies of different sizes. |
| Planning.NeededPlusShare | tvconsolidator.py:374-384 | The bytes to import onto a root plus what the root already holds is the whole series. |
| Planning.LargestNeedsLeast | tvconsolidator.py:366-384 | A root holding more of the series needs no more bytes imported. |
| Planning.BytesNeeded | tvconsolidator.py:374-384 | The loop computes the bytes of every episode missing from the root and every artifact on another root. |
| Planning.FirstFit | tvconsolidator.py:372-392 | The first candidate that keeps strictly more than `MIN_FREE_BUFFER` free, or none when no candidate does. |
| Planning.SelectTarget | tvconsolidator.py:372-392 | The candidate loop returns `FirstFit`. |
| Planning.TargetIsLargestFitting | tvconsolidator.py:366-392 | The chosen root is a root of the series, and no root that fits holds more of the series; no choice means no root fits. |
| Consolidation.Target | tvconsolidator.py:363-398 | A chosen target is a non-empty root of the series that keeps enough free space. |
| Consolidation.SkipMessages | tvconsolidator.py:341-398 | A series on one root is passed over silently; the conflict message appears exactly for a multi-root series with a conflict; the no-space message exactly when there is no fitting target; a skipped series changes nothing. |
| Consolidation.SeriesDry | tvconsolidator.py:400-448 | A dry run of one series changes no file. |
| Consolidation.DryRunChangesNothing | tvconsolidator.py:319-450 | A dry run of the whole consolidation leaves the filesystem as it was. |
| Consolidation.LogLines | tvconsolidator.py:330-398 | Every log line is a skip message of a multi-root series in the library, and at most one line per series. |
| Consolidation.LogGrows | tvconsolidator.py:330-398 | Log messages are only appended. |
| Consolidation.ConflictsReported | tvconsolidator.py:349-361 | Every multi-root series with conflicting copies is reported as skipped for conflicting duplicates. |
| Consolidation.ConsolidateSeries | tvconsolidator.py:333-448 | One series leaves the state and message `SeriesStep` computes. |
| Consolidation.ProcessConsolidation | tvconsolidator.py:319-450 | `process_consolidation` leaves the state and skip log `Consolidate` computes. |
| Gather.OnTarget | tvconsolidator.py:406 | The copies on the target root; empty exactly when no copy is there. |
| Gather.Others | tvconsolidator.py:407 | The copies on other roots; all copies when none is on the target. |
| Gather.TargetCopyKept | tvconsolidator.py:409-415 | When a copy is already on the target, nothing on the target root changes. |
| Gather.OthersDeleted | tvconsolidator.py:409-415 | When a copy is already on the target, in execute mode every copy on another root is deleted together with its companions. |
| Gather.DeleteCopiesRemoves | tvconsolidator.py:413-415 | Deleting a list of copies in execute mode removes each of them and all their companions, and creates no file. |
| Gather.EpisodeReachesTarget | tvconsolidator.py:416-424 | When no copy is on the target and the move is possible, the first other copy arrives at `target/rel_dir` with its size. |
| Gather.MoveCompletes | tvconsolidator.py:416-428 | When no copy is on the target and the move succeeds, the episode file and each companion that can arrive end up under `target/rel_dir` with their sizes, the episode is gone from its old place, and every other copy is deleted with its companions. |
| Gather.CompanionsArrive | tvconsolidator.py:423-424 | Each companion with a distinct name that can be moved into the destination arrives there with its size. |
| Gather.MoveCompanionsOnDest | tvconsolidator.py:423-424 | Moving companions creates files only on the destination root. |
| Gather.AbortedMoveChangesNothing | tvconsolidator.py:421-430 | When the safe move fails, nothing changes for that episode. |
| Gather.MoveCompanionsKeep | tvconsolidator.py:423-424 | Moving companions leaves every other file untouched. |
| Gather.DeleteCopiesOff | tvconsolidator.py:413-415 | Deleting copies on other roots changes nothing on the target root. |
| Gather.CleanupSourcesOff | tvconsolidator.py:438-448 | Cleaning the source folders changes nothing on the target root. |
| Gather.SlotsDry | tvconsolidator.py:405-430 | A dry run of the episode loop changes nothing. |
| Gather.ArtifactsDry | tvconsolidator.py:433-436 | A dry run of the artifact loop changes nothing. |
| Gather.ArtifactsArrive | tvconsolidator.py:433-436 | In execute mode an artifact on another root ends up under `target/rel_dir` with its size, unless a later artifact lands on the same path or a directory of its name is in the way. |
| Gather.ArtifactsKeep | tvconsolidator.py:433-436 | A file on the target root that no artifact move lands on keeps its size. |
| Gather.CleanupSourcesDry | tvconsolidator.py:438-448 | A dry run of the cleanup loop changes nothing. |
| Gather.DeleteCopyFiles | tvconsolidator.py:413-415 | Deleting one copy and its companions leaves `DeleteCopy`. |
| Gather.DeleteCopiesIn | tvconsolidator.py:426-428 | The redundant-copy loop leaves `DeleteCopies`. |
| Gather.MoveCompanionsIn | tvconsolidator.py:423-424 | The companion loop leaves `MoveCompanions`. |
| Gather.ReconcileSlot | tvconsolidator.py:405-430 | One episode leaves `SlotState`. |
| Gather.ReconcileSlots | tvconsolidator.py:405-430 | The episode loop leaves `SlotsState`. |
| Gather.MoveArtifacts | tvconsolidator.py:433-436 | The artifact loop leaves `ArtifactsState`. |
| Gather.CleanSources | tvconsolidator.py:440-448 | The source-cleanup loop leaves `CleanupSources`. |
| Sanitize.SanitizeShape | radarr-proper-import.py:162-176 | The sanitised title has no bracket, dot or underscore, is trimmed and single-spaced. |
| Sanitize.CutAtFirstTag | radarr-proper-import.py:168 | On a single line, the tag removal cuts the text at the first separator run followed by a release tag. |
| Sanitize.NoTagUnchanged | radarr-proper-import.py:168 | Text without a release tag is left as it is. |
| Sanitize.VideoExtDropped | radarr-proper-import.py:164-166 | A name ending in a video extension, in any letter case, is sanitised as its stem. |
| Sanitize.SanitizeVideo | radarr-proper-import.py:164-166 | When `splitext` splits off a video extension, only the stem is cleaned. |
| Sanitize.VideoExtShape | radarr-proper-import.py:52 | Every video extension is a dot followed by no dot and no slash. |
| Sanitize.RunEnd | radarr-proper-import.py:168 | The greedy run `[.\s\-(\[]+` ends at the first non-separator. |
| Text.IndexFrom | radarr-proper-import.py:168 | The first given character at or after a position, or the end: where `.*` stops at a newline, and where `split("/")` cuts. |
| Truncate.PyPrefix | radarr-proper-import.py:183 | Python's `s[:n]`, including a negative `n` counted from the end. |
| Truncate.SplitSlash | radarr-proper-import.py:181 | `split("/")`: at least one part, and the parts joined with `/` give back the string. |
| Truncate.SplitNoSlash | radarr-proper-import.py:181 | No part of a split holds a slash. |
| Truncate.SplitJoin | radarr-proper-import.py:181 | Splitting a join of slash-free parts gives the parts back. |
| Truncate.Shorten | radarr-proper-import.py:180 | A path that fits is returned unchanged. |
| Truncate.ShortenKeepsEnds | radarr-proper-import.py:178-188 | A long path becomes either the first two components, the marker and the last component, or `path[:max_len-3] + "..."`, which ends in "...", starts like the path and is exactly `max_len` long when `max_len >= 3`. |
| Truncate.AsWrittenBound | radarr-proper-import.py:178-188 | As written, the result is at most one character longer than `max_len`. |
| Truncate.AsWrittenOverflow | radarr-proper-import.py:185-188 | As written, a four-part path whose ends fit exactly comes out `max_len + 1` long. |
| Truncate.AsWrittenExample | radarr-proper-import.py:185-188 | `/aa/bb/cccccc/dd` truncated to 13 comes out 14 long. |
| Truncate.FixedFits | radarr-proper-import.py:178-188 | With the corrected marker, the result never exceeds `max_len`. |
| Media.EaDirNeverMentioned | radarr-proper-import.py:643 | As written, the term `@eaDir` is never found in a lower-cased name. |
| Media.EaDirNotPrunedAsWritten | radarr-proper-import.py:641 | As written, a folder named `@eaDir` is not pruned, although the term list names it. |
| Media.PrunedFixed | radarr-proper-import.py:641 | The corrected pruning test prunes `@eaDir` in any case and everything the test as written prunes. |
| Media.MentionsFixed | radarr-proper-import.py:643 | The corrected term test finds `@eaDir` in any case and everything the test as written finds. |
| SourceCleanup.FileAction | radarr-proper-import.py:261-312 | A listed name is acted on only when it is an existing small file that is not a video and is an NFO, junk or a sample; a scene NFO moves only to the free `.nfo-orig` target. |
| SourceCleanup.StepFacts | radarr-proper-import.py:261-312 | One pass changes only the listed file, creates no file but the NFO target, and removes no directory. |
| SourceCleanup.SweepFacts | radarr-proper-import.py:261-312 | The loop touches only small, disposable, listed files of the folder and creates only the NFO target. |
| SourceCleanup.CleanupFacts | radarr-proper-import.py:239-321 | A missing folder and a search root are left alone; files that are not eligible are kept; the only new file is the NFO target; only the source folder can be removed, and it is removed exactly when it is empty after the sweep. |
| SourceCleanup.NeverDeletesMediaOrLarge | radarr-proper-import.py:268-281 | A video file or a file over 100 MiB survives the cleanup with its size. |
| SourceCleanup.KeepsOthers | radarr-proper-import.py:259-264 | Files outside the folder or not listed survive. |
| SourceCleanup.JunkRemoved | radarr-proper-import.py:284-312 | Every listed, small, non-video XML NFO, junk file or sample in a non-root folder is removed. |
| SourceCleanup.SceneNfoPreserved | radarr-proper-import.py:289-296 | A scene NFO that is moved ends at `<stem>.nfo-orig` beside the movie, with its size. |
| SourceCleanup.SceneNfoReplaced | radarr-proper-import.py:289-300 | A listed scene NFO is deleted when the `.nfo-orig` target already exists as another path that the sweep does not remove. |
| SourceCleanup.IsSearchRoot | radarr-proper-import.py:246-250 | The loop over the search paths finds the folder exactly when it is a search root. |
| SourceCleanup.ProcessName | radarr-proper-import.py:262-312 | One loop pass leaves `Step`. |
| SourceCleanup.CleanupSourceFolder | radarr-proper-import.py:239-321 | `cleanup_source_folder` leaves exactly `Cleanup`. |
| Extras.PickFromCorrect | radarr-proper-import.py:330-336 | The running maximum is the first strictly largest movie file; it has a result exactly when every size can be read. |
| Extras.PickStep | radarr-proper-import.py:333-336 | One step of the running maximum keeps it the first largest so far. |
| Extras.MainVideoCorrect | radarr-proper-import.py:327-338 | The main video is the first strictly largest movie file of positive size, and none when there is none; the search fails (raises) exactly when a movie file's size cannot be read. |
| Extras.FindMainVideo | radarr-proper-import.py:327-338 | The loop computes `MainVideo`. |
| Extras.FirstSuffix | radarr-proper-import.py:353 | The leftmost position where the suffix pattern matches up to the end of the stem, or none. |
| Extras.NewNameShape | radarr-proper-import.py:351-362 | The new name starts with the video stem and keeps the extension, with `.<suffix>` between them when the pattern matched. |
| Extras.RenameStepFacts | radarr-proper-import.py:344-370 | One pass renames only an extra that needs it, to a free name starting with the video stem, and changes nothing else. |
| Extras.RenameAllFacts | radarr-proper-import.py:344-370 | The loop keeps the number of files and all sizes, overwrites nothing, and each new name in the folder comes from a listed extra via `NewName`. |
| Extras.ExtraRenamed | radarr-proper-import.py:344-370 | The first listed existing extra of a new name that is free at the start is renamed to it with its size, and its old name is gone; every later listed extra with the same new name keeps its old name and size, because the name now exists. |
| Extras.BlockedStays | radarr-proper-import.py:364-369 | An extra whose new name is already taken keeps its old name and size through the rest of the loop. |
| Extras.MoveKeepsCount | radarr-proper-import.py:368-369 | Renaming onto a free name keeps the number of files. |
| Extras.RenameExtrasFacts | radarr-proper-import.py:323-370 | `manual_rename_extras_destination` keeps directories, file count and sizes, and only renames listed files of the folder into the folder. |
| Extras.ExtrasRenamed | radarr-proper-import.py:323-370 | With a main video, the first listed existing extra of each free new name after the video's stem takes it with its size, and later extras with that name keep theirs. |
| Extras.NoMainVideoNoRename | radarr-proper-import.py:327-338 | Without a movie file (by the term test as written) of positive size nothing is renamed, and the function fails only when the folder is a file. |
| Extras.RenameOne | radarr-proper-import.py:345-370 | One pass leaves `RenameStep`. |
| Extras.ManualRenameExtras | radarr-proper-import.py:323-370 | Leaves `RenameExtras`; when that raises, nothing has changed. |
| Candidates.WalkStaysClean | radarr-proper-import.py:639-641 | Every directory the walk visits lies under the root and passes through no folder the test as written prunes. |
| Candidates.WalkEntersEaDir | radarr-proper-import.py:639-641 | As written, the walk enters a folder named `@eaDir` and visits its files. |
| Candidates.Movies | radarr-proper-import.py:643 | The movie files of a folder are exactly its video files that mention no ignore term, with the term test as written. |
| Candidates.SingleMovie | radarr-proper-import.py:645-651 | The single movie file of a folder is one of its files and a movie file. |
| Candidates.TargetRoot | radarr-proper-import.py:654-660 | A target root is a search root whose path string is a prefix of the folder's. |
| Candidates.TargetIsWalkedRoot | radarr-proper-import.py:654-659 | A folder under a search root gets that root as its target: the two search paths are equally long and differ, so neither is a prefix of the other. |
| Candidates.WalkTargets | radarr-proper-import.py:633-659 | Every folder walked from a search root has that root as its target. |
| Candidates.Categorise | radarr-proper-import.py:680-698 | IMPORT exactly when the id is not in the database; RELINK exactly when it is there without a file; RENAME exactly when it has a file and Radarr wants a rename. |
| Candidates.AddCandidateOk | radarr-proper-import.py:680-698 | Adding a new, correctly categorised candidate keeps the scan invariant. |
| Candidates.ScanVisitOk | radarr-proper-import.py:639-706 | One folder keeps the invariant: candidates of the right kind with their database entry, no id twice, processed ids exactly the candidates' ids, movie files only, anomalies with more than one video. |
| Candidates.ScanVisitsOk | radarr-proper-import.py:639-706 | The walk over one root keeps the invariant. |
| Candidates.ScanRootsOk | radarr-proper-import.py:633-706 | The loop over the search roots keeps the invariant. |
| Candidates.ScanAllOk | radarr-proper-import.py:623-709 | The result of `scan_and_process` satisfies the invariant. |
| Candidates.FindTargetRoot | radarr-proper-import.py:654-659 | The loop over the search paths computes `TargetRoot`. |
| Candidates.ScanOne | radarr-proper-import.py:639-706 | The loop body for one folder computes `ScanVisit`. |
| Candidates.ScanAndProcess | radarr-proper-import.py:623-709 | The nested loops compute `ScanAll`. |

## Left out

- Console output, log formatting, `argparse`, `main`, the interactive lookup UI, the HTTP layer, and the import/rescan/rename/refresh calls to Radarr: I/O that decides nothing in the modelled core.
- `get_free_space` (tvconsolidator.py:66-72) is an input. It is a function of the filesystem state and the root, so each series sees the free space the series before it left.
- `is_xml_nfo` reads the file. The model takes its verdict as an input.
- `identify_file_auto`, `check_if_rename_needed` and the Radarr database map are inputs of the scan model.
- `os.listdir` and `os.walk` orders are inputs. The walk is a tree value, pruned with the code's test as written.
- Unexpected OS failures are not modelled: permission errors, a move across volumes failing half-way, or a file disappearing between a check and an action. Every primitive does what its guard promises. An exception that the code catches and ignores is modelled where the guard can see it, as in a move into a missing directory.
- Paths are normalised component sequences, so `os.path.normpath`, `os.path.abspath` and `os.path.relpath` are identities. Symbolic links are not modelled.
- Letter case and `\s` are ASCII only. Python's Unicode lower-casing and white-space classes are not modelled.
- The `display` field of a scan item (an f-string) is not modelled.
- `$` in the suffix regex of radarr-proper-import.py:353 also matches before a trailing newline. File names with a newline are not modelled.
- Extras.RenameExtras: an extra whose name is a directory is left in place. Renaming a directory with `os.rename` is not modelled.
- SourceCleanup.SceneNfoReplaced: stated for a target that is not itself a listed name of the source folder, since the sweep could delete such a target before the NFO's turn.
- Truncate.FixedFits: holds for `max_len >= 3`. Below that the fallback `path[:max_len-3] + "..."` can be longer than `max_len` in the code too.
- A file whose size cannot be read (other than a missing one) is not modelled; a listed name with no file is sized -1, as in the code, and carried into the later size comparisons.

## Findings

| source | as written | input that shows it | evidently intended | confidence | as-written member | corrected member |
|---|---|---|---|---|---|---|
| radarr-proper-import.py:185-188 | `f"{head}/.../{tail}"` puts the five-character marker `/.../` before a `tail` that starts with its own `/`, while the length check `len(head) + len(tail) + 4 > max_len` reserves only four characters for it | `smart_truncate_path("/aa/bb/cccccc/dd", 13)` returns `/aa/bb/...//dd`, 14 characters | the result never exceeds `max_len` | not executed | Truncate.AsWrittenOverflow | Truncate.FixedFits |
| radarr-proper-import.py:56, 641, 643 | `IGNORE_TERMS` holds `@eaDir`, but both tests compare terms against a lower-cased name, so this term never matches | a folder `@eaDir` holding `a.mkv` is walked into and `a.mkv` is taken for a movie | `@eaDir` folders and names are ignored | not executed | Media.EaDirNotPrunedAsWritten | Media.PrunedFixed |
