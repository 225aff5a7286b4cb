/** `process_consolidation(library, execute)`: every series of the
    inventory, in sorted key order, is gathered on one root. A series found
    on at most one root is passed over; one with conflicting duplicates, or
    for which no root has room, is skipped with a message; otherwise its
    slots, its artifacts and the folders on the other roots are dealt with.
    The result is the list of skip messages. `dryRun` is `not execute`. */
module Consolidation {
  import opened Optional
  import opened Volumes
  import opened Inventory
  import opened Cleaner
  import opened Scanner
  import opened Lex
  import opened Planning
  import opened Gather

  function ConflictMessage(name: string): string {
    "SKIPPED " + name + ": Conflicting duplicates (different sizes) found."
  }

  function NoSpaceMessage(name: string): string {
    "SKIPPED " + name + ": No candidate disk has enough free space."
  }

  /** The state after one series, and its skip message if any. */
  datatype Step = Step(st: FsState, msg: Option<string>)

  /** The target of a series, when it gets one: the first candidate that
      fits. A target whose root is the empty string counts as none, as the
      source tests `if not target_disk`. */
  function Target(g: SeriesGroup, st: FsState, free: (FsState, Root) -> int): (t: Option<DiskStat>)
    requires Stocked(g.slots)
    ensures t.Some? ==> t.value in g.disks && t.value.root != "" && Fits(g, t.value.root, st, free)
  {
    var cands := Candidates(g);
    var fit := FirstFit(cands, g, st, free);
    TargetIsLargestFitting(g, st, free);
    if fit.None? || cands[fit.value].root == "" then None else Some(cands[fit.value])
  }

  /** One series. */
  function SeriesStep(st: FsState, g: SeriesGroup, free: (FsState, Root) -> int,
                      walk: (FsState, DirPath) -> seq<WalkStep>, dryRun: bool): Step
    requires Stocked(g.slots)
  {
    if |g.disks| <= 1 then Step(st, None)
    else if HasBadDupe(g.slots) then Step(st, Some(ConflictMessage(g.displayName)))
    else
      match Target(g, st, free)
      case None => Step(st, Some(NoSpaceMessage(g.displayName)))
      case Some(t) =>
        var top := FolderOn(t);
        var st1 := SlotsState(st, g.slots, t.root, top, dryRun);
        var st2 := ArtifactsState(st1, g.artifacts, t.root, top, dryRun);
        Step(CleanupSources(st2, g.disks, t.root, walk, dryRun), None)
  }

  datatype Outcome = Outcome(st: FsState, log: seq<string>)

  /** Every key is a key of the library. */
  predicate KeysIn(lib: Library, keys: seq<string>) {
    forall j :: 0 <= j < |keys| ==> keys[j] in lib
  }

  /** The series under `keys[i..]`, one after the other, appending their
      skip messages to `log`. */
  function Run(st: FsState, lib: Library, keys: seq<string>, i: nat, log: seq<string>,
               free: (FsState, Root) -> int, walk: (FsState, DirPath) -> seq<WalkStep>, dryRun: bool): Outcome
    requires LibraryStocked(lib) && KeysIn(lib, keys)
    decreases |keys| - i
  {
    if i >= |keys| then Outcome(st, log)
    else
      var s := SeriesStep(st, lib[keys[i]], free, walk, dryRun);
      Run(s.st, lib, keys, i + 1, if s.msg.Some? then log + [s.msg.value] else log, free, walk, dryRun)
  }

  /** The whole consolidation from state `st`. */
  function Consolidate(st: FsState, lib: Library, free: (FsState, Root) -> int,
                       walk: (FsState, DirPath) -> seq<WalkStep>, dryRun: bool): Outcome
    requires LibraryStocked(lib)
  {
    var keys := SortedKeys(lib.Keys);
    assert KeysIn(lib, keys) by {
      forall j | 0 <= j < |keys| ensures keys[j] in lib {
        assert keys[j] in keys;
      }
    }
    Run(st, lib, keys, 0, [], free, walk, dryRun)
  }

  // ---------------------------------------------------------------------
  // Properties

  /** A dry run changes no file and no directory. */
  lemma SeriesDry(st: FsState, g: SeriesGroup, free: (FsState, Root) -> int, walk: (FsState, DirPath) -> seq<WalkStep>)
    requires Stocked(g.slots)
    ensures SeriesStep(st, g, free, walk, true).st == st
  {
    if |g.disks| > 1 && !HasBadDupe(g.slots) && Target(g, st, free).Some? {
      var t := Target(g, st, free).value;
      SlotsDry(st, g.slots, t.root, FolderOn(t));
      ArtifactsDry(st, g.artifacts, t.root, FolderOn(t));
      CleanupSourcesDry(st, g.disks, t.root, walk);
    }
  }

  lemma {:induction false} DryRunChangesNothing(st: FsState, lib: Library, keys: seq<string>, i: nat, log: seq<string>,
                                                free: (FsState, Root) -> int, walk: (FsState, DirPath) -> seq<WalkStep>)
    requires LibraryStocked(lib) && KeysIn(lib, keys)
    ensures Run(st, lib, keys, i, log, free, walk, true).st == st
    decreases |keys| - i
  {
    if i < |keys| {
      var s := SeriesStep(st, lib[keys[i]], free, walk, true);
      SeriesDry(st, lib[keys[i]], free, walk);
      DryRunChangesNothing(st, lib, keys, i + 1, if s.msg.Some? then log + [s.msg.value] else log, free, walk);
    }
  }

  /** A series is skipped with a message exactly when it is on several roots
      and has conflicting duplicates or no root with room; a skipped series
      is left untouched. */
  lemma SkipMessages(st: FsState, g: SeriesGroup, free: (FsState, Root) -> int,
                     walk: (FsState, DirPath) -> seq<WalkStep>, dryRun: bool)
    requires Stocked(g.slots)
    ensures var s := SeriesStep(st, g, free, walk, dryRun);
      (s.msg == Some(ConflictMessage(g.displayName)) <==> |g.disks| > 1 && HasBadDupe(g.slots)) &&
      (s.msg == Some(NoSpaceMessage(g.displayName)) <==>
        |g.disks| > 1 && !HasBadDupe(g.slots) && Target(g, st, free).None?) &&
      (s.msg.Some? ==> s.st == st) &&
      (|g.disks| <= 1 ==> s == Step(st, None))
  {
    MessagesDiffer(g.displayName);
  }

  /** The two skip messages for a name are different lines. */
  lemma MessagesDiffer(name: string)
    ensures ConflictMessage(name) != NoSpaceMessage(name)
  {
    var c := ": Conflicting duplicates (different sizes) found.";
    var n := ": No candidate disk has enough free space.";
    assert |c| == 49 && |n| == 42;
    assert |ConflictMessage(name)| == |name| + 57 && |NoSpaceMessage(name)| == |name| + 50;
  }

  /** `line` is a skip message for one of the series under `keys`. */
  ghost predicate SkipLine(lib: Library, keys: seq<string>, line: string)
    requires KeysIn(lib, keys)
  {
    exists k :: 0 <= k < |keys| &&
      (line == ConflictMessage(lib[keys[k]].displayName) || line == NoSpaceMessage(lib[keys[k]].displayName))
  }

  /** One message per skipped series, none for the others: the log gains at
      most one line per series, and each line is one of the two skip messages
      for the display name of one of the series. */
  lemma {:induction false} LogLines(st: FsState, lib: Library, keys: seq<string>, i: nat, log: seq<string>,
                                    free: (FsState, Root) -> int, walk: (FsState, DirPath) -> seq<WalkStep>, dryRun: bool)
    requires LibraryStocked(lib) && KeysIn(lib, keys)
    requires i <= |keys|
    requires forall j :: 0 <= j < |log| ==> SkipLine(lib, keys, log[j])
    ensures var out := Run(st, lib, keys, i, log, free, walk, dryRun).log;
      |out| <= |log| + (|keys| - i) &&
      forall j :: 0 <= j < |out| ==> SkipLine(lib, keys, out[j])
    decreases |keys| - i
  {
    if i < |keys| {
      var g := lib[keys[i]];
      var s := SeriesStep(st, g, free, walk, dryRun);
      SkipMessages(st, g, free, walk, dryRun);
      var log2 := if s.msg.Some? then log + [s.msg.value] else log;
      forall j | 0 <= j < |log2| ensures SkipLine(lib, keys, log2[j]) {
        if j == |log| {
          assert SkipLine(lib, keys, log2[j]) by {
            assert 0 <= i < |keys|;
          }
        }
      }
      LogLines(s.st, lib, keys, i + 1, log2, free, walk, dryRun);
    }
  }

  /** Lines already in the log stay there. */
  lemma {:induction false} LogGrows(st: FsState, lib: Library, keys: seq<string>, i: nat, log: seq<string>,
                                    free: (FsState, Root) -> int, walk: (FsState, DirPath) -> seq<WalkStep>, dryRun: bool)
    requires LibraryStocked(lib) && KeysIn(lib, keys)
    ensures forall x :: x in log ==> x in Run(st, lib, keys, i, log, free, walk, dryRun).log
    decreases |keys| - i
  {
    if i < |keys| {
      var s := SeriesStep(st, lib[keys[i]], free, walk, dryRun);
      var log2 := if s.msg.Some? then log + [s.msg.value] else log;
      assert forall x :: x in log ==> x in log2;
      LogGrows(s.st, lib, keys, i + 1, log2, free, walk, dryRun);
    }
  }

  /** Every series on several roots with conflicting duplicates is reported,
      whatever happened before it. */
  lemma {:induction false} ConflictsReported(st: FsState, lib: Library, keys: seq<string>, i: nat, log: seq<string>,
                                             free: (FsState, Root) -> int, walk: (FsState, DirPath) -> seq<WalkStep>,
                                             dryRun: bool, k: nat)
    requires LibraryStocked(lib) && KeysIn(lib, keys)
    requires i <= k < |keys| && |lib[keys[k]].disks| > 1 && HasBadDupe(lib[keys[k]].slots)
    ensures ConflictMessage(lib[keys[k]].displayName) in Run(st, lib, keys, i, log, free, walk, dryRun).log
    decreases |keys| - i
  {
    var g := lib[keys[i]];
    var s := SeriesStep(st, g, free, walk, dryRun);
    var log2 := if s.msg.Some? then log + [s.msg.value] else log;
    if i < k {
      ConflictsReported(s.st, lib, keys, i + 1, log2, free, walk, dryRun, k);
    } else {
      SkipMessages(st, g, free, walk, dryRun);
      assert log2[|log|] == ConflictMessage(g.displayName);
      LogGrows(s.st, lib, keys, i + 1, log2, free, walk, dryRun);
    }
  }

  // ---------------------------------------------------------------------
  // The methods

  /** One series of the loop; `msg` is what it appends to the log. */
  method ConsolidateSeries(fs: FileSystem, g: SeriesGroup, free: (FsState, Root) -> int,
                           walk: (FsState, DirPath) -> seq<WalkStep>, dryRun: bool)
    returns (msg: Option<string>)
    requires Stocked(g.slots)
    modifies fs
    ensures Step(fs.State(), msg) == SeriesStep(old(fs.State()), g, free, walk, dryRun)
  {
    if |g.disks| <= 1 {
      return None;
    }
    var bad := HasConflict(g.slots);
    if bad {
      return Some(ConflictMessage(g.displayName));
    }
    var cands := Candidates(g);
    var fit := SelectTarget(cands, g, fs.State(), free);
    if fit.None? || cands[fit.value].root == "" {
      return Some(NoSpaceMessage(g.displayName));
    }
    var t := cands[fit.value];
    var top := FolderOn(t);
    ReconcileSlots(fs, g.slots, t.root, top, dryRun);
    MoveArtifacts(fs, g.artifacts, t.root, top, dryRun);
    CleanSources(fs, g.disks, t.root, walk, dryRun);
    return None;
  }

  /** `process_consolidation(library, execute)` on the filesystem `fs`. */
  method ProcessConsolidation(fs: FileSystem, lib: Library, free: (FsState, Root) -> int,
                              walk: (FsState, DirPath) -> seq<WalkStep>, execute: bool)
    returns (skipped: seq<string>)
    requires LibraryStocked(lib)
    modifies fs
    ensures Outcome(fs.State(), skipped) == Consolidate(old(fs.State()), lib, free, walk, !execute)
  {
    var keys := SortedKeys(lib.Keys);
    assert KeysIn(lib, keys) by {
      forall j | 0 <= j < |keys| ensures keys[j] in lib {
        assert keys[j] in keys;
      }
    }
    ghost var final := Run(fs.State(), lib, keys, 0, [], free, walk, !execute);
    skipped := [];
    var i := 0;
    while i < |keys|
      invariant 0 <= i <= |keys|
      invariant Run(fs.State(), lib, keys, i, skipped, free, walk, !execute) == final
    {
      var msg := ConsolidateSeries(fs, lib[keys[i]], free, walk, !execute);
      if msg.Some? {
        skipped := skipped + [msg.value];
      }
      i := i + 1;
    }
  }
}
