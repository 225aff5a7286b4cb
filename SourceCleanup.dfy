/** `cleanup_source_folder` of the Radarr import tool: after Radarr has
    imported a movie, the folder it came from is cleared of small leftovers
    and removed when nothing is left in it.

    The walk over the folder is driven by the names `os.listdir` returned at
    the start, in the order it returned them (an input of the model). Paths
    are taken in their normalised form, all on the single volume "/", so
    `os.path.normpath` and `os.path.abspath` comparisons are comparisons of
    paths. Whether an NFO file holds XML is decided by reading it, which is
    an input `isXml` of the model. Console output is not modelled. */
module SourceCleanup {
  import opened Text
  import opened Volumes
  import opened Media
  import Cleaner

  /** `SEARCH_PATHS`, normalised: `/mnt/hdd1/Movies/` and `/mnt/hdd3/Movies/`. */
  const SEARCH_ROOTS: seq<DirPath> := [DirPath("/", ["mnt", "hdd1", "Movies"]), DirPath("/", ["mnt", "hdd3", "Movies"])]

  const SAFE_SIZE_LIMIT_MB: nat := 100

  const MIB: nat := 1048576

  /** The only extensions cleanup deletes by name. */
  const JUNK_EXTS: seq<string> := [".txt", ".exe", ".bat", ".url", ".lnk", ".jpg", ".png", ".jpeg", ".nzb"]

  /** `os.path.getsize(p) / (1024 * 1024) > SAFE_SIZE_LIMIT_MB`. Dividing by a
      power of two loses nothing for sizes below 2^53 bytes, and no rounding
      of a larger size brings it down to 100, so the float comparison is this
      integer one. */
  predicate TooLarge(size: nat) {
    size > SAFE_SIZE_LIMIT_MB * MIB
  }

  /** A lower-cased name the loop body may act on: never a video, and an
      NFO, a junk extension or a name containing "sample". */
  predicate Disposable(lf: string) {
    !IsVideoName(lf) && (EndsWith(lf, ".nfo") || EndsWithAny(lf, JUNK_EXTS) || Contains(lf, "sample"))
  }

  /** Where a scene NFO is kept: beside the imported movie file, under the
      movie file's base name with `.nfo-orig` appended. */
  function NfoTarget(final: Path): Path {
    Join(DirOf(final), SplitExt(final.name).0 + ".nfo-orig")
  }

  datatype Action = Keep | Remove | MoveTo(dst: Path)

  /** What one pass of the loop does with the listed name `f`. Directories,
      names whose size cannot be read (no such file), large files and video
      files are skipped. An XML NFO is removed; a scene NFO is moved to the
      target when nothing is there and the target's directory exists (a move
      into a missing directory fails and the error is swallowed), and removed
      when the target exists and is another file. Junk extensions and
      "sample" names are removed. */
  function FileAction(st: FsState, source: DirPath, f: string, target: Path, isXml: Path -> bool): (a: Action)
    ensures a != Keep ==> var full := Join(source, f);
      full in st.files && AsDir(full) !in st.dirs && !TooLarge(st.files[full]) && Disposable(LowerStr(f))
    ensures a.MoveTo? ==> a.dst == target && !Exists(st, target) && DirOf(target) in st.dirs
  {
    var full := Join(source, f);
    var lf := LowerStr(f);
    if AsDir(full) in st.dirs || full !in st.files then Keep
    else if TooLarge(st.files[full]) then Keep
    else if IsVideoName(lf) then Keep
    else if EndsWith(lf, ".nfo") then
      if isXml(full) then Remove
      else if !Exists(st, target) then (if DirOf(target) in st.dirs then MoveTo(target) else Keep)
      else if full != target then Remove
      else Keep
    else if EndsWithAny(lf, JUNK_EXTS) || Contains(lf, "sample") then Remove
    else Keep
  }

  /** The state after the loop body for `f`. */
  function Step(st: FsState, source: DirPath, f: string, target: Path, isXml: Path -> bool): FsState {
    var full := Join(source, f);
    match FileAction(st, source, f, target, isXml)
    case Keep => st
    case Remove => RemoveFile(st, full)
    case MoveTo(dst) => MoveFile(st, full, dst)
  }

  /** The loop over the listed names. */
  function Sweep(st: FsState, source: DirPath, names: seq<string>, target: Path, isXml: Path -> bool): FsState
    decreases |names|
  {
    if names == [] then st
    else Sweep(Step(st, source, names[0], target, isXml), source, names[1..], target, isXml)
  }

  /** The state after `cleanup_source_folder(source, final)`. A source that
      is not an existing directory (also a file: `os.listdir` fails and the
      error is caught) and a search root are left alone; otherwise the listed
      names are swept and the folder is removed if it is then empty. */
  function Cleanup(st: FsState, source: DirPath, final: Path, names: seq<string>, isXml: Path -> bool): FsState {
    if source !in st.dirs || source in SEARCH_ROOTS then st
    else
      var st1 := Sweep(st, source, names, NfoTarget(final), isXml);
      if DirEmpty(st1, source) then FsState(st1.files, st1.dirs - {source}) else st1
  }

  // ---------------------------------------------------------------------
  // Properties

  /** `p` is a file the sweep may remove or move: a small, disposable,
      listed file of the source folder. */
  ghost predicate Eligible(st: FsState, source: DirPath, names: seq<string>, p: Path) {
    p in st.files && DirOf(p) == source && p.name in names && AsDir(p) !in st.dirs &&
    !TooLarge(st.files[p]) && Disposable(LowerStr(p.name))
  }

  /** One pass leaves the directories alone, keeps every file other than the
      one it acts on, and adds no file other than the target. */
  lemma StepFacts(st: FsState, source: DirPath, f: string, target: Path, isXml: Path -> bool)
    ensures var r := Step(st, source, f, target, isXml); var full := Join(source, f);
      r.dirs == st.dirs &&
      (forall p :: p in st.files && p != full ==> p in r.files && r.files[p] == st.files[p]) &&
      (forall p :: p in r.files && p !in st.files ==> p == target) &&
      (FileAction(st, source, f, target, isXml) == Keep ==> r == st) &&
      (WellFormed(st) ==> WellFormed(r))
  {
  }

  /** The sweep keeps every file it is not allowed to touch, exactly as it
      was, creates no file other than the NFO target, and leaves the
      directories alone. */
  lemma {:induction false} SweepFacts(st: FsState, source: DirPath, names: seq<string>, target: Path, isXml: Path -> bool)
    ensures var r := Sweep(st, source, names, target, isXml);
      r.dirs == st.dirs &&
      (forall p :: p in st.files && !Eligible(st, source, names, p) ==> p in r.files && r.files[p] == st.files[p]) &&
      (forall p :: p in r.files && p !in st.files ==> p == target) &&
      (WellFormed(st) ==> WellFormed(r))
    decreases |names|
  {
    if names != [] {
      var st1 := Step(st, source, names[0], target, isXml);
      StepFacts(st, source, names[0], target, isXml);
      SweepFacts(st1, source, names[1..], target, isXml);
      var r := Sweep(st1, source, names[1..], target, isXml);
      forall p | p in st.files && !Eligible(st, source, names, p)
        ensures p in r.files && r.files[p] == st.files[p]
      {
        var full := Join(source, names[0]);
        if p == full {
          assert FileAction(st, source, names[0], target, isXml) == Keep;
        }
        assert p in st1.files && st1.files[p] == st.files[p];
        assert !Eligible(st1, source, names[1..], p);
      }
    }
  }

  /** What `cleanup_source_folder` may do: it leaves everything alone for a
      source that is missing or is one of the search roots; otherwise every
      file that is not a small, disposable, listed file of the source folder
      keeps its size, the only new file is the NFO target, and the only
      directory removed is the source folder, when it is left empty. */
  lemma CleanupFacts(st: FsState, source: DirPath, final: Path, names: seq<string>, isXml: Path -> bool)
    ensures var r := Cleanup(st, source, final, names, isXml);
      (source !in st.dirs || source in SEARCH_ROOTS ==> r == st) &&
      (forall p :: p in st.files && !Eligible(st, source, names, p) ==> p in r.files && r.files[p] == st.files[p]) &&
      (forall p :: p in r.files && p !in st.files ==> p == NfoTarget(final)) &&
      r.dirs <= st.dirs &&
      (forall d :: d in st.dirs && d !in r.dirs ==> d == source && DirEmpty(r, d)) &&
      (source in st.dirs && source !in SEARCH_ROOTS ==> (source in r.dirs <==> !DirEmpty(r, source))) &&
      (WellFormed(st) ==> WellFormed(r))
  {
    if source in st.dirs && source !in SEARCH_ROOTS {
      var target := NfoTarget(final);
      SweepFacts(st, source, names, target, isXml);
      var st1 := Sweep(st, source, names, target, isXml);
      if DirEmpty(st1, source) {
        if WellFormed(st) {
          Cleaner.RemoveEmptyDirWellFormed(st1, source);
        }
        assert DirEmpty(FsState(st1.files, st1.dirs - {source}), source);
      }
    }
  }

  /** The safety promise: a video file or a file larger than 100 MiB is
      never deleted, moved or changed, wherever it lies. */
  lemma NeverDeletesMediaOrLarge(st: FsState, source: DirPath, final: Path, names: seq<string>, isXml: Path -> bool, p: Path)
    requires p in st.files
    requires TooLarge(st.files[p]) || IsVideoName(LowerStr(p.name))
    ensures var r := Cleanup(st, source, final, names, isXml);
      p in r.files && r.files[p] == st.files[p]
  {
    CleanupFacts(st, source, final, names, isXml);
  }

  /** Files outside the source folder, and files of the source folder that
      were not listed, are kept too. */
  lemma KeepsOthers(st: FsState, source: DirPath, final: Path, names: seq<string>, isXml: Path -> bool, p: Path)
    requires p in st.files
    requires DirOf(p) != source || p.name !in names
    ensures var r := Cleanup(st, source, final, names, isXml);
      p in r.files && r.files[p] == st.files[p]
  {
    CleanupFacts(st, source, final, names, isXml);
  }

  /** A file the loop removes without looking at the target: small, not a
      video, and an XML NFO, or not an NFO and junk or a "sample" name. */
  predicate RemovedOutright(st: FsState, full: Path, isXml: Path -> bool) {
    var lf := LowerStr(full.name);
    full in st.files && AsDir(full) !in st.dirs && !TooLarge(st.files[full]) && !IsVideoName(lf) &&
    (if EndsWith(lf, ".nfo") then isXml(full) else EndsWithAny(lf, JUNK_EXTS) || Contains(lf, "sample"))
  }

  predicate Distinct(names: seq<string>) {
    forall i, j :: 0 <= i < j < |names| ==> names[i] != names[j]
  }

  /** A name other than the first of a listing without repeats is listed,
      without repeats, in the rest. */
  lemma DistinctTail(names: seq<string>, f: string)
    requires Distinct(names) && f in names && names[0] != f
    ensures Distinct(names[1..]) && f in names[1..]
  {
    var k :| 0 <= k < |names| && names[k] == f;
    assert names[1..][k - 1] == f;
    forall i, j | 0 <= i < j < |names[1..]| ensures names[1..][i] != names[1..][j] {
      assert names[1..][i] == names[i + 1] && names[1..][j] == names[j + 1];
    }
  }

  lemma {:induction false} SweepRemoves(st: FsState, source: DirPath, names: seq<string>, target: Path, isXml: Path -> bool, f: string)
    requires Distinct(names) && f in names
    requires RemovedOutright(st, Join(source, f), isXml) && Join(source, f) != target
    ensures Join(source, f) !in Sweep(st, source, names, target, isXml).files
    decreases |names|
  {
    var full := Join(source, f);
    var st1 := Step(st, source, names[0], target, isXml);
    StepFacts(st, source, names[0], target, isXml);
    SweepFacts(st1, source, names[1..], target, isXml);
    if names[0] == f {
      assert FileAction(st, source, f, target, isXml) == Remove;
      assert full !in st1.files;
    } else {
      assert Join(source, names[0]) != full;
      assert f in names[1..] by {
        var k :| 0 <= k < |names| && names[k] == f;
        assert names[1..][k - 1] == f;
      }
      DistinctTail(names, f);
      SweepRemoves(st1, source, names[1..], target, isXml, f);
    }
  }

  /** The converse side of the safety promise: when `os.listdir` lists each
      name once, a listed file of an eligible source folder that is junk, a
      "sample" name or an XML NFO, and is small and not a video, is gone
      afterwards (unless it is itself the NFO target). */
  lemma JunkRemoved(st: FsState, source: DirPath, final: Path, names: seq<string>, isXml: Path -> bool, f: string)
    requires source in st.dirs && source !in SEARCH_ROOTS
    requires Distinct(names) && f in names
    requires RemovedOutright(st, Join(source, f), isXml) && Join(source, f) != NfoTarget(final)
    ensures Join(source, f) !in Cleanup(st, source, final, names, isXml).files
  {
    SweepRemoves(st, source, names, NfoTarget(final), isXml, f);
  }

  /** A scene NFO met while nothing is at the target and the target's
      directory exists is moved there with its size. */
  lemma SceneNfoPreserved(st: FsState, source: DirPath, f: string, target: Path, isXml: Path -> bool)
    requires FileAction(st, source, f, target, isXml).MoveTo?
    ensures var r := Step(st, source, f, target, isXml); var full := Join(source, f);
      full !in r.files && target in r.files && full in st.files && r.files[target] == st.files[full] &&
      EndsWith(LowerStr(f), ".nfo") && !isXml(full)
  {
  }

  /** A small scene (non-XML) NFO that is not a video. */
  predicate SceneNfoAt(st: FsState, full: Path, isXml: Path -> bool) {
    var lf := LowerStr(full.name);
    full in st.files && AsDir(full) !in st.dirs && !TooLarge(st.files[full]) && !IsVideoName(lf) &&
    EndsWith(lf, ".nfo") && !isXml(full)
  }

  /** The target exists and the sweep cannot remove it: it is a directory,
      or a file that is not one of the listed names of the source. */
  predicate TargetStays(st: FsState, source: DirPath, names: seq<string>, target: Path) {
    AsDir(target) in st.dirs || (target in st.files && !(DirOf(target) == source && target.name in names))
  }

  lemma {:induction false} SweepRemovesNfo(st: FsState, source: DirPath, names: seq<string>, target: Path, isXml: Path -> bool, f: string)
    requires Distinct(names) && f in names
    requires SceneNfoAt(st, Join(source, f), isXml) && Join(source, f) != target
    requires TargetStays(st, source, names, target)
    ensures Join(source, f) !in Sweep(st, source, names, target, isXml).files
    decreases |names|
  {
    var full := Join(source, f);
    var st1 := Step(st, source, names[0], target, isXml);
    StepFacts(st, source, names[0], target, isXml);
    SweepFacts(st1, source, names[1..], target, isXml);
    if names[0] == f {
      assert Exists(st, target);
      assert FileAction(st, source, f, target, isXml) == Remove;
      assert full !in st1.files;
    } else {
      assert Join(source, names[0]) != full;
      DistinctTail(names, f);
      assert TargetStays(st1, source, names[1..], target) by {
        if AsDir(target) !in st.dirs {
          assert target != Join(source, names[0]);
        }
      }
      SweepRemovesNfo(st1, source, names[1..], target, isXml, f);
    }
  }

  /** The partner of `SceneNfoPreserved`: a listed scene NFO of an eligible
      source folder is deleted when the `.nfo-orig` target already exists
      as another file (or a directory) that the sweep does not remove. */
  lemma SceneNfoReplaced(st: FsState, source: DirPath, final: Path, names: seq<string>, isXml: Path -> bool, f: string)
    requires source in st.dirs && source !in SEARCH_ROOTS
    requires Distinct(names) && f in names
    requires SceneNfoAt(st, Join(source, f), isXml) && Join(source, f) != NfoTarget(final)
    requires TargetStays(st, source, names, NfoTarget(final))
    ensures Join(source, f) !in Cleanup(st, source, final, names, isXml).files
  {
    SweepRemovesNfo(st, source, names, NfoTarget(final), isXml, f);
  }

  // ---------------------------------------------------------------------
  // The procedure

  /** The loop body for one listed name, on the filesystem `fs`. */
  method ProcessName(fs: FileSystem, source: DirPath, f: string, target: Path, isXml: Path -> bool)
    modifies fs
    ensures fs.State() == Step(old(fs.State()), source, f, target, isXml)
  {
    var full := Join(source, f);
    if AsDir(full) in fs.dirs {
      return;
    }
    if full !in fs.files {
      return;
    }
    if TooLarge(fs.files[full]) {
      return;
    }
    var lf := LowerStr(f);
    if IsVideoName(lf) {
      return;
    }
    if EndsWith(lf, ".nfo") {
      if isXml(full) {
        fs.Remove(full);
      } else if !(target in fs.files || AsDir(target) in fs.dirs) {
        if DirOf(target) in fs.dirs {
          fs.Move(full, target);
        }
      } else if full != target {
        fs.Remove(full);
      }
      return;
    }
    if EndsWithAny(lf, JUNK_EXTS) {
      fs.Remove(full);
      return;
    }
    if Contains(lf, "sample") {
      fs.Remove(full);
      return;
    }
  }

  /** `source` is one of the search roots. */
  method IsSearchRoot(source: DirPath) returns (found: bool)
    ensures found <==> source in SEARCH_ROOTS
  {
    var i := 0;
    while i < |SEARCH_ROOTS|
      invariant 0 <= i <= |SEARCH_ROOTS|
      invariant forall k :: 0 <= k < i ==> SEARCH_ROOTS[k] != source
    {
      if source == SEARCH_ROOTS[i] {
        return true;
      }
      i := i + 1;
    }
    return false;
  }

  /** `cleanup_source_folder(source, final)` on `fs`, where `os.listdir`
      of the source gives `names`. */
  method CleanupSourceFolder(fs: FileSystem, source: DirPath, final: Path, names: seq<string>, isXml: Path -> bool)
    modifies fs
    ensures fs.State() == Cleanup(old(fs.State()), source, final, names, isXml)
  {
    if source !in fs.dirs {
      return;
    }
    var isRoot := IsSearchRoot(source);
    if isRoot {
      return;
    }
    var target := NfoTarget(final);
    ghost var swept := Sweep(fs.State(), source, names, target, isXml);
    var i := 0;
    while i < |names|
      invariant 0 <= i <= |names|
      invariant Sweep(fs.State(), source, names[i..], target, isXml) == swept
    {
      ProcessName(fs, source, names[i], target, isXml);
      assert names[i..][1..] == names[i + 1..];
      i := i + 1;
    }
    fs.RemoveDirIfEmpty(source);
  }
}
