/** `cleanup_folder_tree`: the bottom-up pass that deletes known junk files
    from a series folder left behind on a source root and removes the
    directories that end up empty. */
module Cleaner {
  import opened Text
  import opened Volumes

  const JUNK_FILES: set<string> := {".plexmatch", ".ds_store", "thumbs.db", "desktop.ini"}

  /** The junk test is made on the lower-cased name. */
  predicate IsJunk(name: string) { LowerStr(name) in JUNK_FILES }

  predicate AllJunk(names: seq<string>) {
    forall i :: 0 <= i < |names| ==> IsJunk(names[i])
  }

  /** `d` lies at or below `top`. */
  predicate Under(top: DirPath, d: DirPath) {
    d.root == top.root && |top.comps| <= |d.comps| && d.comps[..|top.comps|] == top.comps
  }

  /** The inner loop: `safe_delete` of every junk name of one directory. */
  function DeleteJunk(st: FsState, dir: DirPath, names: seq<string>, dryRun: bool): FsState
    decreases |names|
  {
    if names == [] then st
    else
      var st1 := if IsJunk(names[0]) then SafeDeleteState(st, Join(dir, names[0]), dryRun) else st;
      DeleteJunk(st1, dir, names[1..], dryRun)
  }

  /** One directory of the walk: junk is deleted, and when every listed
      file was junk the directory is removed in execute mode, provided it
      exists and is empty at that moment. */
  function CleanDir(st: FsState, dir: DirPath, names: seq<string>, dryRun: bool): FsState {
    var st1 := DeleteJunk(st, dir, names, dryRun);
    if AllJunk(names) && !dryRun && dir in st1.dirs && DirEmpty(st1, dir) then FsState(st1.files, st1.dirs - {dir})
    else st1
  }

  function CleanSteps(st: FsState, top: DirPath, walk: seq<WalkStep>, dryRun: bool): FsState
    decreases |walk|
  {
    if walk == [] then st
    else CleanSteps(CleanDir(st, SubDir(top, walk[0].rel), walk[0].names, dryRun), top, walk[1..], dryRun)
  }

  /** The state after `cleanup_folder_tree(top, dry_run)` when the walk of
      `top` yields `walk`. A folder that does not exist is left alone. */
  function CleanupState(st: FsState, top: DirPath, walk: seq<WalkStep>, dryRun: bool): FsState {
    if top !in st.dirs then st else CleanSteps(st, top, walk, dryRun)
  }

  // ---------------------------------------------------------------------
  // What a cleanup pass may do to a state `st`, giving `r`.

  /** Files are only ever removed, never changed, and directories only
      removed. */
  predicate Shrinks(st: FsState, r: FsState) {
    (forall p :: p in r.files ==> p in st.files && r.files[p] == st.files[p]) && r.dirs <= st.dirs
  }

  /** Every removed file is a junk file at or below `top`. */
  predicate JunkOnly(st: FsState, r: FsState, top: DirPath) {
    forall p :: p in st.files && p !in r.files ==> IsJunk(p.name) && Under(top, DirOf(p))
  }

  /** Every removed directory lies at or below `top`, was listed by the walk
      with junk files only, and is empty in `r`. */
  predicate RemovedDirsEmpty(st: FsState, r: FsState, top: DirPath, walk: seq<WalkStep>) {
    forall d :: d in st.dirs && d !in r.dirs ==>
      Under(top, d) && DirEmpty(r, d) &&
      exists i :: 0 <= i < |walk| && SubDir(top, walk[i].rel) == d && AllJunk(walk[i].names)
  }

  lemma UnderSubDir(top: DirPath, rel: seq<string>)
    ensures Under(top, SubDir(top, rel))
  {
    assert (top.comps + rel)[..|top.comps|] == top.comps;
  }

  lemma {:induction false} DeleteJunkFacts(st: FsState, dir: DirPath, names: seq<string>, dryRun: bool)
    ensures var r := DeleteJunk(st, dir, names, dryRun);
      Shrinks(st, r) && r.dirs == st.dirs &&
      (forall p :: p in st.files && p !in r.files ==> IsJunk(p.name) && DirOf(p) == dir) &&
      (dryRun ==> r == st) &&
      (WellFormed(st) ==> WellFormed(r))
    decreases |names|
  {
    if names != [] {
      var st1 := if IsJunk(names[0]) then SafeDeleteState(st, Join(dir, names[0]), dryRun) else st;
      DeleteJunkFacts(st1, dir, names[1..], dryRun);
    }
  }

  /** Removing an empty directory keeps the tree well formed. */
  lemma RemoveEmptyDirWellFormed(st: FsState, d: DirPath)
    requires WellFormed(st) && d in st.dirs && DirEmpty(st, d)
    ensures WellFormed(FsState(st.files, st.dirs - {d}))
  {
    var r := FsState(st.files, st.dirs - {d});
    forall c | c in r.dirs ensures Ancestors(c) <= r.dirs {
      if d in Ancestors(c) {
        ChildOnPath(c, d);
      }
    }
  }

  /** A directory strictly below `d` has an ancestor that is a child of `d`. */
  lemma ChildOnPath(c: DirPath, d: DirPath)
    requires d in Ancestors(c) && d != c
    ensures exists k :: k in Ancestors(c) && IsChild(k, d)
  {
    assert |d.comps| < |c.comps|;
    var child := DirPath(c.root, c.comps[..|d.comps| + 1]);
    assert child in Ancestors(c);
    assert c.comps[..|d.comps| + 1][..|d.comps|] == c.comps[..|d.comps|];
    assert IsChild(child, d);
  }

  lemma {:induction false} CleanDirFacts(st: FsState, top: DirPath, rel: seq<string>, names: seq<string>, dryRun: bool)
    ensures var r := CleanDir(st, SubDir(top, rel), names, dryRun);
      Shrinks(st, r) && JunkOnly(st, r, top) &&
      (forall d :: d in st.dirs && d !in r.dirs ==> d == SubDir(top, rel) && AllJunk(names) && DirEmpty(r, d)) &&
      (dryRun ==> r == st) &&
      (WellFormed(st) ==> WellFormed(r))
  {
    var dir := SubDir(top, rel);
    UnderSubDir(top, rel);
    DeleteJunkFacts(st, dir, names, dryRun);
    var st1 := DeleteJunk(st, dir, names, dryRun);
    if AllJunk(names) && !dryRun && dir in st1.dirs && DirEmpty(st1, dir) {
      if WellFormed(st) {
        RemoveEmptyDirWellFormed(st1, dir);
      }
      var r := FsState(st1.files, st1.dirs - {dir});
      assert DirEmpty(r, dir);
    }
  }

  /** The guarantees of a whole cleanup pass: only junk files at or below
      the folder are deleted, nothing else changes, only directories that
      were listed with junk only and are empty are removed (so none that held
      a file other than junk), dry-run mode changes nothing, and the tree stays
      well formed. */
  lemma {:induction false} CleanStepsFacts(st: FsState, top: DirPath, walk: seq<WalkStep>, dryRun: bool)
    ensures var r := CleanSteps(st, top, walk, dryRun);
      Shrinks(st, r) && JunkOnly(st, r, top) && RemovedDirsEmpty(st, r, top, walk) &&
      (dryRun ==> r == st) &&
      (WellFormed(st) ==> WellFormed(r))
    decreases |walk|
  {
    if walk != [] {
      var st1 := CleanDir(st, SubDir(top, walk[0].rel), walk[0].names, dryRun);
      CleanDirFacts(st, top, walk[0].rel, walk[0].names, dryRun);
      CleanStepsFacts(st1, top, walk[1..], dryRun);
      var r := CleanSteps(st1, top, walk[1..], dryRun);
      UnderSubDir(top, walk[0].rel);
      forall d | d in st.dirs && d !in r.dirs
        ensures Under(top, d) && DirEmpty(r, d)
        ensures exists i :: 0 <= i < |walk| && SubDir(top, walk[i].rel) == d && AllJunk(walk[i].names)
      {
        if d in st1.dirs {
          var i :| 0 <= i < |walk[1..]| && SubDir(top, walk[1..][i].rel) == d && AllJunk(walk[1..][i].names);
          assert walk[1..][i] == walk[i + 1];
        } else {
          assert DirEmpty(st1, d);
        }
      }
    }
  }

  /** Cleanup never removes a directory that held a file other than junk. */
  lemma CleanupKeepsDirsWithRealFiles(st: FsState, top: DirPath, walk: seq<WalkStep>, dryRun: bool, p: Path)
    requires p in st.files && !IsJunk(p.name) && DirOf(p) in st.dirs
    ensures var r := CleanupState(st, top, walk, dryRun);
      p in r.files && r.files[p] == st.files[p] && DirOf(p) in r.dirs
  {
    if top in st.dirs {
      CleanStepsFacts(st, top, walk, dryRun);
    }
  }

  /** The inner loop over the files of one directory: every junk name is
      passed to `safe_delete`, every other name marks the directory as not
      empty. */
  method DeleteJunkIn(fs: FileSystem, dir: DirPath, names: seq<string>, dryRun: bool) returns (isEmpty: bool)
    modifies fs
    ensures fs.State() == DeleteJunk(old(fs.State()), dir, names, dryRun)
    ensures isEmpty == AllJunk(names)
  {
    ghost var before := fs.State();
    isEmpty := true;
    var j := 0;
    while j < |names|
      invariant 0 <= j <= |names|
      invariant DeleteJunk(fs.State(), dir, names[j..], dryRun) == DeleteJunk(before, dir, names, dryRun)
      invariant isEmpty == AllJunk(names[..j])
    {
      if IsJunk(names[j]) {
        var _ := fs.SafeDelete(Join(dir, names[j]), dryRun);
      } else {
        isEmpty := false;
      }
      assert names[j..][1..] == names[j + 1..];
      assert names[..j + 1] == names[..j] + [names[j]];
      j := j + 1;
    }
    assert names[..j] == names;
  }

  /** `cleanup_folder_tree(top, dry_run)` on the filesystem `fs`, where the
      bottom-up walk `os.walk(top, topdown=False)` yields `walk`. */
  method CleanupFolderTree(fs: FileSystem, top: DirPath, walk: seq<WalkStep>, dryRun: bool)
    modifies fs
    ensures fs.State() == CleanupState(old(fs.State()), top, walk, dryRun)
  {
    if top !in fs.dirs {
      return;
    }
    ghost var target := CleanSteps(fs.State(), top, walk, dryRun);
    var i := 0;
    while i < |walk|
      invariant 0 <= i <= |walk|
      invariant CleanSteps(fs.State(), top, walk[i..], dryRun) == target
    {
      var dir := SubDir(top, walk[i].rel);
      var isEmpty := DeleteJunkIn(fs, dir, walk[i].names, dryRun);
      if isEmpty && !dryRun {
        fs.RemoveDirIfEmpty(dir);
      }
      assert walk[i..][1..] == walk[i + 1..];
      i := i + 1;
    }
  }
}
