/** The filesystem the TV library consolidator works on, and its three file
    action primitives `safe_move`, `force_move` and `safe_delete`.

    A path is a root (one storage volume, as given on the command line), the
    directory components below it and a file name. Different roots are
    different volumes, so paths on different roots never alias. The state is
    the set of directories and a map from file path to size in bytes. Each
    primitive is specified by a function of the old state; the class methods
    apply it in place. Printing of the action log is not modelled. */
module Volumes {

  type Root = string

  datatype DirPath = DirPath(root: Root, comps: seq<string>)

  datatype Path = Path(root: Root, dir: seq<string>, name: string)

  function DirOf(p: Path): DirPath { DirPath(p.root, p.dir) }

  /** `os.path.join(dir, name)`. */
  function Join(d: DirPath, name: string): Path { Path(d.root, d.comps, name) }

  /** `os.path.join(dir, rel_dir)` for a relative directory given by its
      components (the empty sequence for the directory itself). */
  function SubDir(d: DirPath, rel: seq<string>): DirPath { DirPath(d.root, d.comps + rel) }

  /** The directory that has the same full path as the file path `p`. */
  function AsDir(p: Path): DirPath { DirPath(p.root, p.dir + [p.name]) }

  /** `d` and every directory above it on its root. */
  function Ancestors(d: DirPath): (r: set<DirPath>)
    ensures forall a :: a in r ==> a.root == d.root && |a.comps| <= |d.comps| && a.comps == d.comps[..|a.comps|]
  {
    set i | 0 <= i <= |d.comps| :: DirPath(d.root, d.comps[..i])
  }

  predicate IsChild(c: DirPath, d: DirPath) {
    c.root == d.root && |c.comps| == |d.comps| + 1 && c.comps[..|d.comps|] == d.comps
  }

  /** One directory as `os.walk` yields it: its path relative to the walked
      folder and the names of the files in it. Which directories a walk
      visits and in which order is the operating system's business, so walks
      are inputs of the model. */
  datatype WalkStep = WalkStep(rel: seq<string>, names: seq<string>)

  datatype FsState = FsState(files: map<Path, nat>, dirs: set<DirPath>)

  /** Every file lies in an existing directory, and every directory's
      ancestors exist. */
  predicate WellFormed(st: FsState) {
    (forall p :: p in st.files ==> DirOf(p) in st.dirs) &&
    (forall d :: d in st.dirs ==> Ancestors(d) <= st.dirs)
  }

  /** `os.path.exists(p)`: a file or a directory of that name. */
  predicate Exists(st: FsState, p: Path) {
    p in st.files || AsDir(p) in st.dirs
  }

  /** `os.listdir(d)` is empty: no file and no sub-directory in `d`. */
  predicate DirEmpty(st: FsState, d: DirPath) {
    (forall p :: p in st.files ==> DirOf(p) != d) &&
    (forall c :: c in st.dirs ==> !IsChild(c, d))
  }

  /** The ancestors of a directory include it and are closed under taking
      ancestors again. */
  lemma AncestorsClosed(d: DirPath)
    ensures d in Ancestors(d)
    ensures forall a :: a in Ancestors(d) ==> Ancestors(a) <= Ancestors(d)
  {
    assert d.comps[..|d.comps|] == d.comps;
    forall a | a in Ancestors(d) ensures Ancestors(a) <= Ancestors(d) {
      var i :| 0 <= i <= |d.comps| && a == DirPath(d.root, d.comps[..i]);
      forall b | b in Ancestors(a) ensures b in Ancestors(d) {
        var j :| 0 <= j <= |a.comps| && b == DirPath(a.root, a.comps[..j]);
        assert d.comps[..i][..j] == d.comps[..j];
      }
    }
  }

  /** `os.makedirs(d, exist_ok=True)`. */
  function MakeDirs(st: FsState, d: DirPath): (r: FsState)
    ensures r.files == st.files && d in r.dirs && st.dirs <= r.dirs
    ensures WellFormed(st) ==> WellFormed(r)
  {
    AncestorsClosed(d);
    FsState(st.files, st.dirs + Ancestors(d))
  }

  /** `shutil.move` of an existing file to a path that holds no file. */
  function MoveFile(st: FsState, src: Path, dst: Path): FsState
    requires src in st.files
  {
    FsState((st.files - {src})[dst := st.files[src]], st.dirs)
  }

  function RemoveFile(st: FsState, p: Path): FsState {
    FsState(st.files - {p}, st.dirs)
  }

  // ---------------------------------------------------------------------
  // safe_move

  /** `safe_move` succeeds exactly when the source file exists and nothing
      of its name exists in the destination directory, in both modes. */
  predicate SafeMoveOk(st: FsState, src: Path, destDir: DirPath) {
    src in st.files && !Exists(st, Join(destDir, src.name))
  }

  /** The state after `safe_move(src, dest_dir, dry_run)`. It never
      overwrites: every file other than the source keeps its size, and the
      destination only receives the source when no file was there. In dry-run
      mode, or when the checks fail, nothing changes. */
  function SafeMoveState(st: FsState, src: Path, destDir: DirPath, dryRun: bool): (r: FsState)
    ensures dryRun || !SafeMoveOk(st, src, destDir) ==> r == st
    ensures forall p :: p in st.files && p != src ==> p in r.files && r.files[p] == st.files[p]
    ensures forall p :: p in r.files && p != Join(destDir, src.name) ==> p in st.files
    ensures !dryRun && SafeMoveOk(st, src, destDir) ==>
      src !in r.files && Join(destDir, src.name) in r.files && Join(destDir, src.name) !in st.files &&
      r.files[Join(destDir, src.name)] == st.files[src]
    ensures WellFormed(st) ==> WellFormed(r)
  {
    if !dryRun && SafeMoveOk(st, src, destDir) then
      var dst := Join(destDir, src.name);
      assert dst != src;
      MoveFile(MakeDirs(st, destDir), src, dst)
    else st
  }

  // ---------------------------------------------------------------------
  // force_move

  /** What `force_move` returns: false when the source is missing; in
      execute mode also false when the destination name is a directory
      (`os.remove` refuses it) or is the source itself (it is removed first,
      so the move that follows fails). */
  predicate ForceMoveOk(st: FsState, src: Path, destDir: DirPath, dryRun: bool) {
    var dst := Join(destDir, src.name);
    src in st.files &&
    (dryRun || (dst != src && (dst in st.files || AsDir(dst) !in st.dirs)))
  }

  /** The state after `force_move(src, dest_dir, dry_run)`: an existing file
      of the same name in the destination is replaced. */
  function ForceMoveState(st: FsState, src: Path, destDir: DirPath, dryRun: bool): (r: FsState)
    ensures dryRun || src !in st.files ==> r == st
    ensures ForceMoveOk(st, src, destDir, dryRun) && !dryRun ==>
      src !in r.files && Join(destDir, src.name) in r.files && r.files[Join(destDir, src.name)] == st.files[src]
    ensures forall p :: p in st.files && p != src && p != Join(destDir, src.name) ==> p in r.files && r.files[p] == st.files[p]
    ensures forall p :: p in r.files && p != Join(destDir, src.name) ==> p in st.files
    ensures WellFormed(st) ==> WellFormed(r)
  {
    if dryRun || src !in st.files then st
    else
      var dst := Join(destDir, src.name);
      var st1 := MakeDirs(st, destDir);
      if dst in st1.files then
        var st2 := RemoveFile(st1, dst);
        if dst == src then st2 else MoveFile(st2, src, dst)
      else if AsDir(dst) in st1.dirs then st1
      else MoveFile(st1, src, dst)
  }

  // ---------------------------------------------------------------------
  // safe_delete

  /** What `safe_delete` returns: false only in execute mode, for a path
      that names a directory (`os.remove` refuses it). */
  predicate SafeDeleteOk(st: FsState, p: Path, dryRun: bool) {
    dryRun || p in st.files || AsDir(p) !in st.dirs
  }

  /** The state after `safe_delete(p, dry_run)`: in execute mode the file
      is gone and every other file is untouched; in dry-run mode nothing
      changes. */
  function SafeDeleteState(st: FsState, p: Path, dryRun: bool): (r: FsState)
    ensures dryRun ==> r == st
    ensures !dryRun ==> r.files == st.files - {p} && r.dirs == st.dirs
    ensures WellFormed(st) ==> WellFormed(r)
  {
    if !dryRun && p in st.files then RemoveFile(st, p) else st
  }

  /** The filesystem as an object whose state the primitives change. */
  class FileSystem {
    var files: map<Path, nat>
    var dirs: set<DirPath>

    function State(): FsState
      reads this
    {
      FsState(files, dirs)
    }

    constructor (st: FsState)
      ensures State() == st
    {
      files := st.files;
      dirs := st.dirs;
    }

    method SafeMove(src: Path, destDir: DirPath, dryRun: bool) returns (ok: bool)
      modifies this
      ensures ok == SafeMoveOk(old(State()), src, destDir)
      ensures State() == SafeMoveState(old(State()), src, destDir, dryRun)
    {
      if src !in files {
        return false;
      }
      var dst := Join(destDir, src.name);
      if dst in files || AsDir(dst) in dirs {
        return false;
      }
      if !dryRun {
        dirs := dirs + Ancestors(destDir);
        var size := files[src];
        files := (files - {src})[dst := size];
      }
      return true;
    }

    method ForceMove(src: Path, destDir: DirPath, dryRun: bool) returns (ok: bool)
      modifies this
      ensures ok == ForceMoveOk(old(State()), src, destDir, dryRun)
      ensures State() == ForceMoveState(old(State()), src, destDir, dryRun)
    {
      if src !in files {
        return false;
      }
      var dst := Join(destDir, src.name);
      if !dryRun {
        dirs := dirs + Ancestors(destDir);
        if dst in files {
          files := files - {dst};
        } else if AsDir(dst) in dirs {
          return false;
        }
        if src !in files {
          return false;
        }
        var size := files[src];
        files := (files - {src})[dst := size];
      }
      return true;
    }

    method SafeDelete(p: Path, dryRun: bool) returns (ok: bool)
      modifies this
      ensures ok == SafeDeleteOk(old(State()), p, dryRun)
      ensures State() == SafeDeleteState(old(State()), p, dryRun)
    {
      if !dryRun {
        if p in files {
          files := files - {p};
        } else if AsDir(p) in dirs {
          return false;
        }
      }
      return true;
    }

    /** `os.remove(p)` of an existing file. */
    method Remove(p: Path)
      requires p in files
      modifies this
      ensures State() == RemoveFile(old(State()), p)
    {
      files := files - {p};
    }

    /** `shutil.move(src, dst)` of an existing file, within one volume. */
    method Move(src: Path, dst: Path)
      requires src in files
      modifies this
      ensures State() == MoveFile(old(State()), src, dst)
    {
      var size := files[src];
      files := (files - {src})[dst := size];
    }

    /** `os.rmdir(d)` after `os.listdir(d)` found it empty. */
    method RemoveDirIfEmpty(d: DirPath)
      modifies this
      ensures State() == if d in old(dirs) && DirEmpty(old(State()), d) then FsState(old(files), old(dirs) - {d}) else old(State())
    {
      if d in dirs && DirEmpty(State(), d) {
        dirs := dirs - {d};
      }
    }
  }
}
