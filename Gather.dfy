/** The actions `process_consolidation` takes once a series has its target
    root `t`, whose series folder is `top`: per slot, either the deletion of
    the copies on other roots (when the target already holds one) or the
    move of the first copy with its companions followed by the deletion of
    the remaining ones; the forced moves of the artifacts from other roots;
    and the cleanup of the series folders left on the other roots. Each is a
    function of the state, and a method that applies it to the filesystem.
    The progress messages, including the one for an aborted move, are not
    modelled. */
module Gather {
  import opened Volumes
  import opened Inventory
  import opened Cleaner
  import opened Planning

  /** `[c for c in copies if c['disk'] == target_disk]`. */
  function OnTarget(cs: seq<EpisodeCopy>, t: Root): (r: seq<EpisodeCopy>)
    ensures forall m :: 0 <= m < |r| ==> r[m].disk == t
    ensures r == [] <==> forall m :: 0 <= m < |cs| ==> cs[m].disk != t
    decreases |cs|
  {
    if cs == [] then [] else (if cs[0].disk == t then [cs[0]] else []) + OnTarget(cs[1..], t)
  }

  /** `[c for c in copies if c['disk'] != target_disk]`. */
  function Others(cs: seq<EpisodeCopy>, t: Root): (r: seq<EpisodeCopy>)
    ensures forall m :: 0 <= m < |r| ==> r[m].disk != t && r[m] in cs
    ensures forall m :: 0 <= m < |cs| && cs[m].disk != t ==> cs[m] in r
    ensures (forall m :: 0 <= m < |cs| ==> cs[m].disk != t) ==> r == cs
    decreases |cs|
  {
    if cs == [] then [] else (if cs[0].disk != t then [cs[0]] else []) + Others(cs[1..], t)
  }

  /** What the inventory records of a copy is where the copy lies: its file
      and its companions are on its root, and no companion has the episode
      file's name. */
  predicate Placed(c: EpisodeCopy) {
    c.path.root == c.disk &&
    forall m :: 0 <= m < |c.companions| ==> c.companions[m].path.root == c.disk && c.companions[m].path.name != c.path.name
  }

  // ---------------------------------------------------------------------
  // The actions as functions of the state

  function DeleteCompanions(st: FsState, comps: seq<Companion>, dryRun: bool): FsState
    decreases |comps|
  {
    if comps == [] then st else DeleteCompanions(SafeDeleteState(st, comps[0].path, dryRun), comps[1..], dryRun)
  }

  /** `safe_delete` of a copy's file, then of each of its companions. */
  function DeleteCopy(st: FsState, c: EpisodeCopy, dryRun: bool): FsState {
    DeleteCompanions(SafeDeleteState(st, c.path, dryRun), c.companions, dryRun)
  }

  function DeleteCopies(st: FsState, cs: seq<EpisodeCopy>, dryRun: bool): FsState
    decreases |cs|
  {
    if cs == [] then st else DeleteCopies(DeleteCopy(st, cs[0], dryRun), cs[1..], dryRun)
  }

  /** `force_move` of each companion into `dest`. */
  function MoveCompanions(st: FsState, comps: seq<Companion>, dest: DirPath, dryRun: bool): FsState
    decreases |comps|
  {
    if comps == [] then st else MoveCompanions(ForceMoveState(st, comps[0].path, dest, dryRun), comps[1..], dest, dryRun)
  }

  /** One slot. With a copy on the target, the copies elsewhere are deleted.
      Otherwise the first copy is moved to its directory under `top` with
      `safe_move`; only when that succeeds are its companions moved there and
      the other copies deleted, and when it fails nothing happens. */
  function SlotState(st: FsState, copies: seq<EpisodeCopy>, t: Root, top: DirPath, dryRun: bool): FsState
    requires copies != []
  {
    var others := Others(copies, t);
    if OnTarget(copies, t) != [] then DeleteCopies(st, others, dryRun)
    else
      var src := others[0];
      var dest := SubDir(top, src.relDir);
      if SafeMoveOk(st, src.path, dest) then
        DeleteCopies(MoveCompanions(SafeMoveState(st, src.path, dest, dryRun), src.companions, dest, dryRun), others[1..], dryRun)
      else st
  }

  function SlotsState(st: FsState, slots: seq<Slot>, t: Root, top: DirPath, dryRun: bool): FsState
    requires Stocked(slots)
    decreases |slots|
  {
    if slots == [] then st else SlotsState(SlotState(st, slots[0].copies, t, top, dryRun), slots[1..], t, top, dryRun)
  }

  /** Every artifact on another root is force-moved to its directory under
      `top`. */
  function ArtifactsState(st: FsState, arts: seq<Artifact>, t: Root, top: DirPath, dryRun: bool): FsState
    decreases |arts|
  {
    if arts == [] then st
    else
      var st1 := if arts[0].disk != t then ForceMoveState(st, arts[0].path, SubDir(top, arts[0].relDir), dryRun) else st;
      ArtifactsState(st1, arts[1..], t, top, dryRun)
  }

  /** The series folder recorded for a root. */
  function FolderOn(d: DiskStat): DirPath { DirPath(d.root, [d.realFolder]) }

  /** `cleanup_folder_tree` of the series folder on every root but the
      target, in the order the roots were recorded. */
  function CleanupSources(st: FsState, disks: seq<DiskStat>, t: Root, walk: (FsState, DirPath) -> seq<WalkStep>, dryRun: bool): FsState
    decreases |disks|
  {
    if disks == [] then st
    else
      var st1 := if disks[0].root != t then CleanupState(st, FolderOn(disks[0]), walk(st, FolderOn(disks[0])), dryRun) else st;
      CleanupSources(st1, disks[1..], t, walk, dryRun)
  }

  // ---------------------------------------------------------------------
  // Dry-run mode changes nothing

  lemma {:induction false} DeleteCopiesDry(st: FsState, cs: seq<EpisodeCopy>)
    ensures DeleteCopies(st, cs, true) == st
    decreases |cs|
  {
    if cs != [] {
      DeleteCompanionsDry(st, cs[0].companions);
      DeleteCopiesDry(st, cs[1..]);
    }
  }

  lemma {:induction false} DeleteCompanionsDry(st: FsState, comps: seq<Companion>)
    ensures DeleteCompanions(st, comps, true) == st
    decreases |comps|
  {
    if comps != [] {
      DeleteCompanionsDry(st, comps[1..]);
    }
  }

  lemma {:induction false} MoveCompanionsDry(st: FsState, comps: seq<Companion>, dest: DirPath)
    ensures MoveCompanions(st, comps, dest, true) == st
    decreases |comps|
  {
    if comps != [] {
      MoveCompanionsDry(st, comps[1..], dest);
    }
  }

  lemma {:induction false} SlotsDry(st: FsState, slots: seq<Slot>, t: Root, top: DirPath)
    requires Stocked(slots)
    ensures SlotsState(st, slots, t, top, true) == st
    decreases |slots|
  {
    if slots != [] {
      var copies := slots[0].copies;
      var others := Others(copies, t);
      DeleteCopiesDry(st, others);
      if OnTarget(copies, t) == [] {
        MoveCompanionsDry(st, others[0].companions, SubDir(top, others[0].relDir));
        DeleteCopiesDry(st, others[1..]);
      }
      SlotsDry(st, slots[1..], t, top);
    }
  }

  lemma {:induction false} ArtifactsDry(st: FsState, arts: seq<Artifact>, t: Root, top: DirPath)
    ensures ArtifactsState(st, arts, t, top, true) == st
    decreases |arts|
  {
    if arts != [] {
      ArtifactsDry(st, arts[1..], t, top);
    }
  }

  lemma {:induction false} CleanupSourcesDry(st: FsState, disks: seq<DiskStat>, t: Root, walk: (FsState, DirPath) -> seq<WalkStep>)
    ensures CleanupSources(st, disks, t, walk, true) == st
    decreases |disks|
  {
    if disks != [] {
      CleanStepsFacts(st, FolderOn(disks[0]), walk(st, FolderOn(disks[0])), true);
      CleanupSourcesDry(st, disks[1..], t, walk);
    }
  }

  // ---------------------------------------------------------------------
  // What happens to the files on the target root

  /** The files on root `t` are the same in both states. */
  ghost predicate SameOn(st: FsState, r: FsState, t: Root) {
    forall p: Path :: p.root == t ==> (p in st.files <==> p in r.files) && (p in st.files ==> r.files[p] == st.files[p])
  }

  lemma {:induction false} DeleteCompanionsOff(st: FsState, comps: seq<Companion>, t: Root, dryRun: bool)
    requires forall m :: 0 <= m < |comps| ==> comps[m].path.root != t
    ensures SameOn(st, DeleteCompanions(st, comps, dryRun), t)
    decreases |comps|
  {
    if comps != [] {
      DeleteCompanionsOff(SafeDeleteState(st, comps[0].path, dryRun), comps[1..], t, dryRun);
    }
  }

  /** Deleting copies that lie on other roots leaves the target's files
      alone. */
  lemma {:induction false} DeleteCopiesOff(st: FsState, cs: seq<EpisodeCopy>, t: Root, dryRun: bool)
    requires forall m :: 0 <= m < |cs| ==> Placed(cs[m]) && cs[m].disk != t
    ensures SameOn(st, DeleteCopies(st, cs, dryRun), t)
    decreases |cs|
  {
    if cs != [] {
      var c := cs[0];
      var st1 := SafeDeleteState(st, c.path, dryRun);
      DeleteCompanionsOff(st1, c.companions, t, dryRun);
      DeleteCopiesOff(DeleteCopy(st, c, dryRun), cs[1..], t, dryRun);
    }
  }

  /** A slot that already has a copy on the target: only copies on other
      roots are deleted, so nothing on the target changes, in particular not
      the copy there. */
  lemma TargetCopyKept(st: FsState, copies: seq<EpisodeCopy>, t: Root, top: DirPath, dryRun: bool)
    requires copies != [] && OnTarget(copies, t) != []
    requires forall m :: 0 <= m < |copies| ==> Placed(copies[m])
    ensures SameOn(st, SlotState(st, copies, t, top, dryRun), t)
  {
    var others := Others(copies, t);
    forall m | 0 <= m < |others| ensures Placed(others[m]) && others[m].disk != t {
      var k :| 0 <= k < |copies| && copies[k] == others[m];
    }
    DeleteCopiesOff(st, others, t, dryRun);
  }

  /** Force-moving files other than `p` to names other than `p` keeps `p`. */
  lemma {:induction false} MoveCompanionsKeep(st: FsState, comps: seq<Companion>, dest: DirPath, dryRun: bool, p: Path)
    requires p in st.files
    requires forall m :: 0 <= m < |comps| ==> comps[m].path != p && Join(dest, comps[m].path.name) != p
    ensures var r := MoveCompanions(st, comps, dest, dryRun);
      p in r.files && r.files[p] == st.files[p]
    decreases |comps|
  {
    if comps != [] {
      var st1 := ForceMoveState(st, comps[0].path, dest, dryRun);
      MoveCompanionsKeep(st1, comps[1..], dest, dryRun, p);
    }
  }

  /** A slot without a copy on the target whose first copy can be moved: in
      execute mode its episode file ends up in its directory under the target
      folder with its size, and the companion moves and deletions that follow
      do not disturb it. */
  lemma EpisodeReachesTarget(st: FsState, copies: seq<EpisodeCopy>, t: Root, top: DirPath)
    requires copies != [] && OnTarget(copies, t) == [] && top.root == t
    requires forall m :: 0 <= m < |copies| ==> Placed(copies[m])
    requires SafeMoveOk(st, copies[0].path, SubDir(top, copies[0].relDir))
    ensures var dst := Join(SubDir(top, copies[0].relDir), copies[0].path.name);
      var r := SlotState(st, copies, t, top, false);
      dst in r.files && r.files[dst] == st.files[copies[0].path]
  {
    var others := Others(copies, t);
    assert others == copies;
    var src := copies[0];
    var dest := SubDir(top, src.relDir);
    var dst := Join(dest, src.path.name);
    var st1 := SafeMoveState(st, src.path, dest, false);
    MoveCompanionsKeep(st1, src.companions, dest, false, dst);
    var st2 := MoveCompanions(st1, src.companions, dest, false);
    DeleteCopiesOff(st2, others[1..], t, false);
  }

  /** When no copy is on the target and the first one cannot be moved, the
      slot is left as it is (the source only reports the aborted move). */
  lemma AbortedMoveChangesNothing(st: FsState, copies: seq<EpisodeCopy>, t: Root, top: DirPath, dryRun: bool)
    requires copies != [] && OnTarget(copies, t) == []
    requires !SafeMoveOk(st, copies[0].path, SubDir(top, copies[0].relDir))
    ensures SlotState(st, copies, t, top, dryRun) == st
  {
    assert Others(copies, t) == copies;
  }

  /** The cleanup of the other roots' folders never touches the target's
      files. */
  lemma {:induction false} CleanupSourcesOff(st: FsState, disks: seq<DiskStat>, t: Root, walk: (FsState, DirPath) -> seq<WalkStep>, dryRun: bool)
    ensures SameOn(st, CleanupSources(st, disks, t, walk, dryRun), t)
    decreases |disks|
  {
    if disks != [] {
      var d := disks[0];
      var st1 := if d.root != t then CleanupState(st, FolderOn(d), walk(st, FolderOn(d)), dryRun) else st;
      if d.root != t && FolderOn(d) in st.dirs {
        CleanStepsFacts(st, FolderOn(d), walk(st, FolderOn(d)), dryRun);
      }
      CleanupSourcesOff(st1, disks[1..], t, walk, dryRun);
    }
  }

  // ---------------------------------------------------------------------
  // What happens in execute mode

  /** A copy is gone: neither its file nor any of its companions is left. */
  ghost predicate Gone(st: FsState, c: EpisodeCopy) {
    c.path !in st.files && forall m :: 0 <= m < |c.companions| ==> c.companions[m].path !in st.files
  }

  lemma GoneShrink(st: FsState, r: FsState, c: EpisodeCopy)
    requires Gone(st, c) && r.files.Keys <= st.files.Keys
    ensures Gone(r, c)
  {
  }

  /** Deleting companions removes every one of them and creates nothing. */
  lemma {:induction false} DeleteCompanionsRemoves(st: FsState, comps: seq<Companion>)
    ensures var r := DeleteCompanions(st, comps, false);
      r.files.Keys <= st.files.Keys && forall m :: 0 <= m < |comps| ==> comps[m].path !in r.files
    decreases |comps|
  {
    if comps != [] {
      var st1 := SafeDeleteState(st, comps[0].path, false);
      DeleteCompanionsRemoves(st1, comps[1..]);
      forall m | 1 <= m < |comps| ensures comps[m].path !in DeleteCompanions(st, comps, false).files {
        assert comps[m] == comps[1..][m - 1];
      }
    }
  }

  /** In execute mode, deleting copies leaves each of them gone, with its
      companions, and creates no file. */
  lemma {:induction false} DeleteCopiesRemoves(st: FsState, cs: seq<EpisodeCopy>)
    ensures var r := DeleteCopies(st, cs, false);
      r.files.Keys <= st.files.Keys && forall c :: c in cs ==> Gone(r, c)
    decreases |cs|
  {
    if cs != [] {
      var st0 := SafeDeleteState(st, cs[0].path, false);
      var st1 := DeleteCopy(st, cs[0], false);
      DeleteCompanionsRemoves(st0, cs[0].companions);
      assert Gone(st1, cs[0]);
      DeleteCopiesRemoves(st1, cs[1..]);
      var r := DeleteCopies(st, cs, false);
      GoneShrink(st1, r, cs[0]);
      forall c | c in cs ensures Gone(r, c) {
        if c != cs[0] {
          assert c in cs[1..];
        }
      }
    }
  }

  /** A slot that already has a copy on the target: in execute mode every
      copy on another root is deleted, with all its companions. */
  lemma OthersDeleted(st: FsState, copies: seq<EpisodeCopy>, t: Root, top: DirPath)
    requires copies != [] && OnTarget(copies, t) != []
    ensures forall k :: 0 <= k < |copies| && copies[k].disk != t ==> Gone(SlotState(st, copies, t, top, false), copies[k])
  {
    DeleteCopiesRemoves(st, Others(copies, t));
  }

  /** A move into `dest` creates directories only above `dest`. */
  lemma MoveDirs(st: FsState, src: Path, dest: DirPath)
    ensures ForceMoveState(st, src, dest, false).dirs <= st.dirs + Ancestors(dest)
    ensures SafeMoveState(st, src, dest, false).dirs <= st.dirs + Ancestors(dest)
  {
  }

  /** A file `p` that `force_move` can bring into `dest`: it exists and no
      directory there has its name. */
  predicate CanArrive(st: FsState, p: Path, dest: DirPath) {
    p in st.files && AsDir(Join(dest, p.name)) !in st.dirs
  }

  /** A file `p` that exists, is no source of a move into `dest` and has a
      name the moved files do not take, keeps its size across the moves. */
  lemma {:induction false} MoveCompanionsFrom(st: FsState, comps: seq<Companion>, dest: DirPath, p: Path)
    requires forall m :: 0 <= m < |comps| ==> comps[m].path.root != dest.root
    requires CanArrive(st, p, dest) && p.root != dest.root
    requires forall m :: 0 <= m < |comps| ==> comps[m].path != p
    ensures var r := MoveCompanions(st, comps, dest, false);
      CanArrive(r, p, dest) && r.files[p] == st.files[p]
    decreases |comps|
  {
    if comps != [] {
      var st1 := ForceMoveState(st, comps[0].path, dest, false);
      MoveDirs(st, comps[0].path, dest);
      MoveCompanionsFrom(st1, comps[1..], dest, p);
    }
  }

  /** Companions with pairwise different names, moved from other roots into
      `dest`: each one that can arrive ends up there with its size. */
  lemma {:induction false} CompanionsArrive(st: FsState, comps: seq<Companion>, dest: DirPath, m: nat)
    requires forall j :: 0 <= j < |comps| ==> comps[j].path.root != dest.root
    requires forall i, j :: 0 <= i < j < |comps| ==> comps[i].path.name != comps[j].path.name
    requires m < |comps| && CanArrive(st, comps[m].path, dest)
    ensures var r := MoveCompanions(st, comps, dest, false);
      var dst := Join(dest, comps[m].path.name);
      dst in r.files && r.files[dst] == st.files[comps[m].path]
    decreases |comps|
  {
    var st1 := ForceMoveState(st, comps[0].path, dest, false);
    if m == 0 {
      MoveCompanionsKeep(st1, comps[1..], dest, false, Join(dest, comps[0].path.name));
    } else {
      MoveDirs(st, comps[0].path, dest);
      assert comps[m].path != comps[0].path;
      CompanionsArrive(st1, comps[1..], dest, m - 1);
    }
  }

  /** Moving files into `dest` creates files only on its root. */
  lemma {:induction false} MoveCompanionsOnDest(st: FsState, comps: seq<Companion>, dest: DirPath)
    ensures forall p :: p in MoveCompanions(st, comps, dest, false).files && p.root != dest.root ==> p in st.files
    decreases |comps|
  {
    if comps != [] {
      MoveCompanionsOnDest(ForceMoveState(st, comps[0].path, dest, false), comps[1..], dest);
    }
  }

  /** The companions of a copy have pairwise different names. */
  predicate DistinctCompanions(c: EpisodeCopy) {
    forall i, j :: 0 <= i < j < |c.companions| ==> c.companions[i].path.name != c.companions[j].path.name
  }

  /** What arrives when the slot's first copy is moved: the episode file with
      its size, and each companion that can arrive with its size. */
  ghost predicate Arrived(st: FsState, r: FsState, c: EpisodeCopy, dest: DirPath) {
    c.path in st.files && Join(dest, c.path.name) in r.files && r.files[Join(dest, c.path.name)] == st.files[c.path] &&
    forall m :: 0 <= m < |c.companions| && CanArrive(st, c.companions[m].path, dest) ==>
      Join(dest, c.companions[m].path.name) in r.files &&
      r.files[Join(dest, c.companions[m].path.name)] == st.files[c.companions[m].path]
  }

  /** A slot without a copy on the target whose first copy can be moved: in
      execute mode the episode file and its companions end up in its
      directory under the target folder with their sizes, the file is no
      longer at its old place, and every other copy is deleted with its
      companions. */
  lemma MoveCompletes(st: FsState, copies: seq<EpisodeCopy>, t: Root, top: DirPath)
    requires copies != [] && OnTarget(copies, t) == [] && top.root == t
    requires forall m :: 0 <= m < |copies| ==> Placed(copies[m])
    requires DistinctCompanions(copies[0])
    requires SafeMoveOk(st, copies[0].path, SubDir(top, copies[0].relDir))
    ensures var r := SlotState(st, copies, t, top, false);
      Arrived(st, r, copies[0], SubDir(top, copies[0].relDir)) && copies[0].path !in r.files &&
      forall k :: 1 <= k < |copies| ==> Gone(r, copies[k])
  {
    var others := Others(copies, t);
    assert others == copies;
    var src := copies[0];
    var dest := SubDir(top, src.relDir);
    var st1 := SafeMoveState(st, src.path, dest, false);
    var st2 := MoveCompanions(st1, src.companions, dest, false);
    var r := DeleteCopies(st2, others[1..], false);
    EpisodeReachesTarget(st, copies, t, top);
    MoveDirs(st, src.path, dest);
    forall m | 0 <= m < |src.companions| && CanArrive(st, src.companions[m].path, dest)
      ensures Join(dest, src.companions[m].path.name) in st2.files
      ensures st2.files[Join(dest, src.companions[m].path.name)] == st.files[src.companions[m].path]
    {
      CompanionsArrive(st1, src.companions, dest, m);
    }
    forall k | 0 <= k < |others[1..]| ensures Placed(others[1..][k]) && others[1..][k].disk != t {
      assert others[1..][k] == copies[k + 1];
    }
    DeleteCopiesOff(st2, others[1..], t, false);
    MoveCompanionsOnDest(st1, src.companions, dest);
    DeleteCopiesRemoves(st2, others[1..]);
    forall k | 1 <= k < |copies| ensures Gone(r, copies[k]) {
      assert copies[k] in others[1..];
    }
  }

  /** The place an artifact is force-moved to. */
  function ArtifactDest(a: Artifact, top: DirPath): DirPath { SubDir(top, a.relDir) }

  /** An artifact on another root, moved to a directory of the target: no
      later artifact of another root goes to the same place, and no earlier
      move creates a directory of its name. */
  ghost predicate FreeAt(arts: seq<Artifact>, i: nat, t: Root, top: DirPath)
    requires i < |arts|
  {
    var dst := Join(ArtifactDest(arts[i], top), arts[i].path.name);
    (forall j :: i < j < |arts| && arts[j].disk != t ==> Join(ArtifactDest(arts[j], top), arts[j].path.name) != dst) &&
    (forall j :: 0 <= j < i && arts[j].disk != t ==> AsDir(dst) !in Ancestors(ArtifactDest(arts[j], top)) && arts[j].path != arts[i].path)
  }

  /** A file on the target that no later move overwrites keeps its size. */
  lemma {:induction false} ArtifactsKeep(st: FsState, arts: seq<Artifact>, t: Root, top: DirPath, p: Path)
    requires top.root == t && p.root == t && p in st.files
    requires forall j :: 0 <= j < |arts| ==> arts[j].path.root == arts[j].disk
    requires forall j :: 0 <= j < |arts| && arts[j].disk != t ==> Join(ArtifactDest(arts[j], top), arts[j].path.name) != p
    ensures var r := ArtifactsState(st, arts, t, top, false);
      p in r.files && r.files[p] == st.files[p]
    decreases |arts|
  {
    if arts != [] {
      var st1 := if arts[0].disk != t then ForceMoveState(st, arts[0].path, ArtifactDest(arts[0], top), false) else st;
      ArtifactsKeep(st1, arts[1..], t, top, p);
    }
  }

  /** In execute mode an artifact on another root ends up in its directory
      under the target folder with its size, unless a later artifact is
      moved onto it or a directory of its name is in the way. */
  lemma {:induction false} ArtifactsArrive(st: FsState, arts: seq<Artifact>, t: Root, top: DirPath, i: nat)
    requires top.root == t
    requires forall j :: 0 <= j < |arts| ==> arts[j].path.root == arts[j].disk
    requires i < |arts| && arts[i].disk != t && CanArrive(st, arts[i].path, ArtifactDest(arts[i], top))
    requires FreeAt(arts, i, t, top)
    ensures var r := ArtifactsState(st, arts, t, top, false);
      var dst := Join(ArtifactDest(arts[i], top), arts[i].path.name);
      dst in r.files && r.files[dst] == st.files[arts[i].path]
    decreases |arts|
  {
    var a := arts[0];
    var st1 := if a.disk != t then ForceMoveState(st, a.path, ArtifactDest(a, top), false) else st;
    if i == 0 {
      ArtifactsKeep(st1, arts[1..], t, top, Join(ArtifactDest(a, top), a.path.name));
    } else {
      if a.disk != t {
        MoveDirs(st, a.path, ArtifactDest(a, top));
      }
      assert FreeAt(arts[1..], i - 1, t, top) by {
        forall j | 0 <= j < i - 1 && arts[1..][j].disk != t
          ensures arts[1..][j] == arts[j + 1]
        {
        }
      }
      ArtifactsArrive(st1, arts[1..], t, top, i - 1);
    }
  }

  // ---------------------------------------------------------------------
  // The actions applied to the filesystem

  method DeleteCopyFiles(fs: FileSystem, c: EpisodeCopy, dryRun: bool)
    modifies fs
    ensures fs.State() == DeleteCopy(old(fs.State()), c, dryRun)
  {
    var _ := fs.SafeDelete(c.path, dryRun);
    var m := 0;
    while m < |c.companions|
      invariant 0 <= m <= |c.companions|
      invariant DeleteCompanions(fs.State(), c.companions[m..], dryRun) == DeleteCopy(old(fs.State()), c, dryRun)
    {
      var _ := fs.SafeDelete(c.companions[m].path, dryRun);
      assert c.companions[m..][1..] == c.companions[m + 1..];
      m := m + 1;
    }
  }

  method DeleteCopiesIn(fs: FileSystem, cs: seq<EpisodeCopy>, dryRun: bool)
    modifies fs
    ensures fs.State() == DeleteCopies(old(fs.State()), cs, dryRun)
  {
    var i := 0;
    while i < |cs|
      invariant 0 <= i <= |cs|
      invariant DeleteCopies(fs.State(), cs[i..], dryRun) == DeleteCopies(old(fs.State()), cs, dryRun)
    {
      DeleteCopyFiles(fs, cs[i], dryRun);
      assert cs[i..][1..] == cs[i + 1..];
      i := i + 1;
    }
  }

  method MoveCompanionsIn(fs: FileSystem, comps: seq<Companion>, dest: DirPath, dryRun: bool)
    modifies fs
    ensures fs.State() == MoveCompanions(old(fs.State()), comps, dest, dryRun)
  {
    var m := 0;
    while m < |comps|
      invariant 0 <= m <= |comps|
      invariant MoveCompanions(fs.State(), comps[m..], dest, dryRun) == MoveCompanions(old(fs.State()), comps, dest, dryRun)
    {
      var _ := fs.ForceMove(comps[m].path, dest, dryRun);
      assert comps[m..][1..] == comps[m + 1..];
      m := m + 1;
    }
  }

  method ReconcileSlot(fs: FileSystem, copies: seq<EpisodeCopy>, t: Root, top: DirPath, dryRun: bool)
    requires copies != []
    modifies fs
    ensures fs.State() == SlotState(old(fs.State()), copies, t, top, dryRun)
  {
    var onTarget := OnTarget(copies, t);
    var others := Others(copies, t);
    if onTarget != [] {
      DeleteCopiesIn(fs, others, dryRun);
    } else {
      var src := others[0];
      var dest := SubDir(top, src.relDir);
      var moved := fs.SafeMove(src.path, dest, dryRun);
      if moved {
        MoveCompanionsIn(fs, src.companions, dest, dryRun);
        DeleteCopiesIn(fs, others[1..], dryRun);
      }
    }
  }

  method ReconcileSlots(fs: FileSystem, slots: seq<Slot>, t: Root, top: DirPath, dryRun: bool)
    requires Stocked(slots)
    modifies fs
    ensures fs.State() == SlotsState(old(fs.State()), slots, t, top, dryRun)
  {
    var i := 0;
    while i < |slots|
      invariant 0 <= i <= |slots|
      invariant SlotsState(fs.State(), slots[i..], t, top, dryRun) == SlotsState(old(fs.State()), slots, t, top, dryRun)
    {
      ReconcileSlot(fs, slots[i].copies, t, top, dryRun);
      assert slots[i..][1..] == slots[i + 1..];
      i := i + 1;
    }
  }

  method MoveArtifacts(fs: FileSystem, arts: seq<Artifact>, t: Root, top: DirPath, dryRun: bool)
    modifies fs
    ensures fs.State() == ArtifactsState(old(fs.State()), arts, t, top, dryRun)
  {
    var i := 0;
    while i < |arts|
      invariant 0 <= i <= |arts|
      invariant ArtifactsState(fs.State(), arts[i..], t, top, dryRun) == ArtifactsState(old(fs.State()), arts, t, top, dryRun)
    {
      if arts[i].disk != t {
        var _ := fs.ForceMove(arts[i].path, SubDir(top, arts[i].relDir), dryRun);
      }
      assert arts[i..][1..] == arts[i + 1..];
      i := i + 1;
    }
  }

  method CleanSources(fs: FileSystem, disks: seq<DiskStat>, t: Root, walk: (FsState, DirPath) -> seq<WalkStep>, dryRun: bool)
    modifies fs
    ensures fs.State() == CleanupSources(old(fs.State()), disks, t, walk, dryRun)
  {
    var i := 0;
    while i < |disks|
      invariant 0 <= i <= |disks|
      invariant CleanupSources(fs.State(), disks[i..], t, walk, dryRun) == CleanupSources(old(fs.State()), disks, t, walk, dryRun)
    {
      if disks[i].root != t {
        var folder := FolderOn(disks[i]);
        CleanupFolderTree(fs, folder, walk(fs.State(), folder), dryRun);
      }
      assert disks[i..][1..] == disks[i + 1..];
      i := i + 1;
    }
  }
}
