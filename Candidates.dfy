/** The scan of `scan_and_process` in the Radarr import tool: every search
    root is walked top-down, ignored folders are pruned, and each folder with
    exactly one movie file becomes an import, relink or rename candidate, an
    unidentified entry, or nothing; folders with several movie files are set
    aside as anomalies.

    The directory tree under each root is an input (`None` for a root that
    does not exist), and so are the two Radarr calls: `identify` for
    `identify_file_auto(file, folder)` and `renameNeeded` for
    `check_if_rename_needed(id)`. The Radarr database is the map `db` from
    TMDb id to the stored movie. Pruning and the movie-file test are the
    ignore-term tests of `Media` as the code runs them. */
module Candidates {
  import opened Optional
  import opened Text
  import opened Volumes
  import opened Media
  import SourceCleanup

  /** A folder as `os.walk` sees it: its name, its files and its
      sub-folders, each in listing order. */
  datatype Node = Node(name: string, files: seq<string>, subdirs: seq<Node>)

  /** One triple `(current_root, dirs, files)` of the walk. */
  datatype Visit = Visit(dir: DirPath, files: seq<string>)

  /** The walk below `d`, whose folder is `n`: the folder itself, then each
      sub-folder that is not pruned, in order. */
  function Walk(d: DirPath, n: Node): seq<Visit>
    decreases n, |n.subdirs| + 1
  {
    [Visit(d, n.files)] + WalkFrom(d, n, 0)
  }

  function WalkFrom(d: DirPath, n: Node, i: nat): seq<Visit>
    decreases n, |n.subdirs| - i
  {
    if i >= |n.subdirs| then []
    else
      var c := n.subdirs[i];
      (if PrunedAsWritten(c.name) then [] else Walk(SubDir(d, [c.name]), c)) + WalkFrom(d, n, i + 1)
  }

  /** No component of `d` below `top` is an ignored folder name. */
  predicate CleanBelow(top: DirPath, d: DirPath)
    requires |top.comps| <= |d.comps|
  {
    forall k :: |top.comps| <= k < |d.comps| ==> !PrunedAsWritten(d.comps[k])
  }

  predicate Below(top: DirPath, d: DirPath) {
    d.root == top.root && |top.comps| <= |d.comps| && d.comps[..|top.comps|] == top.comps && CleanBelow(top, d)
  }

  /** The walk never enters an ignored folder: every visited folder lies
      below the walked one through folders that are not ignored. */
  lemma {:induction false} WalkStaysClean(top: DirPath, d: DirPath, n: Node)
    requires Below(top, d)
    ensures forall v :: v in Walk(d, n) ==> Below(top, v.dir)
    decreases n, |n.subdirs| + 1
  {
    WalkFromStaysClean(top, d, n, 0);
  }

  lemma {:induction false} WalkFromStaysClean(top: DirPath, d: DirPath, n: Node, i: nat)
    requires Below(top, d)
    ensures forall v :: v in WalkFrom(d, n, i) ==> Below(top, v.dir)
    decreases n, |n.subdirs| - i
  {
    if i < |n.subdirs| {
      var c := n.subdirs[i];
      if !PrunedAsWritten(c.name) {
        var e := SubDir(d, [c.name]);
        assert e.comps[..|top.comps|] == top.comps;
        assert e.comps[|d.comps|] == c.name;
        assert forall k :: |top.comps| <= k < |d.comps| ==> e.comps[k] == d.comps[k];
        WalkStaysClean(top, e, c);
      }
      WalkFromStaysClean(top, d, n, i + 1);
    }
  }

  /** As written, the walk descends into a Synology `@eaDir` folder: a
      movies folder whose only sub-folder is `@eaDir` holding `a.mkv` is
      visited twice, and the second visit is the `@eaDir` folder. */
  lemma WalkEntersEaDir(d: DirPath)
    ensures var w := Walk(d, Node("Movies", [], [Node("@eaDir", ["a.mkv"], [])]));
      |w| == 2 && w[1] == Visit(SubDir(d, ["@eaDir"]), ["a.mkv"])
  {
    EaDirNotPrunedAsWritten();
  }

  // ---------------------------------------------------------------------
  // One folder

  /** `[f for f in files if f.lower().endswith(VIDEO_EXTS) and not any(...)]`. */
  function Movies(files: seq<string>): (r: seq<string>)
    ensures |r| <= |files|
    ensures forall x :: x in r <==> x in files && IsMovieFile(x)
  {
    if files == [] then []
    else (if IsMovieFile(files[0]) then [files[0]] else []) + Movies(files[1..])
  }

  /** `os.path.normpath` of a folder on the volume "/", as a string. */
  function PathStr(d: DirPath): string {
    if d.comps == [] then "/" else Slashed(d.comps)
  }

  function Slashed(comps: seq<string>): string
    decreases |comps|
  {
    if comps == [] then [] else "/" + comps[0] + Slashed(comps[1..])
  }

  /** The first search root whose normalised path is a string prefix of the
      folder's. */
  function TargetRoot(d: DirPath): (r: Option<DirPath>)
    ensures r.Some? ==> r.value in SourceCleanup.SEARCH_ROOTS && StartsWith(PathStr(d), PathStr(r.value))
  {
    var roots := SourceCleanup.SEARCH_ROOTS;
    if StartsWith(PathStr(d), PathStr(roots[0])) then Some(roots[0])
    else if StartsWith(PathStr(d), PathStr(roots[1])) then Some(roots[1])
    else None
  }

  datatype Kind = Import | Relink | Rename

  datatype DbMovie = DbMovie(id: int, hasFile: bool)

  /** What `identify_file_auto` returns of the movie it found. */
  datatype Parsed = Parsed(tmdbId: int, title: string, year: int)

  datatype Item = Item(tmdbId: int, title: string, year: int, currentPath: DirPath, targetRoot: DirPath,
                       fileName: string, kind: Kind, dbMovie: Option<DbMovie>)

  datatype Unidentified = Unidentified(file: string, folder: string, root: DirPath, target: DirPath)

  datatype Anomaly = Anomaly(dir: DirPath, videoCount: nat)

  datatype Scan = Scan(candidates: seq<Item>, unidentified: seq<Unidentified>, anomalies: seq<Anomaly>, processed: set<int>)

  /** The categorisation: a movie Radarr does not know is imported, a known
      movie without a file is relinked, a known movie with a file is renamed
      when Radarr asks for it, and otherwise nothing is done. */
  function Categorise(id: int, db: map<int, DbMovie>, renameNeeded: int -> bool): (k: Option<Kind>)
    ensures k == Some(Import) <==> id !in db
    ensures k == Some(Relink) <==> id in db && !db[id].hasFile
    ensures k == Some(Rename) <==> id in db && db[id].hasFile && renameNeeded(db[id].id)
  {
    if id !in db then Some(Import)
    else if !db[id].hasFile then Some(Relink)
    else if renameNeeded(db[id].id) then Some(Rename)
    else None
  }

  /** `os.path.basename(current_root)`: the walked root itself is given
      with a trailing slash, so its base name is empty. */
  function FolderName(top: DirPath, d: DirPath): string {
    if d == top || d.comps == [] then "" else d.comps[|d.comps| - 1]
  }

  /** The loop body for one visited folder of the walk of `top`. */
  function ScanVisit(sc: Scan, top: DirPath, v: Visit, identify: (string, string) -> Option<Parsed>,
                     db: map<int, DbMovie>, renameNeeded: int -> bool): Scan
  {
    var videos := Movies(v.files);
    if |videos| == 0 then sc
    else if |videos| > 1 then sc.(anomalies := sc.anomalies + [Anomaly(v.dir, |videos|)])
    else
      var video := videos[0];
      var folder := FolderName(top, v.dir);
      match TargetRoot(v.dir)
      case None => sc
      case Some(target) =>
        match identify(video, folder)
        case None => sc.(unidentified := sc.unidentified + [Unidentified(video, folder, v.dir, target)])
        case Some(parsed) =>
          var id := parsed.tmdbId;
          if id in sc.processed then sc
          else
            match Categorise(id, db, renameNeeded)
            case None => sc
            case Some(k) =>
              var item := Item(id, parsed.title, parsed.year, v.dir, target, video, k,
                               if id in db then Some(db[id]) else None);
              sc.(candidates := sc.candidates + [item], processed := sc.processed + {id})
  }

  function ScanVisits(sc: Scan, top: DirPath, visits: seq<Visit>, identify: (string, string) -> Option<Parsed>,
                      db: map<int, DbMovie>, renameNeeded: int -> bool): Scan
    decreases |visits|
  {
    if visits == [] then sc
    else ScanVisits(ScanVisit(sc, top, visits[0], identify, db, renameNeeded), top, visits[1..], identify, db, renameNeeded)
  }

  /** The roots from index `i` on: a root that does not exist is skipped. */
  function ScanRoots(sc: Scan, tree: DirPath -> Option<Node>, i: nat, identify: (string, string) -> Option<Parsed>,
                     db: map<int, DbMovie>, renameNeeded: int -> bool): Scan
    decreases |SourceCleanup.SEARCH_ROOTS| - i
  {
    if i >= |SourceCleanup.SEARCH_ROOTS| then sc
    else
      var top := SourceCleanup.SEARCH_ROOTS[i];
      var sc1 := match tree(top)
        case None => sc
        case Some(n) => ScanVisits(sc, top, Walk(top, n), identify, db, renameNeeded);
      ScanRoots(sc1, tree, i + 1, identify, db, renameNeeded)
  }

  /** `scan_and_process(db_map, qp_id)`: the candidates, the unidentified
      folders, the anomalies and the processed ids. */
  function ScanAll(tree: DirPath -> Option<Node>, identify: (string, string) -> Option<Parsed>,
                   db: map<int, DbMovie>, renameNeeded: int -> bool): Scan {
    ScanRoots(Scan([], [], [], {}), tree, 0, identify, db, renameNeeded)
  }

  // ---------------------------------------------------------------------
  // Properties

  /** What holds of the scan's lists at every step: each candidate is of
      the kind its database entry calls for and carries that entry, no
      movie is a candidate twice, the processed ids are exactly the
      candidates' ids, each candidate's file is a movie file and its target
      is a search root, and each anomaly counts more than one movie file. */
  ghost predicate ScanOk(sc: Scan, db: map<int, DbMovie>, renameNeeded: int -> bool) {
    var c := sc.candidates;
    (forall i :: 0 <= i < |c| ==>
      Categorise(c[i].tmdbId, db, renameNeeded) == Some(c[i].kind) &&
      c[i].dbMovie == (if c[i].tmdbId in db then Some(db[c[i].tmdbId]) else None) &&
      IsMovieFile(c[i].fileName) && c[i].targetRoot in SourceCleanup.SEARCH_ROOTS) &&
    (forall i, j :: 0 <= i < j < |c| ==> c[i].tmdbId != c[j].tmdbId) &&
    (forall id :: id in sc.processed <==> exists i :: 0 <= i < |c| && c[i].tmdbId == id) &&
    (forall i :: 0 <= i < |sc.anomalies| ==> sc.anomalies[i].videoCount > 1)
  }

  /** The only movie file of a folder is a movie file. */
  lemma SingleMovie(files: seq<string>)
    requires |Movies(files)| == 1
    ensures IsMovieFile(Movies(files)[0]) && Movies(files)[0] in files
  {
    assert Movies(files)[0] in Movies(files);
  }

  lemma ScanVisitOk(sc: Scan, top: DirPath, v: Visit, identify: (string, string) -> Option<Parsed>,
                    db: map<int, DbMovie>, renameNeeded: int -> bool)
    requires ScanOk(sc, db, renameNeeded)
    ensures ScanOk(ScanVisit(sc, top, v, identify, db, renameNeeded), db, renameNeeded)
  {
    var videos := Movies(v.files);
    var r := ScanVisit(sc, top, v, identify, db, renameNeeded);
    if |videos| > 1 {
      var a := Anomaly(v.dir, |videos|);
      AnomalyOk(sc, a, db, renameNeeded);
      assert r == sc.(anomalies := sc.anomalies + [a]);
    } else if |videos| == 1 {
      var target := TargetRoot(v.dir);
      var parsed := identify(videos[0], FolderName(top, v.dir));
      if target.Some? && parsed.None? {
        var u := Unidentified(videos[0], FolderName(top, v.dir), v.dir, target.value);
        UnidentifiedOk(sc, u, db, renameNeeded);
        assert r == sc.(unidentified := sc.unidentified + [u]);
      } else if target.Some? && parsed.Some? && parsed.value.tmdbId !in sc.processed {
        var id := parsed.value.tmdbId;
        var k := Categorise(id, db, renameNeeded);
        if k.Some? {
          var item := Item(id, parsed.value.title, parsed.value.year, v.dir, target.value, videos[0], k.value,
                           if id in db then Some(db[id]) else None);
          SingleMovie(v.files);
          AddCandidateOk(sc, item, db, renameNeeded);
          assert r == sc.(candidates := sc.candidates + [item], processed := sc.processed + {id});
        } else {
          assert r == sc;
        }
      } else {
        assert r == sc;
      }
    } else {
      assert r == sc;
    }
  }

  /** Recording a folder with several videos keeps the scan's invariant. */
  lemma AnomalyOk(sc: Scan, a: Anomaly, db: map<int, DbMovie>, renameNeeded: int -> bool)
    requires ScanOk(sc, db, renameNeeded) && a.videoCount > 1
    ensures ScanOk(sc.(anomalies := sc.anomalies + [a]), db, renameNeeded)
  {
    var an := sc.anomalies + [a];
    forall i | 0 <= i < |an| ensures an[i].videoCount > 1 {
      if i < |sc.anomalies| {
        assert an[i] == sc.anomalies[i];
      }
    }
  }

  /** Recording an unidentified video keeps the scan's invariant. */
  lemma UnidentifiedOk(sc: Scan, u: Unidentified, db: map<int, DbMovie>, renameNeeded: int -> bool)
    requires ScanOk(sc, db, renameNeeded)
    ensures ScanOk(sc.(unidentified := sc.unidentified + [u]), db, renameNeeded)
  {
    var sc' := sc.(unidentified := sc.unidentified + [u]);
    assert sc'.candidates == sc.candidates && sc'.anomalies == sc.anomalies && sc'.processed == sc.processed;
  }

  /** Adding a candidate of the right kind for an id not yet processed
      keeps the scan's lists consistent. */
  lemma AddCandidateOk(sc: Scan, item: Item, db: map<int, DbMovie>, renameNeeded: int -> bool)
    requires ScanOk(sc, db, renameNeeded) && item.tmdbId !in sc.processed
    requires Categorise(item.tmdbId, db, renameNeeded) == Some(item.kind)
    requires item.dbMovie == (if item.tmdbId in db then Some(db[item.tmdbId]) else None)
    requires IsMovieFile(item.fileName) && item.targetRoot in SourceCleanup.SEARCH_ROOTS
    ensures ScanOk(sc.(candidates := sc.candidates + [item], processed := sc.processed + {item.tmdbId}), db, renameNeeded)
  {
    var c := sc.candidates + [item];
    var n := |sc.candidates|;
    var id := item.tmdbId;
    forall id' ensures id' in sc.processed + {id} <==> exists i :: 0 <= i < |c| && c[i].tmdbId == id' {
      if id' in sc.processed {
        var i :| 0 <= i < n && sc.candidates[i].tmdbId == id';
        assert c[i] == sc.candidates[i];
      }
      if id' == id {
        assert c[n] == item;
      }
      if exists i :: 0 <= i < |c| && c[i].tmdbId == id' {
        var i :| 0 <= i < |c| && c[i].tmdbId == id';
        if i < n {
          assert c[i] == sc.candidates[i];
        }
      }
    }
    forall i, j | 0 <= i < j < |c| ensures c[i].tmdbId != c[j].tmdbId {
      if j == n {
        assert c[i] == sc.candidates[i];
      } else {
        assert c[i] == sc.candidates[i] && c[j] == sc.candidates[j];
      }
    }
  }

  lemma {:induction false} ScanVisitsOk(sc: Scan, top: DirPath, visits: seq<Visit>, identify: (string, string) -> Option<Parsed>,
                                        db: map<int, DbMovie>, renameNeeded: int -> bool)
    requires ScanOk(sc, db, renameNeeded)
    ensures ScanOk(ScanVisits(sc, top, visits, identify, db, renameNeeded), db, renameNeeded)
    decreases |visits|
  {
    if visits != [] {
      ScanVisitOk(sc, top, visits[0], identify, db, renameNeeded);
      ScanVisitsOk(ScanVisit(sc, top, visits[0], identify, db, renameNeeded), top, visits[1..], identify, db, renameNeeded);
    }
  }

  lemma {:induction false} ScanRootsOk(sc: Scan, tree: DirPath -> Option<Node>, i: nat, identify: (string, string) -> Option<Parsed>,
                                       db: map<int, DbMovie>, renameNeeded: int -> bool)
    requires ScanOk(sc, db, renameNeeded)
    ensures ScanOk(ScanRoots(sc, tree, i, identify, db, renameNeeded), db, renameNeeded)
    decreases |SourceCleanup.SEARCH_ROOTS| - i
  {
    if i < |SourceCleanup.SEARCH_ROOTS| {
      var top := SourceCleanup.SEARCH_ROOTS[i];
      var sc1 := match tree(top)
        case None => sc
        case Some(n) => ScanVisits(sc, top, Walk(top, n), identify, db, renameNeeded);
      if tree(top).Some? {
        ScanVisitsOk(sc, top, Walk(top, tree(top).value), identify, db, renameNeeded);
      }
      ScanRootsOk(sc1, tree, i + 1, identify, db, renameNeeded);
    }
  }

  /** The guarantees of the whole scan: every candidate has the kind its
      database entry calls for, no movie is a candidate twice, and the
      processed ids are exactly the candidates' ids. */
  lemma ScanAllOk(tree: DirPath -> Option<Node>, identify: (string, string) -> Option<Parsed>,
                  db: map<int, DbMovie>, renameNeeded: int -> bool)
    ensures ScanOk(ScanAll(tree, identify, db, renameNeeded), db, renameNeeded)
  {
    ScanRootsOk(Scan([], [], [], {}), tree, 0, identify, db, renameNeeded);
  }

  /** The slash form of a path below a folder extends the folder's. */
  lemma {:induction false} SlashedAppend(a: seq<string>, b: seq<string>)
    ensures Slashed(a + b) == Slashed(a) + Slashed(b)
    decreases |a|
  {
    if a != [] {
      var ab := a + b;
      assert ab != [] && ab[0] == a[0] && ab[1..] == a[1..] + b;
      SlashedAppend(a[1..], b);
      assert Slashed(ab) == "/" + ab[0] + Slashed(ab[1..]);
      assert Slashed(a) == "/" + a[0] + Slashed(a[1..]);
    } else {
      assert a + b == b;
    }
  }

  /** Every folder the walk of a search root visits gets that root as its
      target: with the two configured roots the string-prefix test never
      picks the wrong one, so the `if not target_root` branch is dead. */
  lemma TargetIsWalkedRoot(k: nat, d: DirPath)
    requires k < |SourceCleanup.SEARCH_ROOTS|
    requires Below(SourceCleanup.SEARCH_ROOTS[k], d)
    ensures TargetRoot(d) == Some(SourceCleanup.SEARCH_ROOTS[k])
  {
    var top := SourceCleanup.SEARCH_ROOTS[k];
    var rest := d.comps[|top.comps|..];
    assert d.comps == top.comps + rest;
    SlashedAppend(top.comps, rest);
    var s := PathStr(d);
    assert s == PathStr(top) + Slashed(rest);
    assert s[..|PathStr(top)|] == PathStr(top);
    // The normalised forms of the two roots are equally long and differ.
    var c0, c1 := SourceCleanup.SEARCH_ROOTS[0].comps, SourceCleanup.SEARCH_ROOTS[1].comps;
    assert c0[1..][1..] == [c0[2]] && c1[1..][1..] == [c1[2]];
    assert Slashed([c0[2]]) == "/" + c0[2] && Slashed([c1[2]]) == "/" + c1[2];
    assert PathStr(SourceCleanup.SEARCH_ROOTS[0])[8] != PathStr(SourceCleanup.SEARCH_ROOTS[1])[8];
  }

  /** Every folder of the walk of a search root has that root as target. */
  lemma WalkTargets(k: nat, n: Node)
    requires k < |SourceCleanup.SEARCH_ROOTS|
    ensures var top := SourceCleanup.SEARCH_ROOTS[k];
      forall v :: v in Walk(top, n) ==> TargetRoot(v.dir) == Some(top)
  {
    var top := SourceCleanup.SEARCH_ROOTS[k];
    assert top.comps[..|top.comps|] == top.comps;
    WalkStaysClean(top, top, n);
    forall v | v in Walk(top, n) ensures TargetRoot(v.dir) == Some(top) {
      TargetIsWalkedRoot(k, v.dir);
    }
  }

  // ---------------------------------------------------------------------
  // The procedure

  /** The target-root loop of the scan. */
  method FindTargetRoot(d: DirPath) returns (target: Option<DirPath>)
    ensures target == TargetRoot(d)
  {
    var roots := SourceCleanup.SEARCH_ROOTS;
    var norm := PathStr(d);
    var i := 0;
    while i < |roots|
      invariant 0 <= i <= |roots|
      invariant forall k :: 0 <= k < i ==> !StartsWith(norm, PathStr(roots[k]))
    {
      if StartsWith(norm, PathStr(roots[i])) {
        return Some(roots[i]);
      }
      i := i + 1;
    }
    return None;
  }

  /** `scan_and_process(db_map, qp_id)` as nested loops over the roots and
      the walk of each root. */
  method ScanAndProcess(tree: DirPath -> Option<Node>, identify: (string, string) -> Option<Parsed>,
                        db: map<int, DbMovie>, renameNeeded: int -> bool)
    returns (candidates: seq<Item>, unidentified: seq<Unidentified>, anomalies: seq<Anomaly>, processed: set<int>)
    ensures Scan(candidates, unidentified, anomalies, processed) == ScanAll(tree, identify, db, renameNeeded)
  {
    candidates, unidentified, anomalies, processed := [], [], [], {};
    var roots := SourceCleanup.SEARCH_ROOTS;
    var r := 0;
    while r < |roots|
      invariant 0 <= r <= |roots|
      invariant ScanRoots(Scan(candidates, unidentified, anomalies, processed), tree, r, identify, db, renameNeeded) ==
                ScanAll(tree, identify, db, renameNeeded)
    {
      var top := roots[r];
      var node := tree(top);
      if node.Some? {
        var visits := Walk(top, node.value);
        ghost var goal := ScanVisits(Scan(candidates, unidentified, anomalies, processed), top, visits, identify, db, renameNeeded);
        var i := 0;
        while i < |visits|
          invariant 0 <= i <= |visits|
          invariant ScanVisits(Scan(candidates, unidentified, anomalies, processed), top, visits[i..], identify, db, renameNeeded) == goal
        {
          var v := visits[i];
          var sc := ScanOne(Scan(candidates, unidentified, anomalies, processed), top, v, identify, db, renameNeeded);
          candidates, unidentified, anomalies, processed := sc.candidates, sc.unidentified, sc.anomalies, sc.processed;
          assert visits[i..][1..] == visits[i + 1..];
          i := i + 1;
        }
      }
      r := r + 1;
    }
  }

  /** The loop body for one visited folder. */
  method ScanOne(sc: Scan, top: DirPath, v: Visit, identify: (string, string) -> Option<Parsed>,
                 db: map<int, DbMovie>, renameNeeded: int -> bool) returns (r: Scan)
    ensures r == ScanVisit(sc, top, v, identify, db, renameNeeded)
  {
    var videos := Movies(v.files);
    if |videos| == 0 {
      return sc;
    }
    if |videos| > 1 {
      return sc.(anomalies := sc.anomalies + [Anomaly(v.dir, |videos|)]);
    }
    var video := videos[0];
    var folder := FolderName(top, v.dir);
    var target := FindTargetRoot(v.dir);
    if target.None? {
      return sc;
    }
    var parsed := identify(video, folder);
    if parsed.None? {
      return sc.(unidentified := sc.unidentified + [Unidentified(video, folder, v.dir, target.value)]);
    }
    var id := parsed.value.tmdbId;
    if id in sc.processed {
      return sc;
    }
    var kind: Kind;
    if id !in db {
      kind := Import;
    } else if !db[id].hasFile {
      kind := Relink;
    } else if renameNeeded(db[id].id) {
      kind := Rename;
    } else {
      return sc;
    }
    var item := Item(id, parsed.value.title, parsed.value.year, v.dir, target.value, video, kind,
                     if id in db then Some(db[id]) else None);
    return sc.(candidates := sc.candidates + [item], processed := sc.processed + {id});
  }
}
