/** `manual_rename_extras_destination` of the Radarr import tool: in a movie
    folder, the largest video file is taken as the movie, and subtitles and
    other extras are renamed after it, keeping a language or similar suffix
    such as `.eng` or `_forced`.

    The listing `os.listdir` gives is an input, in its order, as is the size
    `os.path.getsize` reports for a directory. A failing `os.path.getsize`
    (a listed name that is neither a file nor a directory) propagates out of
    the function, as does `os.listdir` on a path that is a file; the model
    reports that as no result. */
module Extras {
  import opened Optional
  import opened Text
  import opened Volumes
  import opened Media

  const EXTRA_EXTS: seq<string> := [".srt", ".sub", ".idx", ".nfo", ".txt", ".jpg", ".png", ".jpeg"]

  /** The words of the suffix group besides two or three letters. */
  const SUFFIX_WORDS: seq<string> := ["english", "french", "german", "spanish", "italian", "forced", "sdh", "cc"]

  /** `os.path.getsize(os.path.join(folder, f))`, `None` when it raises. */
  function SizeOf(st: FsState, folder: DirPath, f: string, dirSize: DirPath -> nat): Option<nat> {
    var p := Join(folder, f);
    if p in st.files then Some(st.files[p])
    else if AsDir(p) in st.dirs then Some(dirSize(AsDir(p)))
    else None
  }

  /** The size of a name whose size can be read. */
  function Sz(st: FsState, folder: DirPath, f: string, dirSize: DirPath -> nat): nat {
    match SizeOf(st, folder, f, dirSize)
    case None => 0
    case Some(n) => n
  }

  /** The running maximum of the first loop: `video_file` and `max_size`. */
  datatype Pick = Pick(video: Option<string>, maxSize: nat)

  function PickFrom(st: FsState, folder: DirPath, names: seq<string>, dirSize: DirPath -> nat, i: nat, acc: Pick): Option<Pick>
    decreases |names| - i
  {
    if i >= |names| then Some(acc)
    else if !IsMovieFile(names[i]) then PickFrom(st, folder, names, dirSize, i + 1, acc)
    else
      match SizeOf(st, folder, names[i], dirSize)
      case None => None
      case Some(size) =>
        PickFrom(st, folder, names, dirSize, i + 1, if size > acc.maxSize then Pick(Some(names[i]), size) else acc)
  }

  /** The first loop, from `video_file = None` and `max_size = 0`. */
  function MainVideo(st: FsState, folder: DirPath, names: seq<string>, dirSize: DirPath -> nat): Option<Pick> {
    PickFrom(st, folder, names, dirSize, 0, Pick(None, 0))
  }

  /** `pick` is the first strictly largest candidate among `names[..i]`, with
      its size; no pick, with size 0, when no candidate there has a positive
      size. */
  ghost predicate FirstLargest(st: FsState, folder: DirPath, names: seq<string>, dirSize: DirPath -> nat, i: nat, pick: Pick) {
    i <= |names| &&
    (forall j :: 0 <= j < i && IsMovieFile(names[j]) ==> Sz(st, folder, names[j], dirSize) <= pick.maxSize) &&
    (pick.video.None? ==> pick.maxSize == 0) &&
    (pick.video.Some? ==>
      pick.maxSize > 0 &&
      exists k :: 0 <= k < i && names[k] == pick.video.value && IsMovieFile(names[k]) &&
        Sz(st, folder, names[k], dirSize) == pick.maxSize &&
        forall j :: 0 <= j < k && IsMovieFile(names[j]) ==> Sz(st, folder, names[j], dirSize) < pick.maxSize)
  }

  /** Every candidate's size can be read. */
  predicate AllSized(st: FsState, folder: DirPath, names: seq<string>, dirSize: DirPath -> nat, i: nat) {
    forall j :: i <= j < |names| && IsMovieFile(names[j]) ==> SizeOf(st, folder, names[j], dirSize).Some?
  }

  lemma {:induction false} PickFromCorrect(st: FsState, folder: DirPath, names: seq<string>, dirSize: DirPath -> nat, i: nat, acc: Pick)
    requires FirstLargest(st, folder, names, dirSize, i, acc)
    ensures var r := PickFrom(st, folder, names, dirSize, i, acc);
      (r.Some? <==> AllSized(st, folder, names, dirSize, i)) &&
      (r.Some? ==> FirstLargest(st, folder, names, dirSize, |names|, r.value))
  {
    PickFromSome(st, folder, names, dirSize, i, acc);
    PickFromLargest(st, folder, names, dirSize, i, acc);
  }

  /** The first loop ends normally exactly when every candidate's size from
      `i` on can be read. */
  lemma {:induction false} PickFromSome(st: FsState, folder: DirPath, names: seq<string>, dirSize: DirPath -> nat, i: nat, acc: Pick)
    ensures PickFrom(st, folder, names, dirSize, i, acc).Some? <==> AllSized(st, folder, names, dirSize, i)
    decreases |names| - i
  {
    if i < |names| {
      var f := names[i];
      AllSizedStep(st, folder, names, dirSize, i);
      if !IsMovieFile(f) {
        PickFromSome(st, folder, names, dirSize, i + 1, acc);
      } else if SizeOf(st, folder, f, dirSize).Some? {
        var size := SizeOf(st, folder, f, dirSize).value;
        PickFromSome(st, folder, names, dirSize, i + 1, if size > acc.maxSize then Pick(Some(f), size) else acc);
      }
    }
  }

  /** When it ends normally, the first loop has found the first largest
      candidate. */
  lemma {:induction false} PickFromLargest(st: FsState, folder: DirPath, names: seq<string>, dirSize: DirPath -> nat, i: nat, acc: Pick)
    requires FirstLargest(st, folder, names, dirSize, i, acc)
    ensures var r := PickFrom(st, folder, names, dirSize, i, acc);
      r.Some? ==> FirstLargest(st, folder, names, dirSize, |names|, r.value)
    decreases |names| - i, 1
  {
    if i < |names| {
      if !IsMovieFile(names[i]) {
        LargestSkip(st, folder, names, dirSize, i, acc);
      } else if SizeOf(st, folder, names[i], dirSize).Some? {
        LargestTake(st, folder, names, dirSize, i, acc);
      }
    }
  }

  lemma {:induction false} LargestSkip(st: FsState, folder: DirPath, names: seq<string>, dirSize: DirPath -> nat, i: nat, acc: Pick)
    requires FirstLargest(st, folder, names, dirSize, i, acc)
    requires i < |names| && !IsMovieFile(names[i])
    ensures var r := PickFrom(st, folder, names, dirSize, i, acc);
      r.Some? ==> FirstLargest(st, folder, names, dirSize, |names|, r.value)
    decreases |names| - i, 0
  {
    SkipStep(st, folder, names, dirSize, i, acc);
    PickFromLargest(st, folder, names, dirSize, i + 1, acc);
    assert PickFrom(st, folder, names, dirSize, i, acc) == PickFrom(st, folder, names, dirSize, i + 1, acc);
  }

  lemma {:induction false} LargestTake(st: FsState, folder: DirPath, names: seq<string>, dirSize: DirPath -> nat, i: nat, acc: Pick)
    requires FirstLargest(st, folder, names, dirSize, i, acc)
    requires i < |names| && IsMovieFile(names[i]) && SizeOf(st, folder, names[i], dirSize).Some?
    ensures var r := PickFrom(st, folder, names, dirSize, i, acc);
      r.Some? ==> FirstLargest(st, folder, names, dirSize, |names|, r.value)
    decreases |names| - i, 0
  {
    var size := SizeOf(st, folder, names[i], dirSize).value;
    var acc' := if size > acc.maxSize then Pick(Some(names[i]), size) else acc;
    PickStep(st, folder, names, dirSize, i, acc);
    PickFromLargest(st, folder, names, dirSize, i + 1, acc');
    assert PickFrom(st, folder, names, dirSize, i, acc) == PickFrom(st, folder, names, dirSize, i + 1, acc');
  }

  lemma AllSizedStep(st: FsState, folder: DirPath, names: seq<string>, dirSize: DirPath -> nat, i: nat)
    requires i < |names|
    ensures AllSized(st, folder, names, dirSize, i) <==>
      (IsMovieFile(names[i]) ==> SizeOf(st, folder, names[i], dirSize).Some?) && AllSized(st, folder, names, dirSize, i + 1)
  {
  }

  lemma SkipStep(st: FsState, folder: DirPath, names: seq<string>, dirSize: DirPath -> nat, i: nat, acc: Pick)
    requires FirstLargest(st, folder, names, dirSize, i, acc)
    requires i < |names| && !IsMovieFile(names[i])
    ensures FirstLargest(st, folder, names, dirSize, i + 1, acc)
  {
    if acc.video.Some? {
      var k :| 0 <= k < i && names[k] == acc.video.value && IsMovieFile(names[k]) &&
        Sz(st, folder, names[k], dirSize) == acc.maxSize &&
        forall j :: 0 <= j < k && IsMovieFile(names[j]) ==> Sz(st, folder, names[j], dirSize) < acc.maxSize;
      assert k < i + 1;
    }
  }

  /** One pass of the first loop keeps the running maximum the first
      strictly largest candidate seen so far. */
  lemma PickStep(st: FsState, folder: DirPath, names: seq<string>, dirSize: DirPath -> nat, i: nat, acc: Pick)
    requires FirstLargest(st, folder, names, dirSize, i, acc)
    requires i < |names| && IsMovieFile(names[i]) && SizeOf(st, folder, names[i], dirSize).Some?
    ensures var size := SizeOf(st, folder, names[i], dirSize).value;
      FirstLargest(st, folder, names, dirSize, i + 1, if size > acc.maxSize then Pick(Some(names[i]), size) else acc)
  {
    var size := SizeOf(st, folder, names[i], dirSize).value;
    assert Sz(st, folder, names[i], dirSize) == size;
    if size <= acc.maxSize && acc.video.Some? {
      var k :| 0 <= k < i && names[k] == acc.video.value && IsMovieFile(names[k]) &&
        Sz(st, folder, names[k], dirSize) == acc.maxSize &&
        forall j :: 0 <= j < k && IsMovieFile(names[j]) ==> Sz(st, folder, names[j], dirSize) < acc.maxSize;
      assert k < i + 1;
    }
  }

  /** The main video: the first loop fails exactly when some candidate's
      size cannot be read; otherwise it finds the first strictly largest
      candidate, or none when no candidate has a positive size. */
  lemma MainVideoCorrect(st: FsState, folder: DirPath, names: seq<string>, dirSize: DirPath -> nat)
    ensures var r := MainVideo(st, folder, names, dirSize);
      (r.Some? <==> AllSized(st, folder, names, dirSize, 0)) &&
      (r.Some? ==> FirstLargest(st, folder, names, dirSize, |names|, r.value))
  {
    PickFromCorrect(st, folder, names, dirSize, 0, Pick(None, 0));
  }

  // ---------------------------------------------------------------------
  // The suffix pattern `([._-])([a-z]{2,3}|english|...|cc)$`, case ignored

  predicate IsLetter(c: char) { IsUpper(c) || IsLowerLetter(c) }

  /** The second group, which `$` makes run to the end of the stem. */
  predicate SuffixWord(w: string) {
    (2 <= |w| <= 3 && forall k :: 0 <= k < |w| ==> IsLetter(w[k])) || LowerStr(w) in SUFFIX_WORDS
  }

  /** The pattern matches at `p`. */
  predicate SuffixAt(s: string, p: nat) {
    p < |s| && (s[p] == '.' || s[p] == '_' || s[p] == '-') && SuffixWord(s[p + 1..])
  }

  /** `re.search` from `p`: the leftmost position where the pattern
      matches. */
  function FirstSuffix(s: string, p: nat): (r: Option<nat>)
    requires p <= |s|
    ensures r.Some? ==> p <= r.value < |s| && SuffixAt(s, r.value)
    ensures r.Some? ==> forall q :: p <= q < r.value ==> !SuffixAt(s, q)
    ensures r.None? ==> forall q :: p <= q < |s| ==> !SuffixAt(s, q)
    decreases |s| - p
  {
    if p == |s| then None
    else if SuffixAt(s, p) then Some(p)
    else FirstSuffix(s, p + 1)
  }

  /** The new name of the extra `f` after the video stem `stem`: the stem,
      the suffix the pattern found in `f`'s own stem (in its own letter case)
      after a dot, then `f`'s extension. */
  function NewName(stem: string, f: string): string {
    var parts := SplitExt(f);
    match FirstSuffix(parts.0, 0)
    case Some(p) => stem + "." + parts.0[p + 1..] + parts.1
    case None => stem + parts.1
  }

  /** A new name begins with the video stem and ends with the extra's
      extension; with a suffix, the dot and the suffix sit between them. */
  lemma NewNameShape(stem: string, f: string)
    ensures var n := NewName(stem, f); var parts := SplitExt(f);
      StartsWith(n, stem) && EndsWith(n, parts.1) &&
      (FirstSuffix(parts.0, 0).Some? ==>
        (|n| > |stem| + |parts.1| && n[|stem|] == '.' && SuffixWord(n[|stem| + 1..|n| - |parts.1|])))
  {
    var parts := SplitExt(f);
    match FirstSuffix(parts.0, 0)
    case Some(p) =>
      SuffixedShape(stem, parts.0[p + 1..], parts.1);
    case None =>
      PlainShape(stem, parts.1);
  }

  lemma SuffixedShape(stem: string, w: string, e: string)
    ensures var n := stem + "." + w + e;
      StartsWith(n, stem) && EndsWith(n, e) && |n| > |stem| + |e| && n[|stem|] == '.' && n[|stem| + 1..|n| - |e|] == w
  {
    var n := stem + "." + w + e;
    assert n[..|stem|] == stem;
    assert n[|n| - |e|..] == e;
    assert n[|stem| + 1..|n| - |e|] == w;
  }

  lemma PlainShape(stem: string, e: string)
    ensures StartsWith(stem + e, stem) && EndsWith(stem + e, e)
  {
    assert (stem + e)[..|stem|] == stem;
    assert (stem + e)[|stem + e| - |e|..] == e;
  }

  /** The extras loop acts on `f`: not the video, an extra extension, and
      not already named after the stem. */
  predicate ToRename(video: string, stem: string, f: string) {
    f != video && LowerStr(SplitExt(f).1) in EXTRA_EXTS && !StartsWith(f, stem)
  }

  /** The state after the extras loop body for `f`: the file is renamed when
      nothing of the new name exists; a failing rename (no such file) is
      swallowed. */
  function RenameStep(st: FsState, folder: DirPath, video: string, stem: string, f: string): FsState {
    var oldFull := Join(folder, f);
    var newFull := Join(folder, NewName(stem, f));
    if ToRename(video, stem, f) && !Exists(st, newFull) && oldFull in st.files then MoveFile(st, oldFull, newFull) else st
  }

  function RenameAll(st: FsState, folder: DirPath, video: string, stem: string, names: seq<string>): FsState
    decreases |names|
  {
    if names == [] then st
    else RenameAll(RenameStep(st, folder, video, stem, names[0]), folder, video, stem, names[1..])
  }

  /** `folder` names an existing file rather than a directory. */
  predicate IsFileAt(st: FsState, d: DirPath) {
    |d.comps| > 0 && Path(d.root, d.comps[..|d.comps| - 1], d.comps[|d.comps| - 1]) in st.files
  }

  /** The state after `manual_rename_extras_destination(folder)`, or `None`
      when it raises. */
  function RenameExtras(st: FsState, folder: DirPath, names: seq<string>, dirSize: DirPath -> nat): Option<FsState> {
    if folder !in st.dirs then (if IsFileAt(st, folder) then None else Some(st))
    else
      match MainVideo(st, folder, names, dirSize)
      case None => None
      case Some(pick) =>
        match pick.video
        case None => Some(st)
        case Some(v) => Some(RenameAll(st, folder, v, SplitExt(v).0, names))
  }

  // ---------------------------------------------------------------------
  // Properties of the renaming

  /** Renaming `a` to a free name `b` keeps the number of files. */
  lemma MoveKeepsCount(m: map<Path, nat>, a: Path, b: Path)
    requires a in m && b !in m
    ensures |((m - {a})[b := m[a]]).Keys| == |m.Keys|
  {
    assert ((m - {a})[b := m[a]]).Keys == (m.Keys - {a}) + {b};
  }

  /** The extras loop never overwrites: no file that existed before changes
      its size, a file that disappears is a listed extra of the folder, every
      new file is the new name of a listed extra, the number of files stays
      the same and the directories are untouched. */
  lemma {:induction false} RenameAllFacts(st: FsState, folder: DirPath, video: string, stem: string, names: seq<string>)
    ensures var r := RenameAll(st, folder, video, stem, names);
      r.dirs == st.dirs &&
      |r.files.Keys| == |st.files.Keys| &&
      (forall p :: p in st.files && p in r.files ==> r.files[p] == st.files[p]) &&
      (forall p :: p in st.files && p !in r.files ==> DirOf(p) == folder && p.name in names && ToRename(video, stem, p.name)) &&
      (forall q :: q in r.files && q !in st.files ==>
        DirOf(q) == folder && StartsWith(q.name, stem) &&
        exists f :: f in names && ToRename(video, stem, f) && q.name == NewName(stem, f)) &&
      (WellFormed(st) ==> WellFormed(r))
    decreases |names|
  {
    if names != [] {
      var f := names[0];
      var st1 := RenameStep(st, folder, video, stem, f);
      RenameStepFacts(st, folder, video, stem, f);
      RenameAllFacts(st1, folder, video, stem, names[1..]);
      var r := RenameAll(st1, folder, video, stem, names[1..]);
      forall p | p in st.files && p in r.files ensures r.files[p] == st.files[p] {
        RenameAllKept(st, st1, r, folder, video, stem, f, p);
      }
      forall p | p in st.files && p !in r.files
        ensures DirOf(p) == folder && p.name in names && ToRename(video, stem, p.name)
      {
        if p in st1.files {
          assert p.name in names[1..];
        }
      }
      forall q | q in r.files && q !in st.files
        ensures DirOf(q) == folder && StartsWith(q.name, stem)
        ensures exists g :: g in names && ToRename(video, stem, g) && q.name == NewName(stem, g)
      {
        if q in st1.files {
          assert q.name == NewName(stem, f);
        } else {
          var g :| g in names[1..] && ToRename(video, stem, g) && q.name == NewName(stem, g);
          assert g in names;
        }
      }
    }
  }

  /** One rename: only the extra itself leaves, only its new name, which
      begins with the stem and was free, arrives. */
  lemma RenameStepFacts(st: FsState, folder: DirPath, video: string, stem: string, f: string)
    ensures var r := RenameStep(st, folder, video, stem, f); var full := Join(folder, f);
      r.dirs == st.dirs &&
      |r.files.Keys| == |st.files.Keys| &&
      (forall p :: p in st.files && p != full ==> p in r.files && r.files[p] == st.files[p]) &&
      (full in st.files && full !in r.files ==> ToRename(video, stem, f)) &&
      (forall q :: q in r.files && q !in st.files ==>
        q == Join(folder, NewName(stem, f)) && ToRename(video, stem, f) && StartsWith(q.name, stem)) &&
      (WellFormed(st) ==> WellFormed(r))
  {
    var oldFull := Join(folder, f);
    var newFull := Join(folder, NewName(stem, f));
    NewNameShape(stem, f);
    if RenameStep(st, folder, video, stem, f) != st {
      MoveKeepsCount(st.files, oldFull, newFull);
    }
  }

  /** A file present before and after the sweep has kept its size: if the
      first rename moved it away, nothing named after the stem can bring it
      back, since its own name does not begin with the stem. */
  lemma RenameAllKept(st: FsState, st1: FsState, r: FsState, folder: DirPath, video: string, stem: string, f: string, p: Path)
    requires st1 == RenameStep(st, folder, video, stem, f)
    requires forall p :: p in st.files && p != Join(folder, f) ==> p in st1.files && st1.files[p] == st.files[p]
    requires forall p :: p in st1.files && p in r.files ==> r.files[p] == st1.files[p]
    requires forall q :: q in r.files && q !in st1.files ==> StartsWith(q.name, stem)
    requires p in st.files && p in r.files
    ensures r.files[p] == st.files[p]
  {
  }

  /** No name is listed twice, as in a directory listing. */
  predicate Distinct(names: seq<string>) {
    forall i, j :: 0 <= i < j < |names| ==> names[i] != names[j]
  }

  /** The extras loop does rename, the first listed extra taking a shared
      name: the extra at position `i` that exists, whose new name is free at
      the start and is the new name of no earlier listed extra that exists,
      ends under its new name with its size, and its old name is gone; every
      later listed extra with the same new name keeps its old name and its
      size, since `os.path.exists(new_full)` then holds. */
  lemma {:induction false} ExtraRenamed(st: FsState, folder: DirPath, video: string, stem: string, names: seq<string>, i: nat)
    requires Distinct(names) && i < |names|
    requires FirstToTake(st, folder, video, stem, names, i)
    ensures RenamedTo(st, RenameAll(st, folder, video, stem, names), folder, stem, names[i])
    ensures LaterStay(st, RenameAll(st, folder, video, stem, names), folder, video, stem, names, i)
    decreases |names|, 1
  {
    if i == 0 {
      FirstTakes(st, folder, video, stem, names);
    } else {
      var st1 := RenameStep(st, folder, video, stem, names[0]);
      EarlierStep(st, folder, video, stem, names, i);
      DistinctTail(names);
      TailRenamed(st1, folder, video, stem, names, i);
      ShiftBack(st, folder, video, stem, names, i);
    }
  }

  /** `ExtraRenamed` for position `i - 1` of the tail of `names`. */
  lemma TailRenamed(st: FsState, folder: DirPath, video: string, stem: string, names: seq<string>, i: nat)
    requires 0 < i < |names| && Distinct(names[1..])
    requires FirstToTake(st, folder, video, stem, names[1..], i - 1)
    ensures RenamedTo(st, RenameAll(st, folder, video, stem, names[1..]), folder, stem, names[1..][i - 1])
    ensures LaterStay(st, RenameAll(st, folder, video, stem, names[1..]), folder, video, stem, names[1..], i - 1)
    decreases |names|, 0
  {
    ExtraRenamed(st, folder, video, stem, names[1..], i - 1);
  }

  /** What the loop from the second extra on does for position `i - 1` of
      the tail, the whole loop does for position `i`. */
  lemma ShiftBack(st: FsState, folder: DirPath, video: string, stem: string, names: seq<string>, i: nat)
    requires Distinct(names) && 0 < i < |names|
    requires FirstToTake(st, folder, video, stem, names, i)
    requires var st1 := RenameStep(st, folder, video, stem, names[0]);
      RenamedTo(st1, RenameAll(st1, folder, video, stem, names[1..]), folder, stem, names[1..][i - 1]) &&
      LaterStay(st1, RenameAll(st1, folder, video, stem, names[1..]), folder, video, stem, names[1..], i - 1)
    ensures RenamedTo(st, RenameAll(st, folder, video, stem, names), folder, stem, names[i])
    ensures LaterStay(st, RenameAll(st, folder, video, stem, names), folder, video, stem, names, i)
  {
    var st1 := RenameStep(st, folder, video, stem, names[0]);
    var r := RenameAll(st1, folder, video, stem, names[1..]);
    EarlierStep(st, folder, video, stem, names, i);
    assert names[1..][i - 1] == names[i];
    assert RenameAll(st, folder, video, stem, names) == r;
    LaterStayBack(st, st1, r, folder, video, stem, names, i);
  }

  /** The extra at position `i` exists, its new name is free, and no
      earlier listed extra that exists has the same new name. */
  predicate FirstToTake(st: FsState, folder: DirPath, video: string, stem: string, names: seq<string>, i: nat)
    requires i < |names|
  {
    ToRename(video, stem, names[i]) && Join(folder, names[i]) in st.files && !Exists(st, Join(folder, NewName(stem, names[i]))) &&
    NoEarlierTaker(st, folder, video, stem, names, i)
  }

  /** No extra listed before position `i` that has the same new name as the
      extra at `i` exists. */
  predicate NoEarlierTaker(st: FsState, folder: DirPath, video: string, stem: string, names: seq<string>, i: nat)
    requires i < |names|
  {
    forall k :: (0 <= k < i && ToRename(video, stem, names[k]) && NewName(stem, names[k]) == NewName(stem, names[i])) ==>
      Join(folder, names[k]) !in st.files
  }

  /** In `r`, the extra `f` of `st` is under its new name with its size,
      and its old name is gone. */
  predicate RenamedTo(st: FsState, r: FsState, folder: DirPath, stem: string, f: string) {
    var nf := Join(folder, NewName(stem, f));
    Join(folder, f) in st.files && Join(folder, f) !in r.files && nf in r.files && r.files[nf] == st.files[Join(folder, f)]
  }

  /** In `r`, every extra listed after position `i` that has the same new
      name as the extra at `i` and exists in `st` keeps its name and size. */
  predicate LaterStay(st: FsState, r: FsState, folder: DirPath, video: string, stem: string, names: seq<string>, i: nat)
    requires i < |names|
  {
    forall k :: (i < k < |names| && ToRename(video, stem, names[k]) && NewName(stem, names[k]) == NewName(stem, names[i]) &&
      Join(folder, names[k]) in st.files) ==>
      Join(folder, names[k]) in r.files && r.files[Join(folder, names[k])] == st.files[Join(folder, names[k])]
  }

  lemma DistinctTail(names: seq<string>)
    requires Distinct(names) && names != []
    ensures Distinct(names[1..])
  {
    forall i, j | 0 <= i < j < |names| - 1 ensures names[1..][i] != names[1..][j] {
      assert names[1..][i] == names[i + 1] && names[1..][j] == names[j + 1];
    }
  }

  /** What the later extras keep after the first step they keep to the end. */
  lemma LaterStayBack(st: FsState, st1: FsState, r: FsState, folder: DirPath, video: string, stem: string, names: seq<string>, i: nat)
    requires 0 < i < |names|
    requires LaterStay(st1, r, folder, video, stem, names[1..], i - 1)
    requires forall k :: (i < k < |names| && Join(folder, names[k]) in st.files) ==>
      Join(folder, names[k]) in st1.files && st1.files[Join(folder, names[k])] == st.files[Join(folder, names[k])]
    ensures LaterStay(st, r, folder, video, stem, names, i)
  {
    forall k | i < k < |names| && ToRename(video, stem, names[k]) && NewName(stem, names[k]) == NewName(stem, names[i]) &&
      Join(folder, names[k]) in st.files
      ensures Join(folder, names[k]) in r.files && r.files[Join(folder, names[k])] == st.files[Join(folder, names[k])]
    {
      assert names[1..][k - 1] == names[k] && names[1..][i - 1] == names[i];
    }
  }

  /** The first extra of the list, when it exists and its new name is free,
      is renamed; later extras with the same new name stay. */
  lemma FirstTakes(st: FsState, folder: DirPath, video: string, stem: string, names: seq<string>)
    requires Distinct(names) && names != []
    requires ToRename(video, stem, names[0]) && Join(folder, names[0]) in st.files && !Exists(st, Join(folder, NewName(stem, names[0])))
    ensures RenamedTo(st, RenameAll(st, folder, video, stem, names), folder, stem, names[0])
    ensures LaterStay(st, RenameAll(st, folder, video, stem, names), folder, video, stem, names, 0)
  {
    var f := names[0];
    var st1 := RenameStep(st, folder, video, stem, f);
    var nf := Join(folder, NewName(stem, f));
    NewNameShape(stem, f);
    assert st1 == MoveFile(st, Join(folder, f), nf);
    RenamedStays(st1, folder, video, stem, names[1..], f);
    LaterBlocked(st, st1, folder, video, stem, names);
  }

  /** After the first extra took its new name, every later extra with the
      same new name finds it taken and stays. */
  lemma LaterBlocked(st: FsState, st1: FsState, folder: DirPath, video: string, stem: string, names: seq<string>)
    requires Distinct(names) && names != []
    requires st1 == RenameStep(st, folder, video, stem, names[0]) && Join(folder, NewName(stem, names[0])) in st1.files
    ensures LaterStay(st, RenameAll(st1, folder, video, stem, names[1..]), folder, video, stem, names, 0)
  {
    var r := RenameAll(st1, folder, video, stem, names[1..]);
    forall k | 0 < k < |names| && ToRename(video, stem, names[k]) && NewName(stem, names[k]) == NewName(stem, names[0]) &&
      Join(folder, names[k]) in st.files
      ensures Join(folder, names[k]) in r.files && r.files[Join(folder, names[k])] == st.files[Join(folder, names[k])]
    {
      var g := names[k];
      assert g != names[0] && names[1..][k - 1] == g;
      StepKeeps(st, folder, video, stem, names[0], Join(folder, g));
      BlockedStays(st1, folder, video, stem, names[1..], g);
    }
  }

  /** The step for `h` keeps every file other than `h`'s own, with its size. */
  lemma StepKeeps(st: FsState, folder: DirPath, video: string, stem: string, h: string, p: Path)
    requires p in st.files && p != Join(folder, h)
    ensures var st1 := RenameStep(st, folder, video, stem, h); p in st1.files && st1.files[p] == st.files[p]
  {
  }

  /** The step for `h` adds at most `h`'s new name, and only by renaming `h`. */
  lemma StepAdds(st: FsState, folder: DirPath, video: string, stem: string, h: string, q: Path)
    requires q !in st.files && q in RenameStep(st, folder, video, stem, h).files
    ensures q == Join(folder, NewName(stem, h)) && ToRename(video, stem, h) && Join(folder, h) in st.files
  {
  }

  /** The step for an earlier extra keeps the extra at position `i`, with
      its size, keeps its new name free, and brings back no earlier extra
      with the same new name. */
  lemma EarlierStep(st: FsState, folder: DirPath, video: string, stem: string, names: seq<string>, i: nat)
    requires Distinct(names) && 0 < i < |names|
    requires FirstToTake(st, folder, video, stem, names, i)
    ensures var st1 := RenameStep(st, folder, video, stem, names[0]); var f := names[i];
      FirstToTake(st1, folder, video, stem, names[1..], i - 1) &&
      st1.files[Join(folder, f)] == st.files[Join(folder, f)] &&
      forall k :: (i < k < |names| && Join(folder, names[k]) in st.files) ==>
        Join(folder, names[k]) in st1.files && st1.files[Join(folder, names[k])] == st.files[Join(folder, names[k])]
  {
    var f, h := names[i], names[0];
    var st1 := RenameStep(st, folder, video, stem, h);
    var nf := Join(folder, NewName(stem, f));
    var tail := names[1..];
    NewNameShape(stem, h);
    assert tail[i - 1] == f && h != f;
    StepKeeps(st, folder, video, stem, h, Join(folder, f));
    assert st1.dirs == st.dirs;
    if nf in st1.files {
      StepAdds(st, folder, video, stem, h, nf);
    }
    forall k | 0 <= k < i - 1 && ToRename(video, stem, tail[k]) && NewName(stem, tail[k]) == NewName(stem, f)
      ensures Join(folder, tail[k]) !in st1.files
    {
      assert tail[k] == names[k + 1];
      if Join(folder, tail[k]) in st1.files {
        StepAdds(st, folder, video, stem, h, Join(folder, tail[k]));
      }
    }
    forall k | i < k < |names| && Join(folder, names[k]) in st.files
      ensures Join(folder, names[k]) in st1.files && st1.files[Join(folder, names[k])] == st.files[Join(folder, names[k])]
    {
      assert names[k] != h;
      StepKeeps(st, folder, video, stem, h, Join(folder, names[k]));
    }
  }

  /** An extra whose new name is taken stays where it is, with its size,
      through the rest of the loop: the name stays taken, since nothing the
      loop renames begins with the stem. */
  lemma {:induction false} BlockedStays(st: FsState, folder: DirPath, video: string, stem: string, names: seq<string>, g: string)
    requires ToRename(video, stem, g) && Join(folder, g) in st.files && Join(folder, NewName(stem, g)) in st.files
    ensures var r := RenameAll(st, folder, video, stem, names);
      Join(folder, g) in r.files && r.files[Join(folder, g)] == st.files[Join(folder, g)]
    decreases |names|
  {
    if names != [] {
      var h := names[0];
      var st1 := RenameStep(st, folder, video, stem, h);
      RenameStepFacts(st, folder, video, stem, h);
      NewNameShape(stem, g);
      if st1 != st {
        assert h != g && ToRename(video, stem, h);
        assert Join(folder, NewName(stem, g)) != Join(folder, h);
      }
      BlockedStays(st1, folder, video, stem, names[1..], g);
    }
  }

  /** Once an extra is renamed, the rest of the loop neither moves its new
      name nor brings its old name back. */
  lemma RenamedStays(st: FsState, folder: DirPath, video: string, stem: string, names: seq<string>, f: string)
    requires ToRename(video, stem, f) && Join(folder, f) !in st.files && Join(folder, NewName(stem, f)) in st.files
    ensures var r := RenameAll(st, folder, video, stem, names); var nf := Join(folder, NewName(stem, f));
      Join(folder, f) !in r.files && nf in r.files && r.files[nf] == st.files[nf]
  {
    RenameAllFacts(st, folder, video, stem, names);
    NewNameShape(stem, f);
    assert !ToRename(video, stem, NewName(stem, f));
  }

  /** What the whole function does: when it returns normally it keeps the
      number of files and the directories, overwrites nothing, touches only
      listed extras of the folder and names each new file after the video
      stem. Without a main video nothing is renamed. */
  lemma RenameExtrasFacts(st: FsState, folder: DirPath, names: seq<string>, dirSize: DirPath -> nat)
    ensures var r := RenameExtras(st, folder, names, dirSize);
      r.Some? ==>
        r.value.dirs == st.dirs && |r.value.files.Keys| == |st.files.Keys| &&
        (forall p :: p in st.files && p in r.value.files ==> r.value.files[p] == st.files[p]) &&
        (forall p :: p in st.files && p !in r.value.files ==> DirOf(p) == folder && p.name in names) &&
        (forall q :: q in r.value.files && q !in st.files ==> DirOf(q) == folder) &&
        (WellFormed(st) ==> WellFormed(r.value))
  {
    if folder in st.dirs {
      var mv := MainVideo(st, folder, names, dirSize);
      if mv.Some? && mv.value.video.Some? {
        var v := mv.value.video.value;
        RenameAllFacts(st, folder, v, SplitExt(v).0, names);
      }
    }
  }

  /** With a main video `v`, each listed extra is renamed after `v`'s stem
      as `ExtraRenamed` states: the first listed existing extra of a free new
      name takes it with its size, and the later ones keep their names. */
  lemma ExtrasRenamed(st: FsState, folder: DirPath, names: seq<string>, dirSize: DirPath -> nat, v: string, i: nat)
    requires folder in st.dirs
    requires MainVideo(st, folder, names, dirSize).Some? && MainVideo(st, folder, names, dirSize).value.video == Some(v)
    requires Distinct(names) && i < |names|
    requires FirstToTake(st, folder, v, SplitExt(v).0, names, i)
    ensures var r := RenameExtras(st, folder, names, dirSize);
      r.Some? && RenamedTo(st, r.value, folder, SplitExt(v).0, names[i]) &&
      LaterStay(st, r.value, folder, v, SplitExt(v).0, names, i)
  {
    ExtraRenamed(st, folder, v, SplitExt(v).0, names, i);
  }

  /** Nothing is renamed in a folder without a candidate of positive size,
      and the function fails only on an unreadable candidate or a folder that
      is a file. */
  lemma NoMainVideoNoRename(st: FsState, folder: DirPath, names: seq<string>, dirSize: DirPath -> nat)
    requires forall j :: 0 <= j < |names| && IsMovieFile(names[j]) ==> SizeOf(st, folder, names[j], dirSize) == Some(0)
    ensures RenameExtras(st, folder, names, dirSize) == if folder !in st.dirs && IsFileAt(st, folder) then None else Some(st)
  {
    MainVideoCorrect(st, folder, names, dirSize);
    var r := MainVideo(st, folder, names, dirSize);
  }

  // ---------------------------------------------------------------------
  // The procedure

  /** The first loop on `fs`: `ok` is false when a candidate's size cannot
      be read. */
  method FindMainVideo(fs: FileSystem, folder: DirPath, names: seq<string>, dirSize: DirPath -> nat)
    returns (ok: bool, video: Option<string>)
    ensures ok <==> MainVideo(fs.State(), folder, names, dirSize).Some?
    ensures ok ==> video == MainVideo(fs.State(), folder, names, dirSize).value.video
  {
    var maxSize: nat := 0;
    video := None;
    var i := 0;
    while i < |names|
      invariant 0 <= i <= |names|
      invariant PickFrom(fs.State(), folder, names, dirSize, i, Pick(video, maxSize)) == MainVideo(fs.State(), folder, names, dirSize)
    {
      var f := names[i];
      if IsMovieFile(f) {
        var p := Join(folder, f);
        var size: nat;
        if p in fs.files {
          size := fs.files[p];
        } else if AsDir(p) in fs.dirs {
          size := dirSize(AsDir(p));
        } else {
          return false, None;
        }
        if size > maxSize {
          maxSize := size;
          video := Some(f);
        }
      }
      i := i + 1;
    }
    return true, video;
  }

  /** The extras loop body for `f` on `fs`. */
  method RenameOne(fs: FileSystem, folder: DirPath, video: string, stem: string, f: string)
    modifies fs
    ensures fs.State() == RenameStep(old(fs.State()), folder, video, stem, f)
  {
    if f == video {
      return;
    }
    var parts := SplitExt(f);
    if LowerStr(parts.1) !in EXTRA_EXTS {
      return;
    }
    if StartsWith(f, stem) {
      return;
    }
    var newName := NewName(stem, f);
    var oldFull := Join(folder, f);
    var newFull := Join(folder, newName);
    if !(newFull in fs.files || AsDir(newFull) in fs.dirs) && oldFull in fs.files {
      fs.Move(oldFull, newFull);
    }
  }

  /** `manual_rename_extras_destination(folder)` on `fs`, where
      `os.listdir(folder)` gives `names`; `raised` reports an exception
      leaving the function, and then nothing has changed. */
  method ManualRenameExtras(fs: FileSystem, folder: DirPath, names: seq<string>, dirSize: DirPath -> nat)
    returns (raised: bool)
    modifies fs
    ensures raised <==> RenameExtras(old(fs.State()), folder, names, dirSize).None?
    ensures raised ==> fs.State() == old(fs.State())
    ensures !raised ==> fs.State() == RenameExtras(old(fs.State()), folder, names, dirSize).value
  {
    if folder !in fs.dirs {
      return IsFileAt(fs.State(), folder);
    }
    var ok, video := FindMainVideo(fs, folder, names, dirSize);
    if !ok {
      return true;
    }
    if video.None? {
      return false;
    }
    var v := video.value;
    var stem := SplitExt(v).0;
    ghost var goal := RenameAll(fs.State(), folder, v, stem, names);
    var i := 0;
    while i < |names|
      invariant 0 <= i <= |names|
      invariant RenameAll(fs.State(), folder, v, stem, names[i..]) == goal
    {
      RenameOne(fs, folder, v, stem, names[i]);
      assert names[i..][1..] == names[i + 1..];
      i := i + 1;
    }
    return false;
  }
}
