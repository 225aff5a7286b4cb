/** `scan_library`: the inventory of every series folder on every root. The
    library maps a normalised series name to its group; a group records, per
    root the series occurs on, the folder name used there and a running byte
    total, and collects the episode copies and artifacts of every directory
    of every such folder. */
module Scanner {
  import opened Optional
  import opened Volumes
  import opened Inventory
  import opened Names
  import opened Classify

  // ---------------------------------------------------------------------
  // Bytes attributed to a root

  function CopiesShare(cs: seq<EpisodeCopy>, r: Root): int
    decreases |cs|
  {
    if cs == [] then 0
    else CopiesShare(cs[..|cs| - 1], r) + (if cs[|cs| - 1].disk == r then cs[|cs| - 1].totalSize else 0)
  }

  function SlotsShare(slots: seq<Slot>, r: Root): int
    decreases |slots|
  {
    if slots == [] then 0 else SlotsShare(slots[..|slots| - 1], r) + CopiesShare(slots[|slots| - 1].copies, r)
  }

  function ArtifactsShare(arts: seq<Artifact>, r: Root): int
    decreases |arts|
  {
    if arts == [] then 0
    else ArtifactsShare(arts[..|arts| - 1], r) + (if arts[|arts| - 1].disk == r then arts[|arts| - 1].size else 0)
  }

  /** What a series holds on root `r`: the aggregate sizes of its episode
      copies there plus the sizes of its artifacts there. */
  function Share(g: SeriesGroup, r: Root): int {
    SlotsShare(g.slots, r) + ArtifactsShare(g.artifacts, r)
  }

  // ---------------------------------------------------------------------
  // Dictionary lookups

  function FindDisk(disks: seq<DiskStat>, r: Root): (k: Option<nat>)
    ensures k.Some? ==> k.value < |disks| && disks[k.value].root == r
    ensures k.None? ==> forall j :: 0 <= j < |disks| ==> disks[j].root != r
    decreases |disks|
  {
    if disks == [] then None
    else if disks[|disks| - 1].root == r then Some(|disks| - 1)
    else FindDisk(disks[..|disks| - 1], r)
  }

  function FindSlot(slots: seq<Slot>, s: nat, e: nat): (k: Option<nat>)
    ensures k.Some? ==> k.value < |slots| && slots[k.value].season == s && slots[k.value].episode == e
    ensures k.None? ==> forall j :: 0 <= j < |slots| ==> !(slots[j].season == s && slots[j].episode == e)
    decreases |slots|
  {
    if slots == [] then None
    else if slots[|slots| - 1].season == s && slots[|slots| - 1].episode == e then Some(|slots| - 1)
    else FindSlot(slots[..|slots| - 1], s, e)
  }

  // ---------------------------------------------------------------------
  // The shape of a well-formed inventory

  /** An episode copy is above the minimum size, so never the -1 sentinel,
      and its aggregate is its own size plus its companions'. */
  predicate CopyOk(c: EpisodeCopy) {
    c.size > MIN_VIDEO_SIZE && c.totalSize == c.size + SumSizes(c.companions)
  }

  /** A slot exists only once it received a copy. */
  predicate SlotOk(sl: Slot) {
    sl.copies != [] && forall m :: 0 <= m < |sl.copies| ==> CopyOk(sl.copies[m])
  }

  predicate DistinctRoots(disks: seq<DiskStat>) {
    forall i, j :: 0 <= i < j < |disks| ==> disks[i].root != disks[j].root
  }

  predicate DistinctSlotKeys(slots: seq<Slot>) {
    forall i, j :: 0 <= i < j < |slots| ==> !(slots[i].season == slots[j].season && slots[i].episode == slots[j].episode)
  }

  /** The per-root running totals are exactly what the series holds there. */
  predicate Balanced(g: SeriesGroup) {
    forall j :: 0 <= j < |g.disks| ==> g.disks[j].totalSize == Share(g, g.disks[j].root)
  }

  /** Nothing is attributed to a root the series has no record for. */
  ghost predicate Unattributed(g: SeriesGroup) {
    forall q :: FindDisk(g.disks, q).None? ==> Share(g, q) == 0
  }

  ghost predicate GroupOk(g: SeriesGroup) {
    DistinctRoots(g.disks) && DistinctSlotKeys(g.slots) && Balanced(g) && Unattributed(g) &&
    forall k :: 0 <= k < |g.slots| ==> SlotOk(g.slots[k])
  }

  /** The display name and every per-root folder name normalise to the key. */
  predicate Named(key: string, g: SeriesGroup) {
    NormalizeName(g.displayName) == key &&
    forall j :: 0 <= j < |g.disks| ==> NormalizeName(g.disks[j].realFolder) == key
  }

  /** A library entry: the group stored under `key` is well formed and named
      for it. */
  ghost predicate EntryOk(key: string, g: SeriesGroup) {
    GroupOk(g) && Named(key, g)
  }

  /** `library`: normalised series name to group. */
  type Library = map<string, SeriesGroup>

  ghost predicate LibraryOk(lib: Library) {
    forall key :: key in lib ==> EntryOk(key, lib[key])
  }

  // ---------------------------------------------------------------------
  // One update of a group

  /** `disks[r]['total_size'] += n`, for a root already present. */
  function Credit(disks: seq<DiskStat>, r: Root, n: int): (d2: seq<DiskStat>)
    ensures |d2| == |disks|
    ensures forall j :: 0 <= j < |disks| ==> d2[j].root == disks[j].root && d2[j].realFolder == disks[j].realFolder
  {
    match FindDisk(disks, r)
    case None => disks
    case Some(j) => disks[j := DiskStat(r, disks[j].realFolder, disks[j].totalSize + n)]
  }

  /** `episodes[(s, e)].append(c)`: a new slot is created at the end. */
  function AddToSlot(slots: seq<Slot>, s: nat, e: nat, c: EpisodeCopy): seq<Slot> {
    match FindSlot(slots, s, e)
    case None => slots + [Slot(s, e, [c])]
    case Some(k) => slots[k := Slot(s, e, slots[k].copies + [c])]
  }

  /** A copy found for slot (s, e): recorded in its slot, its aggregate added
      to its root's total. */
  function WithCopy(g: SeriesGroup, fd: Found): SeriesGroup {
    SeriesGroup(g.displayName, Credit(g.disks, fd.copy.disk, fd.copy.totalSize),
                AddToSlot(g.slots, fd.season, fd.episode, fd.copy), g.artifacts)
  }

  /** An artifact: appended, its size (possibly the -1 sentinel) added to
      its root's total. */
  function WithArtifact(g: SeriesGroup, a: Artifact): SeriesGroup {
    SeriesGroup(g.displayName, Credit(g.disks, a.disk, a.size), g.slots, g.artifacts + [a])
  }

  function WithFound(g: SeriesGroup, found: seq<Found>): SeriesGroup
    decreases |found|
  {
    if found == [] then g else WithCopy(WithFound(g, found[..|found| - 1]), found[|found| - 1])
  }

  function WithArtifacts(g: SeriesGroup, arts: seq<Artifact>): SeriesGroup
    decreases |arts|
  {
    if arts == [] then g else WithArtifact(WithArtifacts(g, arts[..|arts| - 1]), arts[|arts| - 1])
  }

  /** `disks[r]['real_folder'] = folder`, creating the root's record (with a
      zero total) on first use. */
  function SetFolder(disks: seq<DiskStat>, r: Root, folder: string): seq<DiskStat> {
    match FindDisk(disks, r)
    case None => disks + [DiskStat(r, folder, 0)]
    case Some(j) => disks[j := DiskStat(r, folder, disks[j].totalSize)]
  }

  /** A series folder is met on root `r`: the display name is set if it is
      not set yet, and the root's folder name is (over)written. */
  function WithFolder(g: SeriesGroup, r: Root, folder: string): SeriesGroup {
    SeriesGroup(if g.displayName == "" then folder else g.displayName, SetFolder(g.disks, r, folder), g.slots, g.artifacts)
  }

  const EmptyGroup := SeriesGroup("", [], [], [])

  // ---------------------------------------------------------------------
  // The updates keep the group well formed

  lemma CopiesShareAppend(cs: seq<EpisodeCopy>, c: EpisodeCopy, r: Root)
    ensures CopiesShare(cs + [c], r) == CopiesShare(cs, r) + (if c.disk == r then c.totalSize else 0)
  {
    assert (cs + [c])[..|cs|] == cs;
  }

  lemma ArtifactsShareAppend(arts: seq<Artifact>, a: Artifact, r: Root)
    ensures ArtifactsShare(arts + [a], r) == ArtifactsShare(arts, r) + (if a.disk == r then a.size else 0)
  {
    assert (arts + [a])[..|arts|] == arts;
  }

  lemma SlotsShareAppend(slots: seq<Slot>, sl: Slot, r: Root)
    ensures SlotsShare(slots + [sl], r) == SlotsShare(slots, r) + CopiesShare(sl.copies, r)
  {
    assert (slots + [sl])[..|slots|] == slots;
  }

  lemma {:induction false} SlotsShareUpdate(slots: seq<Slot>, k: nat, sl: Slot, r: Root)
    requires k < |slots|
    ensures SlotsShare(slots[k := sl], r) == SlotsShare(slots, r) - CopiesShare(slots[k].copies, r) + CopiesShare(sl.copies, r)
    decreases |slots|
  {
    var n := |slots| - 1;
    if k == n {
      assert slots[k := sl][..n] == slots[..n];
    } else {
      assert slots[k := sl][..n] == slots[..n][k := sl];
      SlotsShareUpdate(slots[..n], k, sl, r);
    }
  }

  /** Adding a copy to its slot adds its aggregate to its root's share. */
  lemma AddToSlotShare(slots: seq<Slot>, s: nat, e: nat, c: EpisodeCopy, r: Root)
    ensures SlotsShare(AddToSlot(slots, s, e, c), r) == SlotsShare(slots, r) + (if c.disk == r then c.totalSize else 0)
  {
    match FindSlot(slots, s, e)
    case None =>
      SlotsShareAppend(slots, Slot(s, e, [c]), r);
      assert [c] == [] + [c];
      CopiesShareAppend([], c, r);
    case Some(k) =>
      SlotsShareUpdate(slots, k, Slot(s, e, slots[k].copies + [c]), r);
      CopiesShareAppend(slots[k].copies, c, r);
  }

  lemma AddToSlotShape(slots: seq<Slot>, s: nat, e: nat, c: EpisodeCopy)
    requires DistinctSlotKeys(slots) && forall k :: 0 <= k < |slots| ==> SlotOk(slots[k])
    requires CopyOk(c)
    ensures var s2 := AddToSlot(slots, s, e, c);
      DistinctSlotKeys(s2) && forall k :: 0 <= k < |s2| ==> SlotOk(s2[k])
  {
    match FindSlot(slots, s, e)
    case None =>
    case Some(k) =>
      var cs := slots[k].copies + [c];
      assert forall m :: 0 <= m < |cs| ==> cs[m] == if m < |slots[k].copies| then slots[k].copies[m] else c;
  }

  /** Crediting a present root keeps everyone's total balanced with a share
      that grew at that root only. */
  lemma CreditBalanced(g: SeriesGroup, g2: SeriesGroup, r: Root, n: int)
    requires DistinctRoots(g.disks) && Balanced(g) && Unattributed(g) && FindDisk(g.disks, r).Some?
    requires g2.disks == Credit(g.disks, r, n)
    requires forall q :: Share(g2, q) == Share(g, q) + (if q == r then n else 0)
    ensures DistinctRoots(g2.disks) && Balanced(g2) && Unattributed(g2)
  {
    FindDiskSame(g.disks, g2.disks);
  }

  /** Lookups only depend on the roots. */
  lemma {:induction false} FindDiskSame(d1: seq<DiskStat>, d2: seq<DiskStat>)
    requires |d1| == |d2| && forall j :: 0 <= j < |d1| ==> d1[j].root == d2[j].root
    ensures forall q :: FindDisk(d1, q) == FindDisk(d2, q)
    decreases |d1|
  {
    if d1 != [] {
      FindDiskSame(d1[..|d1| - 1], d2[..|d2| - 1]);
    }
  }

  lemma WithCopyOk(g: SeriesGroup, fd: Found)
    requires GroupOk(g) && CopyOk(fd.copy) && FindDisk(g.disks, fd.copy.disk).Some?
    ensures var g2 := WithCopy(g, fd);
      GroupOk(g2) && g2.displayName == g.displayName && |g2.disks| == |g.disks| &&
      forall j :: 0 <= j < |g.disks| ==> g2.disks[j].root == g.disks[j].root && g2.disks[j].realFolder == g.disks[j].realFolder
  {
    var g2 := WithCopy(g, fd);
    forall q ensures Share(g2, q) == Share(g, q) + (if q == fd.copy.disk then fd.copy.totalSize else 0) {
      AddToSlotShare(g.slots, fd.season, fd.episode, fd.copy, q);
    }
    CreditBalanced(g, g2, fd.copy.disk, fd.copy.totalSize);
    AddToSlotShape(g.slots, fd.season, fd.episode, fd.copy);
  }

  lemma WithArtifactOk(g: SeriesGroup, a: Artifact)
    requires GroupOk(g) && FindDisk(g.disks, a.disk).Some?
    ensures var g2 := WithArtifact(g, a);
      GroupOk(g2) && g2.displayName == g.displayName && |g2.disks| == |g.disks| &&
      forall j :: 0 <= j < |g.disks| ==> g2.disks[j].root == g.disks[j].root && g2.disks[j].realFolder == g.disks[j].realFolder
  {
    var g2 := WithArtifact(g, a);
    forall q ensures Share(g2, q) == Share(g, q) + (if q == a.disk then a.size else 0) {
      ArtifactsShareAppend(g.artifacts, a, q);
    }
    CreditBalanced(g, g2, a.disk, a.size);
  }

  /** The roots and folder names of a group, which copies and artifacts do
      not change. */
  predicate SameDisks(g: SeriesGroup, g2: SeriesGroup) {
    g2.displayName == g.displayName && |g2.disks| == |g.disks| &&
    forall j :: 0 <= j < |g.disks| ==> g2.disks[j].root == g.disks[j].root && g2.disks[j].realFolder == g.disks[j].realFolder
  }

  lemma {:induction false} WithFoundOk(g: SeriesGroup, found: seq<Found>, r: Root)
    requires GroupOk(g) && FindDisk(g.disks, r).Some?
    requires forall k :: 0 <= k < |found| ==> CopyOk(found[k].copy) && found[k].copy.disk == r
    ensures GroupOk(WithFound(g, found)) && SameDisks(g, WithFound(g, found))
    decreases |found|
  {
    if found != [] {
      var n := |found| - 1;
      var g1 := WithFound(g, found[..n]);
      WithFoundOk(g, found[..n], r);
      assert FindDisk(g1.disks, r).Some? by {
        var j := FindDisk(g.disks, r).value;
        assert g1.disks[j].root == r;
      }
      WithCopyOk(g1, found[n]);
    }
  }

  lemma {:induction false} WithArtifactsOk(g: SeriesGroup, arts: seq<Artifact>, r: Root)
    requires GroupOk(g) && FindDisk(g.disks, r).Some?
    requires forall k :: 0 <= k < |arts| ==> arts[k].disk == r
    ensures GroupOk(WithArtifacts(g, arts)) && SameDisks(g, WithArtifacts(g, arts))
    decreases |arts|
  {
    if arts != [] {
      var n := |arts| - 1;
      var g1 := WithArtifacts(g, arts[..n]);
      WithArtifactsOk(g, arts[..n], r);
      assert FindDisk(g1.disks, r).Some? by {
        var j := FindDisk(g.disks, r).value;
        assert g1.disks[j].root == r;
      }
      WithArtifactOk(g1, arts[n]);
    }
  }

  /** Meeting a folder keeps the group well formed and makes its root
      present, with that folder name; no root is lost. */
  lemma WithFolderOk(g: SeriesGroup, r: Root, folder: string)
    requires GroupOk(g)
    ensures var g2 := WithFolder(g, r, folder);
      GroupOk(g2) && FindDisk(g2.disks, r).Some? &&
      g2.disks[FindDisk(g2.disks, r).value].realFolder == folder &&
      forall j :: 0 <= j < |g.disks| ==> FindDisk(g2.disks, g.disks[j].root).Some?
  {
    match FindDisk(g.disks, r)
    case None => NewRootOk(g, r, folder);
    case Some(k) => OldRootOk(g, r, folder, k);
  }

  lemma NewRootOk(g: SeriesGroup, r: Root, folder: string)
    requires GroupOk(g) && FindDisk(g.disks, r).None?
    ensures var g2 := WithFolder(g, r, folder);
      GroupOk(g2) && FindDisk(g2.disks, r) == Some(|g.disks|) && g2.disks[|g.disks|].realFolder == folder &&
      forall j :: 0 <= j < |g.disks| ==> FindDisk(g2.disks, g.disks[j].root).Some?
  {
    var g2 := WithFolder(g, r, folder);
    assert g2.disks == g.disks + [DiskStat(r, folder, 0)];
    assert g2.disks[..|g.disks|] == g.disks;
    assert forall q :: q != r ==> FindDisk(g2.disks, q) == FindDisk(g.disks, q);
    assert Share(g, r) == 0;
    forall j | 0 <= j < |g.disks| ensures FindDisk(g2.disks, g.disks[j].root).Some? {
      assert g2.disks[j].root == g.disks[j].root;
    }
  }

  lemma OldRootOk(g: SeriesGroup, r: Root, folder: string, k: nat)
    requires GroupOk(g) && FindDisk(g.disks, r) == Some(k)
    ensures var g2 := WithFolder(g, r, folder);
      GroupOk(g2) && FindDisk(g2.disks, r) == Some(k) && g2.disks[k].realFolder == folder &&
      forall j :: 0 <= j < |g.disks| ==> FindDisk(g2.disks, g.disks[j].root).Some?
  {
    var g2 := WithFolder(g, r, folder);
    assert g2.disks == g.disks[k := DiskStat(r, folder, g.disks[k].totalSize)];
    FindDiskSame(g.disks, g2.disks);
  }

  /** The names stay consistent with the key when the folder's name
      normalises to it. */
  lemma WithFolderNamed(g: SeriesGroup, r: Root, folder: string, key: string)
    requires NormalizeName(folder) == key
    requires g.displayName == "" || NormalizeName(g.displayName) == key
    requires forall j :: 0 <= j < |g.disks| ==> NormalizeName(g.disks[j].realFolder) == key
    ensures Named(key, WithFolder(g, r, folder))
  {
    SetFolderNamed(g.disks, r, folder, key);
  }

  lemma SetFolderNamed(disks: seq<DiskStat>, r: Root, folder: string, key: string)
    requires NormalizeName(folder) == key
    requires forall j :: 0 <= j < |disks| ==> NormalizeName(disks[j].realFolder) == key
    ensures var d2 := SetFolder(disks, r, folder);
      forall j :: 0 <= j < |d2| ==> NormalizeName(d2[j].realFolder) == key
  {
  }

  // ---------------------------------------------------------------------
  // What the scan records

  /** What one directory of a series folder contributes, as
      `ClassifyDirectory` found it: its episode copies and its artifacts. */
  datatype DirScan = DirScan(found: seq<Found>, arts: seq<Artifact>)

  /** The directory the walk step `step` of series folder `folder` on `r`
      names. */
  function StepDir(r: Root, folder: string, step: WalkStep): DirPath {
    DirPath(r, [folder] + step.rel)
  }

  /** `sc` is a classification of that directory. */
  ghost predicate Classified(files: map<Path, nat>, r: Root, folder: string, step: WalkStep, sc: DirScan) {
    ClassifiedAs(files, StepDir(r, folder, step), r, step.rel, step.names, sc.found, sc.arts)
  }

  /** `scans` classifies each directory of the walk `walk`, in order. */
  ghost predicate WalkClassified(files: map<Path, nat>, r: Root, folder: string, walk: seq<WalkStep>, scans: seq<DirScan>) {
    |scans| == |walk| && forall k :: 0 <= k < |walk| ==> Classified(files, r, folder, walk[k], scans[k])
  }

  /** A directory's contribution added to a group: its copies, then its
      artifacts, in the order found. */
  function AddDir(g: SeriesGroup, sc: DirScan): SeriesGroup {
    WithArtifacts(WithFound(g, sc.found), sc.arts)
  }

  /** The directories of a walk, added in walk order. */
  function AddWalk(g: SeriesGroup, scans: seq<DirScan>): SeriesGroup
    decreases |scans|
  {
    if scans == [] then g else AddDir(AddWalk(g, scans[..|scans| - 1]), scans[|scans| - 1])
  }

  /** A series folder met on root `r`: recorded, then its walk added. */
  function AddSeries(g: SeriesGroup, r: Root, folder: string, scans: seq<DirScan>): SeriesGroup {
    AddWalk(WithFolder(g, r, folder), scans)
  }

  /** The copies recorded for slot (s, e); none for a slot not on record. */
  function SlotCopies(g: SeriesGroup, s: nat, e: nat): seq<EpisodeCopy> {
    match FindSlot(g.slots, s, e)
    case None => []
    case Some(k) => g.slots[k].copies
  }

  /** `g2` extends the copies of every slot of `g`, and its artifacts. */
  ghost predicate Keeps(g: SeriesGroup, g2: SeriesGroup) {
    (forall s, e :: SlotCopies(g, s, e) <= SlotCopies(g2, s, e)) && g.artifacts <= g2.artifacts
  }

  /** The group holds every copy, in its slot, and every artifact of a
      directory. */
  ghost predicate HoldsDir(g: SeriesGroup, sc: DirScan) {
    (forall m :: 0 <= m < |sc.found| ==> sc.found[m].copy in SlotCopies(g, sc.found[m].season, sc.found[m].episode)) &&
    (forall m :: 0 <= m < |sc.arts| ==> sc.arts[m] in g.artifacts)
  }

  lemma KeepsTrans(g: SeriesGroup, g1: SeriesGroup, g2: SeriesGroup)
    requires Keeps(g, g1) && Keeps(g1, g2)
    ensures Keeps(g, g2)
  {
  }

  lemma PrefixIn<T>(a: seq<T>, b: seq<T>, x: T)
    requires a <= b && x in a
    ensures x in b
  {
    var j :| 0 <= j < |a| && a[j] == x;
    assert b[j] == a[j];
  }

  lemma HoldsKept(g: SeriesGroup, g2: SeriesGroup, sc: DirScan)
    requires HoldsDir(g, sc) && Keeps(g, g2)
    ensures HoldsDir(g2, sc)
  {
    forall m | 0 <= m < |sc.found|
      ensures sc.found[m].copy in SlotCopies(g2, sc.found[m].season, sc.found[m].episode)
    {
      var fd := sc.found[m];
      PrefixIn(SlotCopies(g, fd.season, fd.episode), SlotCopies(g2, fd.season, fd.episode), fd.copy);
    }
    forall m | 0 <= m < |sc.arts| ensures sc.arts[m] in g2.artifacts {
      PrefixIn(g.artifacts, g2.artifacts, sc.arts[m]);
    }
  }

  /** Lookups of slots only depend on the slot keys. */
  lemma {:induction false} FindSlotSame(s1: seq<Slot>, s2: seq<Slot>)
    requires |s1| == |s2| && forall j :: 0 <= j < |s1| ==> s1[j].season == s2[j].season && s1[j].episode == s2[j].episode
    ensures forall s, e :: FindSlot(s1, s, e) == FindSlot(s2, s, e)
    decreases |s1|
  {
    if s1 != [] {
      FindSlotSame(s1[..|s1| - 1], s2[..|s2| - 1]);
    }
  }

  /** Adding a copy to its slot appends it to that slot's copies and
      changes no other slot. */
  lemma AddToSlotCopies(g: SeriesGroup, fd: Found, s: nat, e: nat)
    ensures s == fd.season && e == fd.episode ==> SlotCopies(WithCopy(g, fd), s, e) == SlotCopies(g, s, e) + [fd.copy]
    ensures !(s == fd.season && e == fd.episode) ==> SlotCopies(WithCopy(g, fd), s, e) == SlotCopies(g, s, e)
  {
    var g2 := WithCopy(g, fd);
    match FindSlot(g.slots, fd.season, fd.episode)
    case None =>
      assert g2.slots[..|g.slots|] == g.slots;
    case Some(k) =>
      FindSlotSame(g.slots, g2.slots);
  }

  /** Every copy of `found` is held by its slot in `g`. */
  ghost predicate HoldsFound(g: SeriesGroup, found: seq<Found>) {
    forall m :: 0 <= m < |found| ==> found[m].copy in SlotCopies(g, found[m].season, found[m].episode)
  }

  /** Adding one copy keeps every slot's copies and the artifacts, and the
      copy is then held by its slot. */
  lemma WithCopyKeeps(g: SeriesGroup, fd: Found)
    ensures var g2 := WithCopy(g, fd);
      Keeps(g, g2) && g2.artifacts == g.artifacts && fd.copy in SlotCopies(g2, fd.season, fd.episode)
  {
    var g2 := WithCopy(g, fd);
    forall s, e ensures SlotCopies(g, s, e) <= SlotCopies(g2, s, e) {
      AddToSlotCopies(g, fd, s, e);
    }
    var cs := SlotCopies(g, fd.season, fd.episode);
    AddToSlotCopies(g, fd, fd.season, fd.episode);
    assert (cs + [fd.copy])[|cs|] == fd.copy;
  }

  lemma HoldsFoundSnoc(g1: SeriesGroup, g2: SeriesGroup, found: seq<Found>)
    requires found != [] && Keeps(g1, g2)
    requires HoldsFound(g1, found[..|found| - 1])
    requires found[|found| - 1].copy in SlotCopies(g2, found[|found| - 1].season, found[|found| - 1].episode)
    ensures HoldsFound(g2, found)
  {
    var n := |found| - 1;
    forall m | 0 <= m < n ensures found[m].copy in SlotCopies(g2, found[m].season, found[m].episode) {
      var fd := found[m];
      assert fd == found[..n][m];
      PrefixIn(SlotCopies(g1, fd.season, fd.episode), SlotCopies(g2, fd.season, fd.episode), fd.copy);
    }
  }

  /** Every copy found is held by its slot afterwards; nothing is lost. */
  lemma {:induction false} WithFoundHolds(g: SeriesGroup, found: seq<Found>)
    ensures var g2 := WithFound(g, found);
      Keeps(g, g2) && g2.artifacts == g.artifacts && HoldsFound(g2, found)
    decreases |found|
  {
    if found != [] {
      var n := |found| - 1;
      var g1 := WithFound(g, found[..n]);
      var g2 := WithFound(g, found);
      assert g2 == WithCopy(g1, found[n]);
      WithFoundHolds(g, found[..n]);
      WithCopyKeeps(g1, found[n]);
      KeepsTrans(g, g1, g2);
      HoldsFoundSnoc(g1, g2, found);
    }
  }

  /** The artifacts are appended in order; the slots are untouched. */
  lemma {:induction false} WithArtifactsAppend(g: SeriesGroup, arts: seq<Artifact>)
    ensures WithArtifacts(g, arts).artifacts == g.artifacts + arts
    ensures WithArtifacts(g, arts).slots == g.slots
    decreases |arts|
  {
    if arts != [] {
      var n := |arts| - 1;
      WithArtifactsAppend(g, arts[..n]);
      assert arts == arts[..n] + [arts[n]];
    }
  }

  /** After a directory is added, the group holds its copies and artifacts,
      and everything it held before. */
  lemma AddDirHolds(g: SeriesGroup, sc: DirScan)
    ensures HoldsDir(AddDir(g, sc), sc) && Keeps(g, AddDir(g, sc))
  {
    var g1 := WithFound(g, sc.found);
    WithFoundHolds(g, sc.found);
    WithArtifactsAppend(g1, sc.arts);
    assert forall m :: 0 <= m < |sc.arts| ==> (g1.artifacts + sc.arts)[|g1.artifacts| + m] == sc.arts[m];
  }

  /** After a walk, the group holds what each of its directories
      contributed, and everything it held before. */
  lemma {:induction false} AddWalkHolds(g: SeriesGroup, scans: seq<DirScan>)
    ensures Keeps(g, AddWalk(g, scans))
    ensures forall k :: 0 <= k < |scans| ==> HoldsDir(AddWalk(g, scans), scans[k])
    decreases |scans|
  {
    if scans != [] {
      var n := |scans| - 1;
      var g1 := AddWalk(g, scans[..n]);
      var g2 := AddWalk(g, scans);
      assert g2 == AddDir(g1, scans[n]);
      AddWalkHolds(g, scans[..n]);
      AddDirHolds(g1, scans[n]);
      KeepsTrans(g, g1, g2);
      HoldsWalkSnoc(g1, g2, scans[..n], scans);
    }
  }

  lemma HoldsWalkSnoc(g1: SeriesGroup, g2: SeriesGroup, pre: seq<DirScan>, scans: seq<DirScan>)
    requires scans != [] && pre == scans[..|scans| - 1] && Keeps(g1, g2)
    requires forall k :: 0 <= k < |pre| ==> HoldsDir(g1, pre[k])
    ensures forall k :: 0 <= k < |pre| ==> HoldsDir(g2, scans[k])
  {
    var n := |scans| - 1;
    forall k | 0 <= k < n ensures HoldsDir(g2, scans[k]) {
      assert scans[k] == pre[k];
      HoldsKept(g1, g2, scans[k]);
    }
  }

  // ---------------------------------------------------------------------
  // The scan

  /** The copies of one directory all belong to its root and are well
      formed. */
  lemma FoundCopies(files: map<Path, nat>, dir: DirPath, r: Root, rel: seq<string>, names: seq<string>, found: seq<Found>)
    requires forall k :: 0 <= k < |found| ==> FoundOk(files, dir, r, rel, names, found[k])
    ensures forall k :: 0 <= k < |found| ==> CopyOk(found[k].copy) && found[k].copy.disk == r
  {
  }

  /** One directory of the walk of a series folder: its copies and artifacts
      are added to the group. */
  method ScanDirectory(files: map<Path, nat>, g: SeriesGroup, r: Root, folder: string, step: WalkStep)
    returns (g2: SeriesGroup, ghost sc: DirScan)
    requires GroupOk(g) && FindDisk(g.disks, r).Some?
    requires NoDup(step.names)
    ensures Classified(files, r, folder, step, sc) && g2 == AddDir(g, sc)
    ensures GroupOk(g2) && SameDisks(g, g2)
  {
    var dir := StepDir(r, folder, step);
    var found, arts := ClassifyDirectory(files, dir, r, step.rel, step.names);
    sc := DirScan(found, arts);
    FoundCopies(files, dir, r, step.rel, step.names, found);
    WithFoundOk(g, found, r);
    var g1 := WithFound(g, found);
    ArtifactsSound(files, dir, r, step.rel, step.names, set n | n in FoundNames(found));
    assert forall k :: 0 <= k < |arts| ==> arts[k] in arts;
    assert FindDisk(g1.disks, r).Some? by {
      var j := FindDisk(g.disks, r).value;
      assert g1.disks[j].root == r;
    }
    WithArtifactsOk(g1, arts, r);
    g2 := WithArtifacts(g1, arts);
  }

  lemma SameDisksTrans(g: SeriesGroup, g1: SeriesGroup, g2: SeriesGroup)
    requires SameDisks(g, g1) && SameDisks(g1, g2)
    ensures SameDisks(g, g2)
  {
  }

  lemma AddWalkSnoc(g: SeriesGroup, scans: seq<DirScan>, sc: DirScan)
    ensures AddWalk(g, scans + [sc]) == AddDir(AddWalk(g, scans), sc)
  {
    var ss := scans + [sc];
    assert ss[..|scans|] == scans && ss[|scans|] == sc;
  }

  lemma WalkClassifiedSnoc(files: map<Path, nat>, r: Root, folder: string, walk: seq<WalkStep>, scans: seq<DirScan>, sc: DirScan)
    requires |scans| < |walk|
    requires forall k :: 0 <= k < |scans| ==> Classified(files, r, folder, walk[k], scans[k])
    requires Classified(files, r, folder, walk[|scans|], sc)
    ensures forall k :: 0 <= k < |scans| + 1 ==> Classified(files, r, folder, walk[k], (scans + [sc])[k])
  {
  }

  /** The directories of a walk, one after the other. */
  method ScanWalk(files: map<Path, nat>, g: SeriesGroup, r: Root, folder: string, walk: seq<WalkStep>)
    returns (g2: SeriesGroup, ghost scans: seq<DirScan>)
    requires GroupOk(g) && FindDisk(g.disks, r).Some?
    requires forall k :: 0 <= k < |walk| ==> NoDup(walk[k].names)
    ensures WalkClassified(files, r, folder, walk, scans) && g2 == AddWalk(g, scans)
    ensures GroupOk(g2) && SameDisks(g, g2)
  {
    g2, scans := g, [];
    var i := 0;
    while i < |walk|
      invariant 0 <= i <= |walk| && |scans| == i
      invariant forall k :: 0 <= k < i ==> Classified(files, r, folder, walk[k], scans[k])
      invariant g2 == AddWalk(g, scans)
      invariant GroupOk(g2) && SameDisks(g, g2)
    {
      FindDiskSame(g.disks, g2.disks);
      var g3, sc := ScanDirectory(files, g2, r, folder, walk[i]);
      SameDisksTrans(g, g2, g3);
      AddWalkSnoc(g, scans, sc);
      WalkClassifiedSnoc(files, r, folder, walk, scans, sc);
      g2, scans := g3, scans + [sc];
      i := i + 1;
    }
  }

  /** One series folder `folder` on root `r`, whose walk yields `walk`. */
  method ScanSeries(files: map<Path, nat>, g: SeriesGroup, key: string, r: Root, folder: string, walk: seq<WalkStep>)
    returns (g2: SeriesGroup, ghost scans: seq<DirScan>)
    requires GroupOk(g)
    requires NormalizeName(folder) == key
    requires g.displayName == "" || NormalizeName(g.displayName) == key
    requires forall j :: 0 <= j < |g.disks| ==> NormalizeName(g.disks[j].realFolder) == key
    requires forall k :: 0 <= k < |walk| ==> NoDup(walk[k].names)
    ensures WalkClassified(files, r, folder, walk, scans) && g2 == AddSeries(g, r, folder, scans)
    ensures GroupOk(g2) && Named(key, g2)
    ensures FindDisk(g2.disks, r).Some? && g2.disks[FindDisk(g2.disks, r).value].realFolder == folder
    ensures forall j :: 0 <= j < |g.disks| ==> FindDisk(g2.disks, g.disks[j].root).Some?
  {
    WithFolderOk(g, r, folder);
    WithFolderNamed(g, r, folder, key);
    var g1 := WithFolder(g, r, folder);
    g2, scans := ScanWalk(files, g1, r, folder, walk);
    SeriesDone(key, g, g1, g2, r, folder);
  }

  /** What the walk keeps of the group after the folder was met. */
  lemma SeriesDone(key: string, g: SeriesGroup, g1: SeriesGroup, g2: SeriesGroup, r: Root, folder: string)
    requires Named(key, g1) && SameDisks(g1, g2)
    requires FindDisk(g1.disks, r).Some? && g1.disks[FindDisk(g1.disks, r).value].realFolder == folder
    requires forall j :: 0 <= j < |g.disks| ==> FindDisk(g1.disks, g.disks[j].root).Some?
    ensures Named(key, g2)
    ensures FindDisk(g2.disks, r).Some? && g2.disks[FindDisk(g2.disks, r).value].realFolder == folder
    ensures forall j :: 0 <= j < |g.disks| ==> FindDisk(g2.disks, g.disks[j].root).Some?
  {
    FindDiskSame(g1.disks, g2.disks);
    NamedSame(key, g1, g2);
  }

  lemma NamedSame(key: string, g: SeriesGroup, g2: SeriesGroup)
    requires Named(key, g) && SameDisks(g, g2)
    ensures Named(key, g2)
  {
    forall j | 0 <= j < |g2.disks| ensures NormalizeName(g2.disks[j].realFolder) == key {
      assert g2.disks[j].realFolder == g.disks[j].realFolder;
    }
  }

  // ---------------------------------------------------------------------
  // The library

  /** `library[key]`: a missing key reads as an empty group. */
  function Get(lib: Library, key: string): (g: SeriesGroup)
    ensures key !in lib ==> g == EmptyGroup
  {
    if key in lib then lib[key] else EmptyGroup
  }

  /** The key `key` is on record for root `r`: its group exists and has a
      record for `r`. */
  predicate Recorded(lib: Library, r: Root, key: string) {
    key in lib && FindDisk(lib[key].disks, r).Some?
  }

  /** A stored group, or the empty one, satisfies what a scan of a folder
      named for `key` expects. */
  lemma GetOk(lib: Library, key: string)
    requires LibraryOk(lib)
    ensures var g := Get(lib, key);
      GroupOk(g) && (g.displayName == "" || NormalizeName(g.displayName) == key) &&
      forall j :: 0 <= j < |g.disks| ==> NormalizeName(g.disks[j].realFolder) == key
  {
    if key in lib {
      assert EntryOk(key, lib[key]);
    }
  }

  /** Storing a well-formed group keeps the library well formed. */
  lemma PutOk(lib: Library, key: string, g: SeriesGroup)
    requires LibraryOk(lib) && EntryOk(key, g)
    ensures LibraryOk(lib[key := g])
  {
    var lib2 := lib[key := g];
    forall k | k in lib2 ensures EntryOk(k, lib2[k]) {
      if k != key {
        assert lib2[k] == lib[k];
      }
    }
  }

  /** Replacing a group by one that kept all its roots keeps every folder
      on record. */
  lemma PutKeepsRecorded(lib: Library, key: string, g2: SeriesGroup)
    requires forall j :: 0 <= j < |Get(lib, key).disks| ==> FindDisk(g2.disks, Get(lib, key).disks[j].root).Some?
    ensures forall r, f :: Recorded(lib, r, f) ==> Recorded(lib[key := g2], r, f)
  {
    forall r, f | Recorded(lib, r, f) ensures Recorded(lib[key := g2], r, f) {
      if f == key {
        var j := FindDisk(lib[key].disks, r).value;
        assert Get(lib, key).disks[j].root == r;
      }
    }
  }

  /** One series folder of a root's listing, stored back under its key:
      the group read from the library, extended by the folder's walk. */
  function AddFolder(lib: Library, r: Root, folder: string, scans: seq<DirScan>): Library {
    var key := NormalizeName(folder);
    lib[key := AddSeries(Get(lib, key), r, folder, scans)]
  }

  /** One series folder of a root's listing, with its key: the group read
      from the library, extended by the folder's walk, stored back. */
  method ScanFolder(files: map<Path, nat>, lib: Library, r: Root, folder: string, key: string, walk: seq<WalkStep>)
    returns (lib2: Library, ghost scans: seq<DirScan>)
    requires LibraryOk(lib) && key == NormalizeName(folder)
    requires forall k :: 0 <= k < |walk| ==> NoDup(walk[k].names)
    ensures WalkClassified(files, r, folder, walk, scans) && lib2 == AddFolder(lib, r, folder, scans)
    ensures LibraryOk(lib2) && Recorded(lib2, r, key)
    ensures forall q, k :: Recorded(lib, q, k) ==> Recorded(lib2, q, k)
  {
    GetOk(lib, key);
    var g := Get(lib, key);
    var g2;
    g2, scans := ScanSeries(files, g, key, r, folder, walk);
    PutOk(lib, key, g2);
    PutKeepsRecorded(lib, key, g2);
    PutSeries(lib, key, r, folder, g2, scans);
    lib2 := lib[key := g2];
  }

  lemma PutSeries(lib: Library, key: string, r: Root, folder: string, g2: SeriesGroup, scans: seq<DirScan>)
    requires key == NormalizeName(folder) && g2 == AddSeries(Get(lib, key), r, folder, scans)
    ensures lib[key := g2] == AddFolder(lib, r, folder, scans)
  {
  }

  /** The grouping keys of a listing. */
  function KeysOf(folders: seq<string>): (ks: seq<string>)
    ensures |ks| == |folders|
  {
    seq(|folders|, j requires 0 <= j < |folders| => NormalizeName(folders[j]))
  }

  /** What a library keeps on record stays on record. */
  lemma RecordedKept(lib: Library, lib2: Library, r: Root, keys: seq<string>, j: nat)
    requires j < |keys|
    requires forall jj :: 0 <= jj < j ==> Recorded(lib, r, keys[jj])
    requires forall q, k :: Recorded(lib, q, k) ==> Recorded(lib2, q, k)
    requires Recorded(lib2, r, keys[j])
    ensures forall jj :: 0 <= jj < j + 1 ==> Recorded(lib2, r, keys[jj])
  {
  }

  /** The folders of a listing on root `r`, one after the other. */
  function AddFolders(lib: Library, r: Root, folders: seq<string>, scans: seq<seq<DirScan>>): Library
    requires |scans| == |folders|
    decreases |folders|
  {
    if folders == [] then lib
    else
      var n := |folders| - 1;
      AddFolder(AddFolders(lib, r, folders[..n], scans[..n]), r, folders[n], scans[n])
  }

  lemma AddFoldersSnoc(lib: Library, r: Root, folders: seq<string>, scans: seq<seq<DirScan>>, sc: seq<DirScan>)
    requires |scans| < |folders|
    ensures AddFolders(lib, r, folders[..|scans| + 1], scans + [sc]) ==
      AddFolder(AddFolders(lib, r, folders[..|scans|], scans), r, folders[|scans|], sc)
  {
    var j := |scans|;
    var fs, ss := folders[..j + 1], scans + [sc];
    assert fs[..j] == folders[..j] && fs[j] == folders[j];
    assert ss[..j] == scans && ss[j] == sc;
    assert AddFolders(lib, r, fs, ss) == AddFolder(AddFolders(lib, r, fs[..j], ss[..j]), r, fs[j], ss[j]);
  }

  /** `scans` classifies the walk of each folder of the listing, in order. */
  ghost predicate ListingClassified(files: map<Path, nat>, r: Root, folders: seq<string>,
                                    walk: (Root, string) -> seq<WalkStep>, scans: seq<seq<DirScan>>)
    decreases |folders|
  {
    |scans| == |folders| &&
    (folders != [] ==>
      var n := |folders| - 1;
      ListingClassified(files, r, folders[..n], walk, scans[..n]) && WalkClassified(files, r, folders[n], walk(r, folders[n]), scans[n]))
  }

  /** The same, folder by folder. */
  lemma {:induction false} ListingClassifiedEach(files: map<Path, nat>, r: Root, folders: seq<string>,
                                                 walk: (Root, string) -> seq<WalkStep>, scans: seq<seq<DirScan>>)
    requires ListingClassified(files, r, folders, walk, scans)
    ensures |scans| == |folders|
    ensures forall j :: 0 <= j < |folders| ==> WalkClassified(files, r, folders[j], walk(r, folders[j]), scans[j])
    decreases |folders|
  {
    if folders != [] {
      var n := |folders| - 1;
      ListingClassifiedEach(files, r, folders[..n], walk, scans[..n]);
      forall j | 0 <= j < n ensures WalkClassified(files, r, folders[j], walk(r, folders[j]), scans[j]) {
        assert folders[..n][j] == folders[j] && scans[..n][j] == scans[j];
      }
    }
  }

  lemma ListingClassifiedSnoc(files: map<Path, nat>, r: Root, folders: seq<string>,
                              walk: (Root, string) -> seq<WalkStep>, scans: seq<seq<DirScan>>, sc: seq<DirScan>)
    requires |scans| < |folders| && ListingClassified(files, r, folders[..|scans|], walk, scans)
    requires WalkClassified(files, r, folders[|scans|], walk(r, folders[|scans|]), sc)
    ensures ListingClassified(files, r, folders[..|scans| + 1], walk, scans + [sc])
  {
    var j := |scans|;
    assert folders[..j + 1][..j] == folders[..j] && folders[..j + 1][j] == folders[j];
    assert (scans + [sc])[..j] == scans;
  }

  /** The series folders `folders` listed on root `r`. */
  method ScanRoot(files: map<Path, nat>, lib: Library, r: Root, folders: seq<string>, walk: (Root, string) -> seq<WalkStep>)
    returns (lib2: Library, ghost scans: seq<seq<DirScan>>)
    requires LibraryOk(lib)
    requires forall q, f, k :: 0 <= k < |walk(q, f)| ==> NoDup(walk(q, f)[k].names)
    ensures ListingClassified(files, r, folders, walk, scans) && lib2 == AddFolders(lib, r, folders, scans)
    ensures LibraryOk(lib2)
    ensures forall j :: 0 <= j < |folders| ==> Recorded(lib2, r, KeysOf(folders)[j])
    ensures forall q, k :: Recorded(lib, q, k) ==> Recorded(lib2, q, k)
  {
    ghost var keys := KeysOf(folders);
    lib2, scans := lib, [];
    var j := 0;
    while j < |folders|
      invariant 0 <= j <= |folders| && |scans| == j
      invariant RootScanned(files, lib, lib2, r, folders, walk, keys, scans)
    {
      var key := NormalizeName(folders[j]);
      assert key == keys[j];
      var lib3, sc := ScanFolder(files, lib2, r, folders[j], key, walk(r, folders[j]));
      ScanRootStep(files, lib, lib2, lib3, r, folders, walk, keys, scans, sc);
      lib2, scans := lib3, scans + [sc];
      j := j + 1;
    }
    assert folders[..j] == folders;
  }

  /** The state of ScanRoot's loop once the first |scans| folders of the root are scanned. */
  ghost predicate RootScanned(files: map<Path, nat>, lib: Library, lib2: Library, r: Root, folders: seq<string>,
                              walk: (Root, string) -> seq<WalkStep>, keys: seq<string>, scans: seq<seq<DirScan>>)
  {
    |scans| <= |folders| && |keys| == |folders| &&
    ListingClassified(files, r, folders[..|scans|], walk, scans) &&
    lib2 == AddFolders(lib, r, folders[..|scans|], scans) &&
    LibraryOk(lib2) &&
    (forall jj :: 0 <= jj < |scans| ==> Recorded(lib2, r, keys[jj])) &&
    (forall q, k :: Recorded(lib, q, k) ==> Recorded(lib2, q, k))
  }

  /** One folder of ScanRoot's loop: the loop's state after folder
      `|scans|` was scanned into `lib3`. */
  lemma ScanRootStep(files: map<Path, nat>, lib: Library, lib2: Library, lib3: Library, r: Root, folders: seq<string>,
                     walk: (Root, string) -> seq<WalkStep>, keys: seq<string>, scans: seq<seq<DirScan>>, sc: seq<DirScan>)
    requires |scans| < |folders|
    requires RootScanned(files, lib, lib2, r, folders, walk, keys, scans)
    requires WalkClassified(files, r, folders[|scans|], walk(r, folders[|scans|]), sc)
    requires lib3 == AddFolder(lib2, r, folders[|scans|], sc)
    requires LibraryOk(lib3) && Recorded(lib3, r, keys[|scans|])
    requires forall q, k :: Recorded(lib2, q, k) ==> Recorded(lib3, q, k)
    ensures RootScanned(files, lib, lib3, r, folders, walk, keys, scans + [sc])
  {
    RecordedKept(lib2, lib3, r, keys, |scans|);
    AddFoldersSnoc(lib, r, folders, scans, sc);
    ListingClassifiedSnoc(files, r, folders, walk, scans, sc);
  }

  /** The folders listed on a root; none for a root that cannot be listed. */
  function Listed(listing: Root -> Option<seq<string>>, r: Root): seq<string> {
    if listing(r).Some? then listing(r).value else []
  }

  /** The roots, one after the other. */
  function AddRoots(lib: Library, roots: seq<Root>, listing: Root -> Option<seq<string>>, scans: seq<seq<seq<DirScan>>>): Library
    requires ScansShaped(roots, listing, scans)
    decreases |roots|
  {
    if roots == [] then lib
    else
      var n := |roots| - 1;
      AddFolders(AddRoots(lib, roots[..n], listing, scans[..n]), roots[n], Listed(listing, roots[n]), scans[n])
  }

  /** `scans` classifies, root by root, the walk of every folder listed on
      that root. */
  ghost predicate RootsClassified(files: map<Path, nat>, roots: seq<Root>, listing: Root -> Option<seq<string>>,
                                  walk: (Root, string) -> seq<WalkStep>, scans: seq<seq<seq<DirScan>>>)
    decreases |roots|
  {
    |scans| == |roots| &&
    (roots != [] ==>
      var n := |roots| - 1;
      RootsClassified(files, roots[..n], listing, walk, scans[..n]) &&
      ListingClassified(files, roots[n], Listed(listing, roots[n]), walk, scans[n]))
  }

  /** The same, root by root. */
  lemma {:induction false} RootsClassifiedEach(files: map<Path, nat>, roots: seq<Root>, listing: Root -> Option<seq<string>>,
                                               walk: (Root, string) -> seq<WalkStep>, scans: seq<seq<seq<DirScan>>>)
    requires RootsClassified(files, roots, listing, walk, scans)
    ensures |scans| == |roots|
    ensures forall i :: 0 <= i < |roots| ==> ListingClassified(files, roots[i], Listed(listing, roots[i]), walk, scans[i])
    decreases |roots|
  {
    if roots != [] {
      var n := |roots| - 1;
      RootsClassifiedEach(files, roots[..n], listing, walk, scans[..n]);
      forall i | 0 <= i < n ensures ListingClassified(files, roots[i], Listed(listing, roots[i]), walk, scans[i]) {
        assert roots[..n][i] == roots[i] && scans[..n][i] == scans[i];
      }
    }
  }

  /** Every root's scans have one entry per listed folder. */
  predicate ScansShaped(roots: seq<Root>, listing: Root -> Option<seq<string>>, scans: seq<seq<seq<DirScan>>>) {
    |scans| == |roots| && forall i :: 0 <= i < |roots| ==> |scans[i]| == |Listed(listing, roots[i])|
  }

  lemma ShapedSnoc(roots: seq<Root>, listing: Root -> Option<seq<string>>, scans: seq<seq<seq<DirScan>>>, sc: seq<seq<DirScan>>)
    requires |scans| < |roots| && ScansShaped(roots[..|scans|], listing, scans)
    requires |sc| == |Listed(listing, roots[|scans|])|
    ensures ScansShaped(roots[..|scans| + 1], listing, scans + [sc])
  {
    var i := |scans|;
    assert forall ii :: 0 <= ii < i ==> roots[..i + 1][ii] == roots[..i][ii];
  }

  lemma RootsClassifiedSnoc(files: map<Path, nat>, roots: seq<Root>, listing: Root -> Option<seq<string>>,
                            walk: (Root, string) -> seq<WalkStep>, scans: seq<seq<seq<DirScan>>>, sc: seq<seq<DirScan>>)
    requires |scans| < |roots| && RootsClassified(files, roots[..|scans|], listing, walk, scans)
    requires ListingClassified(files, roots[|scans|], Listed(listing, roots[|scans|]), walk, sc)
    ensures RootsClassified(files, roots[..|scans| + 1], listing, walk, scans + [sc])
  {
    var i := |scans|;
    var rs, ss := roots[..i + 1], scans + [sc];
    assert rs[..i] == roots[..i] && rs[i] == roots[i];
    assert ss[..i] == scans && ss[i] == sc;
  }

  lemma AddRootsSnoc(roots: seq<Root>, listing: Root -> Option<seq<string>>, scans: seq<seq<seq<DirScan>>>, sc: seq<seq<DirScan>>)
    requires |scans| < |roots| && ScansShaped(roots[..|scans|], listing, scans)
    requires ScansShaped(roots[..|scans| + 1], listing, scans + [sc])
    ensures AddRoots(map[], roots[..|scans| + 1], listing, scans + [sc]) ==
      AddFolders(AddRoots(map[], roots[..|scans|], listing, scans), roots[|scans|], Listed(listing, roots[|scans|]), sc)
  {
    var i := |scans|;
    var rs, ss := roots[..i + 1], scans + [sc];
    assert rs[..i] == roots[..i] && rs[i] == roots[i];
    assert ss[..i] == scans && ss[i] == sc;
  }

  /** Every folder listed on every root of `roots` is on record under its
      key, with a record for that root. */
  predicate RootsRecorded(lib: Library, roots: seq<Root>, listing: Root -> Option<seq<string>>) {
    forall i, j :: 0 <= i < |roots| && listing(roots[i]).Some? && 0 <= j < |listing(roots[i]).value| ==>
      Recorded(lib, roots[i], KeysOf(listing(roots[i]).value)[j])
  }

  lemma RootsRecordedSnoc(lib: Library, lib2: Library, roots: seq<Root>, listing: Root -> Option<seq<string>>, i: nat)
    requires i < |roots| && RootsRecorded(lib, roots[..i], listing)
    requires forall q, k :: Recorded(lib, q, k) ==> Recorded(lib2, q, k)
    requires listing(roots[i]).Some? ==>
      forall j :: 0 <= j < |listing(roots[i]).value| ==> Recorded(lib2, roots[i], KeysOf(listing(roots[i]).value)[j])
    ensures RootsRecorded(lib2, roots[..i + 1], listing)
  {
    var rs := roots[..i + 1];
    forall ii, j | 0 <= ii < i + 1 && listing(rs[ii]).Some? && 0 <= j < |listing(rs[ii]).value|
      ensures Recorded(lib2, rs[ii], KeysOf(listing(rs[ii]).value)[j])
    {
      if ii < i {
        assert rs[ii] == roots[..i][ii];
      }
    }
  }

  /** `scan_library(roots)`. `listing(r)` is the list of sub-directories of
      root `r` as `os.listdir` orders them, or `None` when `r` does not exist
      or cannot be read; `walk(r, f)` is what `os.walk` yields for the series
      folder `f` on `r`; `files` gives the size of every readable file. The
      result is the library that adding every classified directory of every
      listed folder, root by root, produces; it is well formed, and every
      listed folder is on record under its normalised name, with a record
      for its root. */
  method ScanLibrary(files: map<Path, nat>, roots: seq<Root>, listing: Root -> Option<seq<string>>,
                     walk: (Root, string) -> seq<WalkStep>)
    returns (lib: Library, ghost scans: seq<seq<seq<DirScan>>>)
    requires forall q, f, k :: 0 <= k < |walk(q, f)| ==> NoDup(walk(q, f)[k].names)
    ensures ScansShaped(roots, listing, scans) && RootsClassified(files, roots, listing, walk, scans)
    ensures lib == AddRoots(map[], roots, listing, scans)
    ensures LibraryOk(lib)
    ensures RootsRecorded(lib, roots, listing)
  {
    lib, scans := map[], [];
    var i := 0;
    while i < |roots|
      invariant 0 <= i <= |roots| && |scans| == i
      invariant ScansShaped(roots[..i], listing, scans) && RootsClassified(files, roots[..i], listing, walk, scans)
      invariant lib == AddRoots(map[], roots[..i], listing, scans)
      invariant LibraryOk(lib)
      invariant RootsRecorded(lib, roots[..i], listing)
    {
      var ls := listing(roots[i]);
      ghost var sc: seq<seq<DirScan>> := [];
      ghost var lib0 := lib;
      if ls.Some? {
        lib, sc := ScanRoot(files, lib, roots[i], ls.value, walk);
      } else {
        NothingListed(files, lib, roots[i], walk);
      }
      ScanLibraryStep(files, roots, listing, walk, scans, sc, lib0, lib);
      scans := scans + [sc];
      i := i + 1;
    }
    assert roots[..i] == roots;
  }

  /** A root that does not exist or cannot be listed adds nothing. */
  lemma NothingListed(files: map<Path, nat>, lib: Library, r: Root, walk: (Root, string) -> seq<WalkStep>)
    ensures ListingClassified(files, r, [], walk, []) && AddFolders(lib, r, [], []) == lib
  {
  }

  // ---------------------------------------------------------------------
  // Everything the scan classifies is in the library

  /** One root of ScanLibrary's loop: what the loop keeps after root
      `|scans|` was scanned into `lib`. */
  lemma ScanLibraryStep(files: map<Path, nat>, roots: seq<Root>, listing: Root -> Option<seq<string>>,
                        walk: (Root, string) -> seq<WalkStep>, scans: seq<seq<seq<DirScan>>>, sc: seq<seq<DirScan>>,
                        lib0: Library, lib: Library)
    requires |scans| < |roots|
    requires ScansShaped(roots[..|scans|], listing, scans) && RootsClassified(files, roots[..|scans|], listing, walk, scans)
    requires lib0 == AddRoots(map[], roots[..|scans|], listing, scans)
    requires RootsRecorded(lib0, roots[..|scans|], listing)
    requires ListingClassified(files, roots[|scans|], Listed(listing, roots[|scans|]), walk, sc)
    requires lib == AddFolders(lib0, roots[|scans|], Listed(listing, roots[|scans|]), sc)
    requires forall q, k :: Recorded(lib0, q, k) ==> Recorded(lib, q, k)
    requires var folders := Listed(listing, roots[|scans|]);
      forall j :: 0 <= j < |folders| ==> Recorded(lib, roots[|scans|], KeysOf(folders)[j])
    ensures ScansShaped(roots[..|scans| + 1], listing, scans + [sc])
    ensures RootsClassified(files, roots[..|scans| + 1], listing, walk, scans + [sc])
    ensures lib == AddRoots(map[], roots[..|scans| + 1], listing, scans + [sc])
    ensures RootsRecorded(lib, roots[..|scans| + 1], listing)
  {
    var i := |scans|;
    RootsRecordedSnoc(lib0, lib, roots, listing, i);
    ListingClassifiedEach(files, roots[i], Listed(listing, roots[i]), walk, sc);
    ShapedSnoc(roots, listing, scans, sc);
    RootsClassifiedSnoc(files, roots, listing, walk, scans, sc);
    AddRootsSnoc(roots, listing, scans, sc);
  }

  /** `lib2` holds, under the same key, everything `lib` holds. */
  ghost predicate LibKeeps(lib: Library, lib2: Library) {
    forall key :: key in lib ==> key in lib2 && Keeps(lib[key], lib2[key])
  }

  /** Under `key`, the library holds every directory of a walk. */
  ghost predicate HoldsWalkAt(lib: Library, key: string, scans: seq<DirScan>) {
    key in lib && forall k :: 0 <= k < |scans| ==> HoldsDir(lib[key], scans[k])
  }

  /** Under the key of each listed folder, the library holds every
      directory of that folder's walk. */
  ghost predicate HoldsListing(lib: Library, folders: seq<string>, scans: seq<seq<DirScan>>)
    requires |scans| == |folders|
    decreases |folders|
  {
    folders != [] ==>
      var n := |folders| - 1;
      HoldsListing(lib, folders[..n], scans[..n]) && HoldsWalkAt(lib, NormalizeName(folders[n]), scans[n])
  }

  lemma LibKeepsTrans(lib: Library, lib1: Library, lib2: Library)
    requires LibKeeps(lib, lib1) && LibKeeps(lib1, lib2)
    ensures LibKeeps(lib, lib2)
  {
    forall key | key in lib ensures key in lib2 && Keeps(lib[key], lib2[key]) {
      KeepsTrans(lib[key], lib1[key], lib2[key]);
    }
  }

  lemma HoldsWalkKept(lib: Library, lib2: Library, key: string, scans: seq<DirScan>)
    requires HoldsWalkAt(lib, key, scans) && LibKeeps(lib, lib2)
    ensures HoldsWalkAt(lib2, key, scans)
  {
    forall k | 0 <= k < |scans| ensures HoldsDir(lib2[key], scans[k]) {
      HoldsKept(lib[key], lib2[key], scans[k]);
    }
  }

  lemma {:induction false} HoldsListingKept(lib: Library, lib2: Library, folders: seq<string>, scans: seq<seq<DirScan>>)
    requires |scans| == |folders| && HoldsListing(lib, folders, scans) && LibKeeps(lib, lib2)
    ensures HoldsListing(lib2, folders, scans)
    decreases |folders|
  {
    if folders != [] {
      var n := |folders| - 1;
      HoldsListingKept(lib, lib2, folders[..n], scans[..n]);
      HoldsWalkKept(lib, lib2, NormalizeName(folders[n]), scans[n]);
    }
  }

  /** Adding a folder keeps what the library held, and its key then holds
      every directory of the folder's walk. */
  lemma AddFolderHolds(lib: Library, r: Root, folder: string, scans: seq<DirScan>)
    ensures var lib2 := AddFolder(lib, r, folder, scans);
      LibKeeps(lib, lib2) && HoldsWalkAt(lib2, NormalizeName(folder), scans)
  {
    var key := NormalizeName(folder);
    var g := Get(lib, key);
    var g1 := WithFolder(g, r, folder);
    assert Keeps(g, g1);
    AddWalkHolds(g1, scans);
    KeepsTrans(g, g1, AddSeries(g, r, folder, scans));
  }

  /** After a listing, the library holds every directory of every listed
      folder under the folder's key, and everything it held before. */
  lemma {:induction false} AddFoldersHolds(lib: Library, r: Root, folders: seq<string>, scans: seq<seq<DirScan>>)
    requires |scans| == |folders|
    ensures var lib2 := AddFolders(lib, r, folders, scans);
      LibKeeps(lib, lib2) && HoldsListing(lib2, folders, scans)
    decreases |folders|
  {
    if folders != [] {
      var n := |folders| - 1;
      var lib1 := AddFolders(lib, r, folders[..n], scans[..n]);
      var lib2 := AddFolders(lib, r, folders, scans);
      assert lib2 == AddFolder(lib1, r, folders[n], scans[n]);
      AddFoldersHolds(lib, r, folders[..n], scans[..n]);
      AddFolderHolds(lib1, r, folders[n], scans[n]);
      LibKeepsTrans(lib, lib1, lib2);
      HoldsListingKept(lib1, lib2, folders[..n], scans[..n]);
    }
  }

  /** The library `scan_library` returns holds, under the key of every
      folder listed on every root, each episode copy and each artifact the
      classification of that folder's directories found. */
  lemma {:induction false} AddRootsHolds(lib: Library, roots: seq<Root>, listing: Root -> Option<seq<string>>,
                                         scans: seq<seq<seq<DirScan>>>)
    requires ScansShaped(roots, listing, scans)
    ensures var lib2 := AddRoots(lib, roots, listing, scans);
      LibKeeps(lib, lib2) && forall i :: 0 <= i < |roots| ==> HoldsListing(lib2, Listed(listing, roots[i]), scans[i])
    decreases |roots|
  {
    if roots != [] {
      var n := |roots| - 1;
      var lib1 := AddRoots(lib, roots[..n], listing, scans[..n]);
      var lib2 := AddRoots(lib, roots, listing, scans);
      assert lib2 == AddFolders(lib1, roots[n], Listed(listing, roots[n]), scans[n]);
      AddRootsHolds(lib, roots[..n], listing, scans[..n]);
      AddFoldersHolds(lib1, roots[n], Listed(listing, roots[n]), scans[n]);
      RootsHoldsStep(lib, lib1, lib2, roots, listing, scans);
    }
  }

  /** The step of AddRootsHolds: what the first roots' folders left in
      `lib1` is still held after the last root's folders were added. */
  lemma RootsHoldsStep(lib: Library, lib1: Library, lib2: Library, roots: seq<Root>, listing: Root -> Option<seq<string>>,
                       scans: seq<seq<seq<DirScan>>>)
    requires roots != [] && ScansShaped(roots, listing, scans)
    requires var n := |roots| - 1;
      LibKeeps(lib, lib1) && forall i :: 0 <= i < n ==> HoldsListing(lib1, Listed(listing, roots[..n][i]), scans[..n][i])
    requires var n := |roots| - 1;
      LibKeeps(lib1, lib2) && HoldsListing(lib2, Listed(listing, roots[n]), scans[n])
    ensures LibKeeps(lib, lib2) && forall i :: 0 <= i < |roots| ==> HoldsListing(lib2, Listed(listing, roots[i]), scans[i])
  {
    var n := |roots| - 1;
    LibKeepsTrans(lib, lib1, lib2);
    forall i | 0 <= i < n ensures HoldsListing(lib2, Listed(listing, roots[i]), scans[i]) {
      assert roots[..n][i] == roots[i] && scans[..n][i] == scans[i];
      HoldsListingKept(lib1, lib2, Listed(listing, roots[i]), scans[i]);
    }
  }
}
