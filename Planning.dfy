/** The decisions `process_consolidation` takes for a series before it
    acts: the conflicting-duplicates gate, the bytes each candidate root
    would have to receive, and the choice of the target root. The free space
    of a root is an input `free(st, r)`, evaluated in the state the series
    starts from. */
module Planning {
  import opened Optional
  import opened Volumes
  import opened Inventory
  import opened Sorting
  import opened Scanner

  /** A target must keep more than this much free space (100 GiB) after the
      import. */
  const MIN_FREE_BUFFER: int := 100 * 1024 * 1024 * 1024

  /** Every slot received a copy (so `copies[0]` exists). */
  predicate Stocked(slots: seq<Slot>) {
    forall k :: 0 <= k < |slots| ==> slots[k].copies != []
  }

  predicate LibraryStocked(lib: Library) {
    forall key :: key in lib ==> Stocked(lib[key].slots)
  }

  lemma LibraryOkStocked(lib: Library)
    requires LibraryOk(lib)
    ensures LibraryStocked(lib)
  {
    forall key | key in lib ensures Stocked(lib[key].slots) {
      assert EntryOk(key, lib[key]);
    }
  }

  // ---------------------------------------------------------------------
  // 1. The conflicting-duplicates gate

  /** `set(c['size'] for c in copies)`. */
  function Sizes(cs: seq<EpisodeCopy>): set<int> {
    set m | 0 <= m < |cs| :: cs[m].size
  }

  /** Two copies of the slot differ in size. */
  predicate Conflicting(cs: seq<EpisodeCopy>) {
    exists i, j :: 0 <= i < |cs| && 0 <= j < |cs| && cs[i].size != cs[j].size
  }

  predicate HasBadDupe(slots: seq<Slot>) {
    exists k :: 0 <= k < |slots| && Conflicting(slots[k].copies)
  }

  /** The source's test, more than one copy with more than one distinct
      size, holds exactly when two copies differ in size. */
  lemma ConflictBySizes(cs: seq<EpisodeCopy>)
    ensures (|cs| > 1 && |Sizes(cs)| > 1) <==> Conflicting(cs)
  {
    if Conflicting(cs) {
      var i, j :| 0 <= i < |cs| && 0 <= j < |cs| && cs[i].size != cs[j].size;
      assert {cs[i].size, cs[j].size} <= Sizes(cs);
      assert |{cs[i].size, cs[j].size}| == 2;
      SubsetCard({cs[i].size, cs[j].size}, Sizes(cs));
    } else if cs != [] {
      assert Sizes(cs) == {cs[0].size};
    } else {
      assert Sizes(cs) == {};
    }
  }

  lemma SubsetCard(a: set<int>, b: set<int>)
    requires a <= b
    ensures |a| <= |b|
  {
    assert b == a + (b - a);
  }

  /** The gate: the loop over the slots that stops at the first one whose
      copies differ in size. */
  method HasConflict(slots: seq<Slot>) returns (bad: bool)
    ensures bad == HasBadDupe(slots)
  {
    bad := false;
    var k := 0;
    while k < |slots|
      invariant 0 <= k <= |slots|
      invariant forall kk :: 0 <= kk < k ==> !Conflicting(slots[kk].copies)
      invariant !bad
    {
      var copies := slots[k].copies;
      ConflictBySizes(copies);
      if |copies| > 1 {
        var sizes := Sizes(copies);
        if |sizes| > 1 {
          bad := true;
          return;
        }
      }
      k := k + 1;
    }
  }

  // ---------------------------------------------------------------------
  // 2. The bytes a root would have to receive, and the target

  /** Some copy is on root `d`. */
  predicate OnDisk(cs: seq<EpisodeCopy>, d: Root) {
    exists m :: 0 <= m < |cs| && cs[m].disk == d
  }

  /** Per slot without a copy on `d`, the aggregate of its first copy. */
  function SlotsNeeded(slots: seq<Slot>, d: Root): int
    requires Stocked(slots)
    decreases |slots|
  {
    if slots == [] then 0
    else
      var last := slots[|slots| - 1];
      SlotsNeeded(slots[..|slots| - 1], d) + (if OnDisk(last.copies, d) then 0 else last.copies[0].totalSize)
  }

  /** The sizes of the artifacts on other roots. */
  function ArtifactsNeeded(arts: seq<Artifact>, d: Root): int
    decreases |arts|
  {
    if arts == [] then 0
    else
      var last := arts[|arts| - 1];
      ArtifactsNeeded(arts[..|arts| - 1], d) + (if last.disk != d then last.size else 0)
  }

  /** `bytes_needed` for candidate root `d`. */
  function Needed(g: SeriesGroup, d: Root): int
    requires Stocked(g.slots)
  {
    SlotsNeeded(g.slots, d) + ArtifactsNeeded(g.artifacts, d)
  }

  /** The sum over the slots of their first copies' aggregates. */
  function SlotsTotal(slots: seq<Slot>): int
    requires Stocked(slots)
    decreases |slots|
  {
    if slots == [] then 0 else SlotsTotal(slots[..|slots| - 1]) + slots[|slots| - 1].copies[0].totalSize
  }

  function ArtifactsTotal(arts: seq<Artifact>): int
    decreases |arts|
  {
    if arts == [] then 0 else ArtifactsTotal(arts[..|arts| - 1]) + arts[|arts| - 1].size
  }

  /** Every slot has exactly one copy. */
  predicate Single(slots: seq<Slot>) {
    forall k :: 0 <= k < |slots| ==> |slots[k].copies| == 1
  }

  lemma {:induction false} SlotsNeededPlusShare(slots: seq<Slot>, d: Root)
    requires Stocked(slots) && Single(slots)
    ensures SlotsNeeded(slots, d) + SlotsShare(slots, d) == SlotsTotal(slots)
    decreases |slots|
  {
    if slots != [] {
      var n := |slots| - 1;
      SlotsNeededPlusShare(slots[..n], d);
      var cs := slots[n].copies;
      assert cs[..|cs| - 1] == [];
      assert CopiesShare(cs, d) == (if cs[0].disk == d then cs[0].totalSize else 0);
      assert OnDisk(cs, d) <==> cs[0].disk == d;
    }
  }

  lemma {:induction false} ArtifactsNeededPlusShare(arts: seq<Artifact>, d: Root)
    ensures ArtifactsNeeded(arts, d) + ArtifactsShare(arts, d) == ArtifactsTotal(arts)
    decreases |arts|
  {
    if arts != [] {
      ArtifactsNeededPlusShare(arts[..|arts| - 1], d);
    }
  }

  /** Without redundant copies, what a root must receive is what the series
      holds elsewhere: its bytes needed and its share add up to the whole
      series. */
  lemma NeededPlusShare(g: SeriesGroup, d: Root)
    requires Stocked(g.slots) && Single(g.slots)
    ensures Needed(g, d) + Share(g, d) == SlotsTotal(g.slots) + ArtifactsTotal(g.artifacts)
  {
    SlotsNeededPlusShare(g.slots, d);
    ArtifactsNeededPlusShare(g.artifacts, d);
  }

  /** So in a balanced group without redundant copies the root holding the
      most needs the least. */
  lemma LargestNeedsLeast(g: SeriesGroup, i: nat, j: nat)
    requires Stocked(g.slots) && Single(g.slots) && Balanced(g)
    requires i < |g.disks| && j < |g.disks| && g.disks[i].totalSize >= g.disks[j].totalSize
    ensures Needed(g, g.disks[i].root) <= Needed(g, g.disks[j].root)
  {
    NeededPlusShare(g, g.disks[i].root);
    NeededPlusShare(g, g.disks[j].root);
  }

  /** The loops computing `bytes_needed`. */
  method BytesNeeded(g: SeriesGroup, d: Root) returns (n: int)
    requires Stocked(g.slots)
    ensures n == Needed(g, d)
  {
    n := 0;
    var k := 0;
    while k < |g.slots|
      invariant 0 <= k <= |g.slots|
      invariant n == SlotsNeeded(g.slots[..k], d)
    {
      var copies := g.slots[k].copies;
      if !OnDisk(copies, d) {
        n := n + copies[0].totalSize;
      }
      assert g.slots[..k + 1][..k] == g.slots[..k];
      k := k + 1;
    }
    assert g.slots[..k] == g.slots;
    var a := 0;
    ghost var slotsPart := n;
    while a < |g.artifacts|
      invariant 0 <= a <= |g.artifacts|
      invariant n == slotsPart + ArtifactsNeeded(g.artifacts[..a], d)
    {
      if g.artifacts[a].disk != d {
        n := n + g.artifacts[a].size;
      }
      assert g.artifacts[..a + 1][..a] == g.artifacts[..a];
      a := a + 1;
    }
    assert g.artifacts[..a] == g.artifacts;
  }

  /** The candidate roots keep enough space free after the import. */
  predicate Fits(g: SeriesGroup, d: Root, st: FsState, free: (FsState, Root) -> int)
    requires Stocked(g.slots)
  {
    free(st, d) - Needed(g, d) > MIN_FREE_BUFFER
  }

  /** The position of the first candidate that fits, if any. */
  function FirstFit(cands: seq<DiskStat>, g: SeriesGroup, st: FsState, free: (FsState, Root) -> int): (r: Option<nat>)
    requires Stocked(g.slots)
    ensures r.Some? ==> r.value < |cands| && Fits(g, cands[r.value].root, st, free)
    ensures r.Some? ==> forall j :: 0 <= j < r.value ==> !Fits(g, cands[j].root, st, free)
    ensures r.None? ==> forall j :: 0 <= j < |cands| ==> !Fits(g, cands[j].root, st, free)
    decreases |cands|
  {
    if cands == [] then None
    else if Fits(g, cands[0].root, st, free) then Some(0)
    else
      match FirstFit(cands[1..], g, st, free)
      case None => None
      case Some(i) => Some(i + 1)
  }

  function TotalOf(d: DiskStat): int { d.totalSize }

  /** `sorted(disks.items(), key=total_size, reverse=True)`. */
  function Candidates(g: SeriesGroup): seq<DiskStat> {
    SortDesc(g.disks, TotalOf)
  }

  /** The chosen root holds at least as much of the series as every root
      that would also fit; when none is chosen, no root fits. */
  lemma TargetIsLargestFitting(g: SeriesGroup, st: FsState, free: (FsState, Root) -> int)
    requires Stocked(g.slots)
    ensures var cands := Candidates(g);
      var fit := FirstFit(cands, g, st, free);
      (fit.Some? ==> (cands[fit.value] in g.disks &&
        forall j :: 0 <= j < |g.disks| && Fits(g, g.disks[j].root, st, free) ==>
          g.disks[j].totalSize <= cands[fit.value].totalSize)) &&
      (fit.None? ==> forall j :: 0 <= j < |g.disks| ==> !Fits(g, g.disks[j].root, st, free))
  {
    var fit := FirstFit(Candidates(g), g, st, free);
    if fit.Some? {
      FitIsLargest(g, st, free, fit.value);
    } else {
      forall j | 0 <= j < |g.disks| ensures !Fits(g, g.disks[j].root, st, free) {
        var m := InCandidates(g, j);
      }
    }
  }

  /** The first candidate that fits is a root of the series, and the largest
      of those that fit. */
  lemma FitIsLargest(g: SeriesGroup, st: FsState, free: (FsState, Root) -> int, i: nat)
    requires Stocked(g.slots) && FirstFit(Candidates(g), g, st, free) == Some(i)
    ensures Candidates(g)[i] in g.disks
    ensures forall j :: 0 <= j < |g.disks| && Fits(g, g.disks[j].root, st, free) ==>
      g.disks[j].totalSize <= Candidates(g)[i].totalSize
  {
    var cands := Candidates(g);
    SortDescCorrect(g.disks, TotalOf);
    assert cands[i] in multiset(cands);
    forall j | 0 <= j < |g.disks| && Fits(g, g.disks[j].root, st, free)
      ensures g.disks[j].totalSize <= cands[i].totalSize
    {
      var m := InCandidates(g, j);
      if i < m {
        assert TotalOf(cands[i]) >= TotalOf(cands[m]);
      }
    }
  }

  /** Every root of a series is one of its candidates. */
  lemma InCandidates(g: SeriesGroup, j: nat) returns (m: nat)
    requires j < |g.disks|
    ensures m < |Candidates(g)| && Candidates(g)[m] == g.disks[j]
  {
    SortDescCorrect(g.disks, TotalOf);
    assert g.disks[j] in multiset(g.disks);
    assert g.disks[j] in multiset(Candidates(g));
    m :| m < |Candidates(g)| && Candidates(g)[m] == g.disks[j];
  }

  /** The loop over the candidates, largest first, that stops at the first
      one with enough space. */
  method SelectTarget(cands: seq<DiskStat>, g: SeriesGroup, st: FsState, free: (FsState, Root) -> int)
    returns (fit: Option<nat>)
    requires Stocked(g.slots)
    ensures fit == FirstFit(cands, g, st, free)
  {
    var i := 0;
    while i < |cands|
      invariant 0 <= i <= |cands|
      invariant forall j :: 0 <= j < i ==> !Fits(g, cands[j].root, st, free)
    {
      var needed := BytesNeeded(g, cands[i].root);
      if free(st, cands[i].root) - needed > MIN_FREE_BUFFER {
        FirstFitAt(cands, g, st, free, i);
        return Some(i);
      }
      i := i + 1;
    }
    FirstFitNone(cands, g, st, free);
    return None;
  }

  lemma FirstFitAt(cands: seq<DiskStat>, g: SeriesGroup, st: FsState, free: (FsState, Root) -> int, i: nat)
    requires Stocked(g.slots) && i < |cands|
    requires forall j :: 0 <= j < i ==> !Fits(g, cands[j].root, st, free)
    requires Fits(g, cands[i].root, st, free)
    ensures FirstFit(cands, g, st, free) == Some(i)
  {
  }

  lemma FirstFitNone(cands: seq<DiskStat>, g: SeriesGroup, st: FsState, free: (FsState, Root) -> int)
    requires Stocked(g.slots)
    requires forall j :: 0 <= j < |cands| ==> !Fits(g, cands[j].root, st, free)
    ensures FirstFit(cands, g, st, free) == None
  {
  }
}
