/** The per-directory part of `scan_library`: the files of one directory of
    a series folder are sorted into episodes (the largest file of each
    (season, episode) slot, when it is above the minimum size), their
    companions (smaller files of the same slot, and files whose name starts
    with the episode's name up to the end of the pattern) and artifacts
    (everything else except unclaimed dot-files). */
module Classify {
  import opened Text
  import opened Optional
  import opened Volumes
  import opened Pattern
  import opened Sorting
  import opened Inventory

  /** A file that matches the episode pattern: its path, size and
      `match.end()`. */
  datatype Cand = Cand(path: Path, size: int, matchEnd: nat)

  function CandSize(c: Cand): int { c.size }

  /** The matching files of one slot, in listing order (`local_ep_groups`). */
  datatype Group = Group(season: nat, episode: nat, members: seq<Cand>)

  /** An episode copy found in this directory, with its slot. */
  datatype Found = Found(season: nat, episode: nat, copy: EpisodeCopy)

  predicate HasKey(f: string, s: nat, e: nat) {
    var m := Search(f);
    m.Some? && m.value.season == s && m.value.episode == e
  }

  function CandOf(files: map<Path, nat>, dir: DirPath, f: string): (c: Cand)
    requires Search(f).Some?
    ensures c.path == Join(dir, f) && c.matchEnd <= |f|
  {
    var p := Join(dir, f);
    Cand(p, GetFileInfo(files, p), Search(f).value.end)
  }

  /** The part of a candidate's name up to the end of the pattern. */
  function Prefix(c: Cand): string {
    if c.matchEnd <= |c.path.name| then c.path.name[..c.matchEnd] else c.path.name
  }

  /** The files of slot (s, e) among `names`, in listing order. */
  function MembersOf(files: map<Path, nat>, dir: DirPath, names: seq<string>, s: nat, e: nat): seq<Cand>
    decreases |names|
  {
    if names == [] then []
    else
      var f := names[|names| - 1];
      MembersOf(files, dir, names[..|names| - 1], s, e) + (if HasKey(f, s, e) then [CandOf(files, dir, f)] else [])
  }

  /** The names that do not match the pattern, in listing order. */
  function UnmatchedOf(names: seq<string>): seq<string>
    decreases |names|
  {
    if names == [] then []
    else
      var f := names[|names| - 1];
      UnmatchedOf(names[..|names| - 1]) + (if Search(f).None? then [f] else [])
  }

  lemma {:induction false} MembersFacts(files: map<Path, nat>, dir: DirPath, names: seq<string>, s: nat, e: nat)
    ensures var ms := MembersOf(files, dir, names, s, e);
      forall c :: c in ms ==> HasKey(c.path.name, s, e) && c.path.name in names && c == CandOf(files, dir, c.path.name)
    ensures NoDup(names) ==> var ms := MembersOf(files, dir, names, s, e);
      forall i, j :: 0 <= i < j < |ms| ==> ms[i].path.name != ms[j].path.name
    decreases |names|
  {
    if names != [] {
      var init := names[..|names| - 1];
      MembersFacts(files, dir, init, s, e);
      assert forall x :: x in init ==> x in names;
      if NoDup(names) {
        assert NoDup(init);
        assert names[|names| - 1] !in init;
      }
    }
  }

  lemma {:induction false} UnmatchedFacts(names: seq<string>)
    ensures forall n :: n in UnmatchedOf(names) ==> n in names && Search(n).None?
    ensures NoDup(names) ==> NoDup(UnmatchedOf(names))
    decreases |names|
  {
    if names != [] {
      var init := names[..|names| - 1];
      UnmatchedFacts(init);
      assert forall x :: x in init ==> x in names;
      if NoDup(names) {
        assert NoDup(init);
        assert names[|names| - 1] !in init;
      }
    }
  }

  lemma MembersAppend(files: map<Path, nat>, dir: DirPath, names: seq<string>, i: nat, s: nat, e: nat)
    requires i < |names|
    ensures MembersOf(files, dir, names[..i + 1], s, e) ==
      MembersOf(files, dir, names[..i], s, e) + (if HasKey(names[i], s, e) then [CandOf(files, dir, names[i])] else [])
  {
    assert names[..i + 1][..i] == names[..i];
  }

  lemma UnmatchedAppend(names: seq<string>, i: nat)
    requires i < |names|
    ensures UnmatchedOf(names[..i + 1]) == UnmatchedOf(names[..i]) + (if Search(names[i]).None? then [names[i]] else [])
  {
    assert names[..i + 1][..i] == names[..i];
  }

  /** The first index of the group of slot (s, e), if any. */
  function FindGroup(groups: seq<Group>, s: nat, e: nat): (r: Option<nat>)
    ensures r.Some? ==> r.value < |groups| && groups[r.value].season == s && groups[r.value].episode == e
    ensures r.None? ==> forall k :: 0 <= k < |groups| ==> !(groups[k].season == s && groups[k].episode == e)
    decreases |groups|
  {
    if groups == [] then None
    else if groups[|groups| - 1].season == s && groups[|groups| - 1].episode == e then Some(|groups| - 1)
    else FindGroup(groups[..|groups| - 1], s, e)
  }

  predicate DistinctKeys(groups: seq<Group>) {
    forall k, l :: 0 <= k < l < |groups| ==> !(groups[k].season == groups[l].season && groups[k].episode == groups[l].episode)
  }

  /** What holds of the groups built from the names `ns` read so far: one
      group per slot, holding that slot's files in listing order, and every
      matching name has its group. */
  predicate GroupsOk(files: map<Path, nat>, dir: DirPath, ns: seq<string>, groups: seq<Group>) {
    DistinctKeys(groups) &&
    (forall k :: 0 <= k < |groups| ==>
      groups[k].members == MembersOf(files, dir, ns, groups[k].season, groups[k].episode) && groups[k].members != []) &&
    Covered(ns, groups)
  }

  /** Every matching name among `ns` has a group for its slot. */
  predicate Covered(ns: seq<string>, groups: seq<Group>) {
    forall j :: 0 <= j < |ns| && Search(ns[j]).Some? ==>
      FindGroup(groups, Search(ns[j]).value.season, Search(ns[j]).value.episode).Some?
  }

  /** Coverage survives reading one more name when the groups keep their
      slots in place and the name's slot has a group. */
  lemma CoverGrow(ns: seq<string>, f: string, groups: seq<Group>, g2: seq<Group>)
    requires Covered(ns, groups)
    requires |groups| <= |g2|
    requires forall k :: 0 <= k < |groups| ==> g2[k].season == groups[k].season && g2[k].episode == groups[k].episode
    requires Search(f).Some? ==> FindGroup(g2, Search(f).value.season, Search(f).value.episode).Some?
    ensures Covered(ns + [f], g2)
  {
    var ns2 := ns + [f];
    forall j | 0 <= j < |ns2| && Search(ns2[j]).Some?
      ensures FindGroup(g2, Search(ns2[j]).value.season, Search(ns2[j]).value.episode).Some?
    {
      if j < |ns| {
        assert ns2[j] == ns[j];
        var m := Search(ns[j]).value;
        var l := FindGroup(groups, m.season, m.episode).value;
        assert g2[l].season == m.season && g2[l].episode == m.episode;
      }
    }
  }

  /** A slot without a group has no files among the names read so far. */
  lemma {:induction false} MembersNone(files: map<Path, nat>, dir: DirPath, ns: seq<string>, s: nat, e: nat)
    requires forall j :: 0 <= j < |ns| ==> !HasKey(ns[j], s, e)
    ensures MembersOf(files, dir, ns, s, e) == []
    decreases |ns|
  {
    if ns != [] {
      MembersNone(files, dir, ns[..|ns| - 1], s, e);
    }
  }

  /** Reading a name that matches a slot with a group appends it there. */
  lemma GroupsExtend(files: map<Path, nat>, dir: DirPath, names: seq<string>, i: nat, groups: seq<Group>, k: nat)
    requires i < |names| && GroupsOk(files, dir, names[..i], groups)
    requires Search(names[i]).Some? && k < |groups|
    requires groups[k].season == Search(names[i]).value.season && groups[k].episode == Search(names[i]).value.episode
    ensures GroupsOk(files, dir, names[..i + 1],
      groups[k := Group(groups[k].season, groups[k].episode, groups[k].members + [CandOf(files, dir, names[i])])])
  {
    var g2 := groups[k := Group(groups[k].season, groups[k].episode, groups[k].members + [CandOf(files, dir, names[i])])];
    forall l | 0 <= l < |g2|
      ensures g2[l].members == MembersOf(files, dir, names[..i + 1], g2[l].season, g2[l].episode)
    {
      MembersAppend(files, dir, names, i, g2[l].season, g2[l].episode);
    }
    assert names[..i + 1] == names[..i] + [names[i]];
    assert g2[k].season == groups[k].season && g2[k].episode == groups[k].episode;
    CoverGrow(names[..i], names[i], groups, g2);
  }

  /** Reading a name of a slot without a group opens a group for it. */
  lemma GroupsNew(files: map<Path, nat>, dir: DirPath, names: seq<string>, i: nat, groups: seq<Group>)
    requires i < |names| && GroupsOk(files, dir, names[..i], groups)
    requires Search(names[i]).Some?
    requires FindGroup(groups, Search(names[i]).value.season, Search(names[i]).value.episode).None?
    ensures GroupsOk(files, dir, names[..i + 1],
      groups + [Group(Search(names[i]).value.season, Search(names[i]).value.episode, [CandOf(files, dir, names[i])])])
  {
    var m := Search(names[i]).value;
    var g2 := groups + [Group(m.season, m.episode, [CandOf(files, dir, names[i])])];
    GroupsNewMembers(files, dir, names, i, groups);
    assert names[..i + 1] == names[..i] + [names[i]];
    assert g2[|groups|].season == m.season && g2[|groups|].episode == m.episode;
    CoverGrow(names[..i], names[i], groups, g2);
  }

  lemma GroupsNewMembers(files: map<Path, nat>, dir: DirPath, names: seq<string>, i: nat, groups: seq<Group>)
    requires i < |names| && GroupsOk(files, dir, names[..i], groups)
    requires Search(names[i]).Some?
    requires FindGroup(groups, Search(names[i]).value.season, Search(names[i]).value.episode).None?
    ensures var m := Search(names[i]).value;
      var g2 := groups + [Group(m.season, m.episode, [CandOf(files, dir, names[i])])];
      forall l :: 0 <= l < |g2| ==> g2[l].members == MembersOf(files, dir, names[..i + 1], g2[l].season, g2[l].episode)
  {
    var m := Search(names[i]).value;
    var g2 := groups + [Group(m.season, m.episode, [CandOf(files, dir, names[i])])];
    forall j | 0 <= j < i ensures !HasKey(names[..i][j], m.season, m.episode) {
    }
    MembersNone(files, dir, names[..i], m.season, m.episode);
    forall l | 0 <= l < |g2|
      ensures g2[l].members == MembersOf(files, dir, names[..i + 1], g2[l].season, g2[l].episode)
    {
      MembersAppend(files, dir, names, i, g2[l].season, g2[l].episode);
    }
  }

  /** Reading a name that does not match leaves the groups as they are. */
  lemma GroupsSkip(files: map<Path, nat>, dir: DirPath, names: seq<string>, i: nat, groups: seq<Group>)
    requires i < |names| && GroupsOk(files, dir, names[..i], groups)
    requires Search(names[i]).None?
    ensures GroupsOk(files, dir, names[..i + 1], groups)
  {
    forall l | 0 <= l < |groups|
      ensures groups[l].members == MembersOf(files, dir, names[..i + 1], groups[l].season, groups[l].episode)
    {
      MembersAppend(files, dir, names, i, groups[l].season, groups[l].episode);
    }
    assert names[..i + 1] == names[..i] + [names[i]];
    CoverGrow(names[..i], names[i], groups, groups);
  }

  /** Files one name to its slot's group, opening the group at the end
      when the slot has none yet; a name that does not match is skipped. */
  function AddName(files: map<Path, nat>, dir: DirPath, groups: seq<Group>, f: string): seq<Group> {
    var m := Search(f);
    if m.None? then groups
    else
      var k := FindGroup(groups, m.value.season, m.value.episode);
      if k.Some? then groups[k.value := Group(groups[k.value].season, groups[k.value].episode, groups[k.value].members + [CandOf(files, dir, f)])]
      else groups + [Group(m.value.season, m.value.episode, [CandOf(files, dir, f)])]
  }

  /** The groups after reading all of `ns` (`local_ep_groups`). */
  function Grouped(files: map<Path, nat>, dir: DirPath, ns: seq<string>): seq<Group>
    decreases |ns|
  {
    if ns == [] then [] else AddName(files, dir, Grouped(files, dir, ns[..|ns| - 1]), ns[|ns| - 1])
  }

  /** The grouping holds every slot's files once, in listing order. */
  lemma {:induction false} GroupedOk(files: map<Path, nat>, dir: DirPath, ns: seq<string>)
    ensures GroupsOk(files, dir, ns, Grouped(files, dir, ns))
    decreases |ns|
  {
    if ns != [] {
      var i := |ns| - 1;
      assert ns[..i + 1] == ns;
      var groups := Grouped(files, dir, ns[..i]);
      GroupedOk(files, dir, ns[..i]);
      var m := Search(ns[i]);
      if m.None? {
        GroupsSkip(files, dir, ns, i, groups);
      } else if FindGroup(groups, m.value.season, m.value.episode).Some? {
        GroupsExtend(files, dir, ns, i, groups, FindGroup(groups, m.value.season, m.value.episode).value);
      } else {
        GroupsNew(files, dir, ns, i, groups);
      }
    }
  }

  /** Step 1: group the matching files by slot, in order of first
      occurrence, and keep the others aside. */
  method GroupMatches(files: map<Path, nat>, dir: DirPath, names: seq<string>) returns (groups: seq<Group>, unmatched: seq<string>)
    ensures groups == Grouped(files, dir, names)
    ensures unmatched == UnmatchedOf(names)
    ensures GroupsOk(files, dir, names, groups)
  {
    groups, unmatched := [], [];
    var i := 0;
    while i < |names|
      invariant 0 <= i <= |names|
      invariant unmatched == UnmatchedOf(names[..i])
      invariant groups == Grouped(files, dir, names[..i])
    {
      var f := names[i];
      UnmatchedAppend(names, i);
      assert names[..i + 1][..i] == names[..i];
      var m := Search(f);
      if m.Some? {
        var c := CandOf(files, dir, f);
        var k := FindGroup(groups, m.value.season, m.value.episode);
        if k.Some? {
          groups := groups[k.value := Group(groups[k.value].season, groups[k.value].episode, groups[k.value].members + [c])];
        } else {
          groups := groups + [Group(m.value.season, m.value.episode, [c])];
        }
      } else {
        unmatched := unmatched + [f];
      }
      i := i + 1;
    }
    assert names[..i] == names;
    GroupedOk(files, dir, names);
  }

  /** The names claimed so far, over all copies found. */
  function FoundNames(found: seq<Found>): seq<string>
    decreases |found|
  {
    if found == [] then [] else FoundNames(found[..|found| - 1]) + CopyNames(found[|found| - 1].copy)
  }

  /** The copy recorded for slot (s, e) of this directory, in terms of the
      slot's matching files `ms`: it is the first file of largest size among
      them and above the minimum size; its first companions are the other
      matching files, largest first; the remaining ones are non-matching
      files that start with the episode's name up to the end of the pattern
      (FoundCompanions shows there are none); and its aggregate size is its
      own size plus its companions'. */
  predicate CopyOfSlot(files: map<Path, nat>, dir: DirPath, disk: Root, rel: seq<string>, unmatched: seq<string>,
                       ms: seq<Cand>, c: EpisodeCopy) {
    ms != [] &&
    var best := ms[FirstMax(ms, CandSize)];
    c.path == best.path && c.size == best.size && c.size > MIN_VIDEO_SIZE &&
    c.disk == disk && c.relDir == rel &&
    SmallerFirst(SortDesc(ms, CandSize), c.companions) &&
    PrefixRest(files, dir, unmatched, Prefix(best), c.companions, |ms| - 1) &&
    c.totalSize == c.size + SumSizes(c.companions)
  }

  /** The companions start with the sorted files after the head. */
  predicate SmallerFirst(sorted: seq<Cand>, comps: seq<Companion>) {
    |sorted| - 1 <= |comps| &&
    forall j :: 0 <= j < |sorted| - 1 ==> comps[j] == Companion(sorted[j + 1].path, sorted[j + 1].size)
  }

  /** The companions from index `from` on are non-matching files of this
      directory that start with `prefix`, with their sizes. */
  predicate PrefixRest(files: map<Path, nat>, dir: DirPath, unmatched: seq<string>, prefix: string, comps: seq<Companion>, from: int) {
    forall j :: 0 <= from <= j < |comps| ==>
      var n := comps[j].path.name;
      comps[j].path == Join(dir, n) && n in unmatched && StartsWith(n, prefix) &&
      comps[j].size == GetFileInfo(files, comps[j].path)
  }

  predicate FoundOk(files: map<Path, nat>, dir: DirPath, disk: Root, rel: seq<string>, names: seq<string>, fd: Found) {
    CopyOfSlot(files, dir, disk, rel, UnmatchedOf(names), MembersOf(files, dir, names, fd.season, fd.episode), fd.copy)
  }

  /** No two candidates share a name. */
  predicate DistinctNames(ms: seq<Cand>) {
    forall i, j :: 0 <= i < j < |ms| ==> ms[i].path.name != ms[j].path.name
  }

  /** Sorting keeps the candidates and their distinct names. */
  lemma SortedMembers(ms: seq<Cand>)
    requires ms != [] && DistinctNames(ms)
    ensures var sorted := SortDesc(ms, CandSize);
      |sorted| == |ms| && sorted[0] == ms[FirstMax(ms, CandSize)] &&
      (forall a :: 0 <= a < |sorted| ==> sorted[a] in ms) &&
      DistinctNames(sorted)
  {
    var sorted := SortDesc(ms, CandSize);
    SortDescCorrect(ms, CandSize);
    SortDescHead(ms, CandSize);
    forall a | 0 <= a < |sorted| ensures sorted[a] in ms {
      assert sorted[a] in multiset(sorted);
    }
    forall a, b | 0 <= a < b < |sorted| ensures sorted[a].path.name != sorted[b].path.name {
      SortedDistinct(ms, sorted, a, b);
    }
  }

  /** The smaller files of the slot become companions, largest first, and
      are claimed. */
  method ClaimSmaller(sorted: seq<Cand>, seen0: set<string>) returns (smaller: seq<Companion>, total: int, seen: set<string>)
    requires sorted != []
    ensures |smaller| == |sorted| - 1
    ensures forall j :: 0 <= j < |smaller| ==> smaller[j] == Companion(sorted[j + 1].path, sorted[j + 1].size)
    ensures total == SumSizes(smaller)
    ensures forall n :: n in seen <==> n in seen0 || n in CompanionNames(smaller)
  {
    smaller, total, seen := [], 0, seen0;
    var i := 1;
    while i < |sorted|
      invariant 1 <= i <= |sorted|
      invariant |smaller| == i - 1
      invariant forall j :: 0 <= j < i - 1 ==> smaller[j] == Companion(sorted[j + 1].path, sorted[j + 1].size)
      invariant total == SumSizes(smaller)
      invariant forall n :: n in seen <==> n in seen0 || n in CompanionNames(smaller)
    {
      var other := sorted[i];
      seen := seen + {other.path.name};
      SumSizesAppend(smaller, Companion(other.path, other.size));
      CompanionNamesAppend(smaller, Companion(other.path, other.size));
      smaller := smaller + [Companion(other.path, other.size)];
      total := total + other.size;
      i := i + 1;
    }
  }

  /** What holds after the first `u` non-matching names were considered:
      the companions added are distinct unclaimed files with the prefix,
      every such file among the first `u` names was added, and `seen` is
      what was claimed before plus what was added. */
  ghost predicate PrefixInv(files: map<Path, nat>, dir: DirPath, unmatched: seq<string>, prefix: string, seen0: set<string>,
                            u: nat, extra: seq<Companion>, total: int, seen: set<string>)
    requires u <= |unmatched|
  {
    (forall j :: 0 <= j < |extra| ==>
      var n := extra[j].path.name;
      extra[j].path == Join(dir, n) && n in unmatched && StartsWith(n, prefix) && n !in seen0 &&
      extra[j].size == GetFileInfo(files, extra[j].path)) &&
    (forall j, l :: 0 <= j < l < |extra| ==> extra[j].path.name != extra[l].path.name) &&
    (forall v :: 0 <= v < u && StartsWith(unmatched[v], prefix) && unmatched[v] !in seen0 ==>
      unmatched[v] in CompanionNames(extra)) &&
    total == SumSizes(extra) &&
    (forall n :: n in seen <==> n in seen0 || n in CompanionNames(extra))
  }

  lemma PrefixSkip(files: map<Path, nat>, dir: DirPath, unmatched: seq<string>, prefix: string, seen0: set<string>,
                   u: nat, extra: seq<Companion>, total: int, seen: set<string>)
    requires u < |unmatched| && PrefixInv(files, dir, unmatched, prefix, seen0, u, extra, total, seen)
    requires unmatched[u] in seen || !StartsWith(unmatched[u], prefix)
    ensures PrefixInv(files, dir, unmatched, prefix, seen0, u + 1, extra, total, seen)
  {
  }

  lemma PrefixAdd(files: map<Path, nat>, dir: DirPath, unmatched: seq<string>, prefix: string, seen0: set<string>,
                  u: nat, extra: seq<Companion>, total: int, seen: set<string>)
    requires u < |unmatched| && PrefixInv(files, dir, unmatched, prefix, seen0, u, extra, total, seen)
    requires unmatched[u] !in seen && StartsWith(unmatched[u], prefix)
    ensures var p := Join(dir, unmatched[u]); var c := Companion(p, GetFileInfo(files, p));
      PrefixInv(files, dir, unmatched, prefix, seen0, u + 1, extra + [c], total + c.size, seen + {unmatched[u]})
  {
    var um := unmatched[u];
    var p := Join(dir, um);
    var c := Companion(p, GetFileInfo(files, p));
    var e2 := extra + [c];
    SumSizesAppend(extra, c);
    CompanionNamesAppend(extra, c);
    assert CompanionNames(e2) == CompanionNames(extra) + [um];
    forall j, l | 0 <= j < l < |e2| ensures e2[j].path.name != e2[l].path.name {
      if l == |extra| {
        assert CompanionNames(extra)[j] == e2[j].path.name;
      }
    }
  }

  /** The non-matching files that start with `prefix` and are not claimed
      yet become companions, in listing order, and are claimed. The prefix
      of a candidate holds its whole match, so a non-matching file never
      starts with it (NoUnmatchedPrefixed) and this loop adds nothing. */
  method ClaimPrefixed(files: map<Path, nat>, dir: DirPath, unmatched: seq<string>, prefix: string, seen0: set<string>)
    returns (extra: seq<Companion>, total: int, seen: set<string>)
    ensures forall j :: 0 <= j < |extra| ==>
      var n := extra[j].path.name;
      extra[j].path == Join(dir, n) && n in unmatched && StartsWith(n, prefix) && n !in seen0 &&
      extra[j].size == GetFileInfo(files, extra[j].path)
    ensures forall j, l :: 0 <= j < l < |extra| ==> extra[j].path.name != extra[l].path.name
    ensures forall u :: 0 <= u < |unmatched| && StartsWith(unmatched[u], prefix) && unmatched[u] !in seen0 ==>
      unmatched[u] in CompanionNames(extra)
    ensures total == SumSizes(extra)
    ensures forall n :: n in seen <==> n in seen0 || n in CompanionNames(extra)
  {
    extra, total, seen := [], 0, seen0;
    var u := 0;
    while u < |unmatched|
      invariant 0 <= u <= |unmatched|
      invariant PrefixInv(files, dir, unmatched, prefix, seen0, u, extra, total, seen)
    {
      var um := unmatched[u];
      if um !in seen && StartsWith(um, prefix) {
        PrefixAdd(files, dir, unmatched, prefix, seen0, u, extra, total, seen);
        var p := Join(dir, um);
        var size := GetFileInfo(files, p);
        extra := extra + [Companion(p, size)];
        total := total + size;
        seen := seen + {um};
      } else {
        PrefixSkip(files, dir, unmatched, prefix, seen0, u, extra, total, seen);
      }
      u := u + 1;
    }
  }

  lemma {:induction false} SumSizesConcat(a: seq<Companion>, b: seq<Companion>)
    ensures SumSizes(a + b) == SumSizes(a) + SumSizes(b)
    decreases |b|
  {
    if b == [] {
      assert a + b == a;
    } else {
      var b0 := b[..|b| - 1];
      SumSizesConcat(a, b0);
      assert a + b == (a + b0) + [b[|b| - 1]];
      SumSizesAppend(a + b0, b[|b| - 1]);
      assert b == b0 + [b[|b| - 1]];
      SumSizesAppend(b0, b[|b| - 1]);
    }
  }

  /** Step 2 for one slot with matching files `ms`. `claimed` holds the
      names claimed by earlier slots, none of which is one of `ms`. The copy
      exists exactly when the slot's first largest file is above the minimum
      size; it then claims the slot's files and every unclaimed non-matching
      file that starts with its prefix, and nothing that was claimed
      before. */
  method ClaimGroup(files: map<Path, nat>, dir: DirPath, disk: Root, rel: seq<string>,
                    ms: seq<Cand>, unmatched: seq<string>, claimed: set<string>)
    returns (copy: Option<EpisodeCopy>, seen: set<string>)
    requires ms != [] && DistinctNames(ms)
    requires forall i :: 0 <= i < |ms| ==> ms[i].path.name !in claimed && ms[i].path.name !in unmatched
    ensures copy.Some? <==> ms[FirstMax(ms, CandSize)].size > MIN_VIDEO_SIZE
    ensures copy.None? ==> seen == claimed
    ensures copy.Some? ==> CopyOfSlot(files, dir, disk, rel, unmatched, ms, copy.value)
    ensures copy.Some? ==> NoDup(CopyNames(copy.value)) && (forall n :: n in CopyNames(copy.value) ==> n !in claimed)
    ensures copy.Some? ==> forall n :: n in seen <==> n in claimed || n in CopyNames(copy.value)
    ensures copy.Some? ==>
      forall n :: n in unmatched && StartsWith(n, Prefix(ms[FirstMax(ms, CandSize)])) && n !in claimed ==> n in CopyNames(copy.value)
  {
    var sorted := SortDesc(ms, CandSize);
    SortedMembers(ms);
    if sorted[0].size <= MIN_VIDEO_SIZE {
      return None, claimed;
    }
    forall a | 0 <= a < |sorted| ensures sorted[a].path.name !in claimed && sorted[a].path.name !in unmatched {
      var i :| 0 <= i < |ms| && ms[i] == sorted[a];
    }
    var c;
    c, seen := BuildCopy(files, dir, disk, rel, sorted, unmatched, claimed);
    copy := Some(c);
  }

  /** The copy headed by the first of the sorted files: the other files of
      the slot, then the unclaimed non-matching files with its prefix. */
  method BuildCopy(files: map<Path, nat>, dir: DirPath, disk: Root, rel: seq<string>,
                   sorted: seq<Cand>, unmatched: seq<string>, claimed: set<string>)
    returns (c: EpisodeCopy, seen: set<string>)
    requires sorted != [] && DistinctNames(sorted)
    requires forall a :: 0 <= a < |sorted| ==> sorted[a].path.name !in claimed && sorted[a].path.name !in unmatched
    ensures c.path == sorted[0].path && c.size == sorted[0].size && c.disk == disk && c.relDir == rel
    ensures SmallerFirst(sorted, c.companions)
    ensures PrefixRest(files, dir, unmatched, Prefix(sorted[0]), c.companions, |sorted| - 1)
    ensures c.totalSize == c.size + SumSizes(c.companions)
    ensures NoDup(CopyNames(c)) && (forall n :: n in CopyNames(c) ==> n !in claimed)
    ensures forall n :: n in seen <==> n in claimed || n in CopyNames(c)
    ensures forall n :: n in unmatched && StartsWith(n, Prefix(sorted[0])) && n !in claimed ==> n in CopyNames(c)
  {
    var cand := sorted[0];
    seen := claimed + {cand.path.name};
    var smaller, sTotal;
    smaller, sTotal, seen := ClaimSmaller(sorted, seen);
    var prefix := Prefix(cand);
    var extra, eTotal;
    extra, eTotal, seen := ClaimPrefixed(files, dir, unmatched, prefix, seen);
    var comps := smaller + extra;
    SumSizesConcat(smaller, extra);
    c := EpisodeCopy(cand.path, cand.size, cand.size + sTotal + eTotal, disk, rel, comps);
    CopyNamesIn(c, smaller, extra);
    CopyDistinct(sorted, smaller, extra, claimed, c);
    assert PrefixRest(files, dir, unmatched, prefix, comps, |sorted| - 1);
  }

  /** The names of a copy: its own, then the ones of each part of the
      companions. */
  lemma CopyNamesSplit(c: EpisodeCopy, smaller: seq<Companion>, extra: seq<Companion>)
    requires c.companions == smaller + extra
    ensures |CopyNames(c)| == 1 + |smaller| + |extra|
    ensures CopyNames(c)[0] == c.path.name
    ensures forall a :: 1 <= a <= |smaller| ==> CopyNames(c)[a] == smaller[a - 1].path.name
    ensures forall a :: 1 + |smaller| <= a < |CopyNames(c)| ==> CopyNames(c)[a] == extra[a - 1 - |smaller|].path.name
  {
    var cn := CopyNames(c);
    forall a | 1 <= a < |cn| ensures cn[a] == c.companions[a - 1].path.name {
    }
  }

  /** Membership in the names of a copy, part by part. */
  lemma CopyNamesIn(c: EpisodeCopy, smaller: seq<Companion>, extra: seq<Companion>)
    requires c.companions == smaller + extra
    ensures forall n :: n in CopyNames(c) <==> n == c.path.name || n in CompanionNames(smaller) || n in CompanionNames(extra)
  {
    CopyNamesSplit(c, smaller, extra);
    var cn := CopyNames(c);
    forall n | n in cn && n != c.path.name
      ensures n in CompanionNames(smaller) || n in CompanionNames(extra)
    {
      var a :| 0 <= a < |cn| && cn[a] == n;
      if a <= |smaller| {
        assert CompanionNames(smaller)[a - 1] == n;
      } else {
        assert CompanionNames(extra)[a - 1 - |smaller|] == n;
      }
    }
    forall n | n in CompanionNames(smaller) ensures n in cn {
      var j :| 0 <= j < |smaller| && CompanionNames(smaller)[j] == n;
      assert cn[1 + j] == n;
    }
    forall n | n in CompanionNames(extra) ensures n in cn {
      var j :| 0 <= j < |extra| && CompanionNames(extra)[j] == n;
      assert cn[1 + |smaller| + j] == n;
    }
  }

  /** The names a copy claims are new and distinct. */
  lemma CopyDistinct(sorted: seq<Cand>, smaller: seq<Companion>, extra: seq<Companion>, claimed: set<string>, c: EpisodeCopy)
    requires sorted != [] && DistinctNames(sorted)
    requires forall a :: 0 <= a < |sorted| ==> sorted[a].path.name !in claimed
    requires |smaller| == |sorted| - 1
    requires forall j :: 0 <= j < |smaller| ==> smaller[j] == Companion(sorted[j + 1].path, sorted[j + 1].size)
    requires forall j :: 0 <= j < |extra| ==>
      extra[j].path.name !in claimed && extra[j].path.name != sorted[0].path.name && extra[j].path.name !in CompanionNames(smaller)
    requires forall j, l :: 0 <= j < l < |extra| ==> extra[j].path.name != extra[l].path.name
    requires c.path == sorted[0].path && c.companions == smaller + extra
    ensures NoDup(CopyNames(c)) && (forall n :: n in CopyNames(c) ==> n !in claimed)
  {
    CopyUnclaimed(sorted, smaller, extra, claimed, c);
    CopyNoDup(sorted, smaller, extra, claimed, c);
  }

  lemma CopyUnclaimed(sorted: seq<Cand>, smaller: seq<Companion>, extra: seq<Companion>, claimed: set<string>, c: EpisodeCopy)
    requires sorted != [] && DistinctNames(sorted)
    requires forall a :: 0 <= a < |sorted| ==> sorted[a].path.name !in claimed
    requires |smaller| == |sorted| - 1
    requires forall j :: 0 <= j < |smaller| ==> smaller[j] == Companion(sorted[j + 1].path, sorted[j + 1].size)
    requires forall j :: 0 <= j < |extra| ==>
      extra[j].path.name !in claimed && extra[j].path.name != sorted[0].path.name && extra[j].path.name !in CompanionNames(smaller)
    requires forall j, l :: 0 <= j < l < |extra| ==> extra[j].path.name != extra[l].path.name
    requires c.path == sorted[0].path && c.companions == smaller + extra
    ensures forall n :: n in CopyNames(c) ==> n !in claimed
  {
    CopyNamesSplit(c, smaller, extra);
    var cn := CopyNames(c);
    forall a | 0 <= a < |cn| ensures cn[a] !in claimed {
      if 1 <= a <= |smaller| {
        assert cn[a] == sorted[a].path.name;
      }
    }
  }

  lemma CopyNoDup(sorted: seq<Cand>, smaller: seq<Companion>, extra: seq<Companion>, claimed: set<string>, c: EpisodeCopy)
    requires sorted != [] && DistinctNames(sorted)
    requires forall a :: 0 <= a < |sorted| ==> sorted[a].path.name !in claimed
    requires |smaller| == |sorted| - 1
    requires forall j :: 0 <= j < |smaller| ==> smaller[j] == Companion(sorted[j + 1].path, sorted[j + 1].size)
    requires forall j :: 0 <= j < |extra| ==>
      extra[j].path.name !in claimed && extra[j].path.name != sorted[0].path.name && extra[j].path.name !in CompanionNames(smaller)
    requires forall j, l :: 0 <= j < l < |extra| ==> extra[j].path.name != extra[l].path.name
    requires c.path == sorted[0].path && c.companions == smaller + extra
    ensures NoDup(CopyNames(c))
  {
    CopyNamesSplit(c, smaller, extra);
    var cn := CopyNames(c);
    forall a, b | 0 <= a < b < |cn| ensures cn[a] != cn[b] {
      if b <= |smaller| {
        assert cn[b] == sorted[b].path.name;
        if a > 0 {
          assert cn[a] == sorted[a].path.name;
        }
      } else if 1 <= a <= |smaller| {
        assert cn[a] == CompanionNames(smaller)[a - 1];
      }
    }
  }

  /** Two different positions of the sorted members hold different names. */
  lemma SortedDistinct(ms: seq<Cand>, sorted: seq<Cand>, a: nat, b: nat)
    requires multiset(sorted) == multiset(ms) && |sorted| == |ms|
    requires DistinctNames(ms)
    requires a < b < |sorted|
    ensures sorted[a].path.name != sorted[b].path.name
  {
    assert sorted[a] in multiset(ms) && sorted[b] in multiset(ms);
    var i :| 0 <= i < |ms| && ms[i] == sorted[a];
    var j :| 0 <= j < |ms| && ms[j] == sorted[b];
    NoDupCount(ms, i);
    TwiceCounted(sorted, a, b);
  }

  /** An element found at two positions occurs at least twice. */
  lemma TwiceCounted<T>(s: seq<T>, a: nat, b: nat)
    requires a < b < |s|
    ensures s[a] == s[b] ==> multiset(s)[s[a]] >= 2
  {
    if s[a] == s[b] {
      assert s == s[..a] + [s[a]] + s[a + 1..b] + [s[b]] + s[b + 1..];
    }
  }

  /** In a list of distinct names an element occurs once. */
  lemma {:induction false} NoDupCount(ms: seq<Cand>, i: nat)
    requires DistinctNames(ms)
    requires i < |ms|
    ensures multiset(ms)[ms[i]] == 1
    decreases |ms|
  {
    var x := ms[i];
    var init := ms[..|ms| - 1];
    assert ms == init + [ms[|ms| - 1]];
    if i == |ms| - 1 {
      assert x !in init;
    } else {
      NoDupCount(init, i);
      assert ms[|ms| - 1] != x;
    }
  }

  // -------------------------------------------------------------------
  // Claiming the episodes of all slots, and the artifacts

  /** The names of the candidates, in order. */
  function NamesOf(ms: seq<Cand>): (r: seq<string>)
    ensures |r| == |ms| && forall i :: 0 <= i < |ms| ==> r[i] == ms[i].path.name
  {
    seq(|ms|, i requires 0 <= i < |ms| => ms[i].path.name)
  }

  /** The first largest candidate of a slot. */
  function Best(ms: seq<Cand>): Cand
    requires ms != []
  {
    ms[FirstMax(ms, CandSize)]
  }

  /** Every name a copy claims is one of its slot's files or a non-matching
      file. */
  lemma CopyNamesOrigin(files: map<Path, nat>, dir: DirPath, disk: Root, rel: seq<string>, unmatched: seq<string>,
                        ms: seq<Cand>, c: EpisodeCopy)
    requires CopyOfSlot(files, dir, disk, rel, unmatched, ms, c)
    ensures forall n :: n in CopyNames(c) ==> n in NamesOf(ms) || n in unmatched
  {
    var sorted := SortDesc(ms, CandSize);
    SortDescCorrect(ms, CandSize);
    var cn := CopyNames(c);
    forall a | 0 <= a < |cn| ensures cn[a] in NamesOf(ms) || cn[a] in unmatched {
      if a == 0 {
        assert cn[a] == NamesOf(ms)[FirstMax(ms, CandSize)];
      } else if a < |ms| {
        assert sorted[a] in multiset(ms);
        assert c.companions[a - 1] == Companion(sorted[a].path, sorted[a].size);
        var i :| 0 <= i < |ms| && ms[i] == sorted[a];
        assert cn[a] == NamesOf(ms)[i];
      } else {
        assert cn[a] == c.companions[a - 1].path.name;
      }
    }
  }

  /** The slots of the copies found, as groups without files, so that a
      slot's copy is looked up with FindGroup. */
  function SlotsOf(found: seq<Found>): (r: seq<Group>)
    ensures |r| == |found|
    ensures forall k :: 0 <= k < |found| ==> r[k].season == found[k].season && r[k].episode == found[k].episode
  {
    seq(|found|, k requires 0 <= k < |found| => Group(found[k].season, found[k].episode, []))
  }

  predicate DistinctSlots(found: seq<Found>) {
    forall k, l :: 0 <= k < l < |found| ==> !(found[k].season == found[l].season && found[k].episode == found[l].episode)
  }

  lemma FoundNamesAppend(found: seq<Found>, fd: Found)
    ensures FoundNames(found + [fd]) == FoundNames(found) + CopyNames(fd.copy)
  {
    assert (found + [fd])[..|found|] == found;
  }

  lemma NoDupConcat<T>(a: seq<T>, b: seq<T>)
    requires NoDup(a) && NoDup(b)
    requires forall x :: x in b ==> x !in a
    ensures NoDup(a + b)
  {
    forall i, j | 0 <= i < j < |a + b| ensures (a + b)[i] != (a + b)[j] {
      if j < |a| {
        assert (a + b)[i] == a[i] && (a + b)[j] == a[j];
      } else if i < |a| {
        assert (a + b)[i] == a[i] && a[i] in a;
        assert (a + b)[j] == b[j - |a|] && b[j - |a|] in b;
      } else {
        assert (a + b)[i] == b[i - |a|] && (a + b)[j] == b[j - |a|];
      }
    }
  }

  /** A slot with a group among the first groups still has one when a group
      is added. */
  lemma FindGroupGrow(groups: seq<Group>, i: nat, s: nat, e: nat)
    requires i < |groups|
    ensures FindGroup(groups[..i], s, e).Some? ==> FindGroup(groups[..i + 1], s, e).Some?
    ensures groups[i].season == s && groups[i].episode == e ==> FindGroup(groups[..i + 1], s, e).Some?
  {
    var a, b := groups[..i], groups[..i + 1];
    if FindGroup(a, s, e).Some? {
      var k := FindGroup(a, s, e).value;
      assert b[k] == a[k];
    }
    if groups[i].season == s && groups[i].episode == e {
      assert b[i] == groups[i];
    }
  }

  /** What holds of the copies found after claiming the first `gi` groups:
      each is the copy of its slot, each comes from one of those groups, no
      slot has two, and every one of those groups whose first largest file
      is above the minimum size has one. */
  ghost predicate FoundInv(files: map<Path, nat>, dir: DirPath, disk: Root, rel: seq<string>, names: seq<string>,
                           groups: seq<Group>, gi: nat, found: seq<Found>)
    requires gi <= |groups|
  {
    (forall k :: 0 <= k < |found| ==> FoundOk(files, dir, disk, rel, names, found[k])) &&
    FromGroups(groups, gi, found) && DistinctSlots(found) && Complete(groups, gi, found)
  }

  /** Each copy found comes from one of the first `gi` groups. */
  predicate FromGroups(groups: seq<Group>, gi: nat, found: seq<Found>)
    requires gi <= |groups|
  {
    forall k :: 0 <= k < |found| ==> FindGroup(groups[..gi], found[k].season, found[k].episode).Some?
  }

  /** Each of the first `gi` groups whose first largest file is above the
      minimum size has a copy. */
  predicate Complete(groups: seq<Group>, gi: nat, found: seq<Found>)
    requires gi <= |groups|
  {
    forall g :: 0 <= g < gi && groups[g].members != [] && Best(groups[g].members).size > MIN_VIDEO_SIZE ==>
      FindGroup(SlotsOf(found), groups[g].season, groups[g].episode).Some?
  }

  /** What holds of the claimed names after claiming the first `gi` groups:
      they are the names of the copies found, each once, and each is a
      non-matching name or a file of one of those groups. */
  ghost predicate ClaimedInv(groups: seq<Group>, gi: nat, found: seq<Found>, claimed: set<string>)
    requires gi <= |groups|
  {
    (forall n :: n in claimed <==> n in FoundNames(found)) &&
    NoDup(FoundNames(found)) &&
    (forall n :: n in claimed ==>
      Search(n).None? || FindGroup(groups[..gi], Search(n).value.season, Search(n).value.episode).Some?)
  }

  /** The slot of group `gi` has no group before it. */
  lemma FirstOfSlot(groups: seq<Group>, gi: nat)
    requires gi < |groups| && DistinctKeys(groups)
    ensures FindGroup(groups[..gi], groups[gi].season, groups[gi].episode).None?
  {
    assert forall k :: 0 <= k < gi ==> groups[..gi][k] == groups[k];
  }

  /** Before claiming group `gi`, none of its files is claimed. */
  lemma ClaimPre(files: map<Path, nat>, dir: DirPath, names: seq<string>, groups: seq<Group>, gi: nat,
                 found: seq<Found>, claimed: set<string>)
    requires NoDup(names) && GroupsOk(files, dir, names, groups)
    requires gi < |groups| && ClaimedInv(groups, gi, found, claimed)
    ensures var ms := groups[gi].members;
      ms != [] && DistinctNames(ms) &&
      forall i :: 0 <= i < |ms| ==> ms[i].path.name !in claimed && ms[i].path.name !in UnmatchedOf(names)
  {
    var g := groups[gi];
    var ms := g.members;
    MembersFacts(files, dir, names, g.season, g.episode);
    UnmatchedFacts(names);
    FirstOfSlot(groups, gi);
    forall i | 0 <= i < |ms| ensures ms[i].path.name !in claimed && ms[i].path.name !in UnmatchedOf(names) {
      assert ms[i] in ms;
    }
  }

  /** Claiming group `gi` keeps FoundInv. */
  lemma FoundStep(files: map<Path, nat>, dir: DirPath, disk: Root, rel: seq<string>, names: seq<string>,
                  groups: seq<Group>, gi: nat, found: seq<Found>, copy: Option<EpisodeCopy>)
    requires GroupsOk(files, dir, names, groups)
    requires gi < |groups| && FoundInv(files, dir, disk, rel, names, groups, gi, found)
    requires var ms := groups[gi].members; ms != [] && (copy.Some? <==> Best(ms).size > MIN_VIDEO_SIZE)
    requires copy.Some? ==> CopyOfSlot(files, dir, disk, rel, UnmatchedOf(names), groups[gi].members, copy.value)
    ensures var found' := if copy.Some? then found + [Found(groups[gi].season, groups[gi].episode, copy.value)] else found;
      FoundInv(files, dir, disk, rel, names, groups, gi + 1, found')
  {
    var f2 := if copy.Some? then found + [Found(groups[gi].season, groups[gi].episode, copy.value)] else found;
    SlotsStep(groups, gi, found, f2);
    CompleteStep(groups, gi, found, f2);
  }

  lemma SlotsStep(groups: seq<Group>, gi: nat, found: seq<Found>, f2: seq<Found>)
    requires gi < |groups| && DistinctKeys(groups)
    requires FromGroups(groups, gi, found) && DistinctSlots(found)
    requires f2 == found || (|f2| == |found| + 1 && f2[..|found|] == found &&
      f2[|found|].season == groups[gi].season && f2[|found|].episode == groups[gi].episode)
    ensures FromGroups(groups, gi + 1, f2) && DistinctSlots(f2)
  {
    FirstOfSlot(groups, gi);
    forall s: nat, e: nat ensures FindGroup(groups[..gi], s, e).Some? ==> FindGroup(groups[..gi + 1], s, e).Some? {
      FindGroupGrow(groups, gi, s, e);
    }
    FindGroupGrow(groups, gi, groups[gi].season, groups[gi].episode);
    if f2 != found {
      forall k | 0 <= k < |found| ensures f2[k] == found[k] {
        assert f2[..|found|][k] == f2[k];
      }
    }
  }

  lemma CompleteStep(groups: seq<Group>, gi: nat, found: seq<Found>, f2: seq<Found>)
    requires gi < |groups| && Complete(groups, gi, found)
    requires groups[gi].members != []
    requires f2 == found || (|f2| == |found| + 1 && f2[..|found|] == found &&
      f2[|found|].season == groups[gi].season && f2[|found|].episode == groups[gi].episode)
    requires Best(groups[gi].members).size > MIN_VIDEO_SIZE ==> f2 != found
    ensures Complete(groups, gi + 1, f2)
  {
    forall g' | 0 <= g' < gi + 1 && groups[g'].members != [] && Best(groups[g'].members).size > MIN_VIDEO_SIZE
      ensures FindGroup(SlotsOf(f2), groups[g'].season, groups[g'].episode).Some?
    {
      if g' < gi {
        var k := FindGroup(SlotsOf(found), groups[g'].season, groups[g'].episode).value;
        if f2 != found {
          assert f2[..|found|][k] == f2[k];
        }
      } else {
        assert f2[|found|].season == groups[g'].season;
      }
    }
  }

  /** Claiming group `gi` keeps ClaimedInv. */
  lemma ClaimedStep(files: map<Path, nat>, dir: DirPath, disk: Root, rel: seq<string>, names: seq<string>,
                    groups: seq<Group>, gi: nat, found: seq<Found>, claimed: set<string>,
                    copy: Option<EpisodeCopy>, seen: set<string>)
    requires GroupsOk(files, dir, names, groups)
    requires gi < |groups| && ClaimedInv(groups, gi, found, claimed)
    requires copy.None? ==> seen == claimed
    requires copy.Some? ==> CopyOfSlot(files, dir, disk, rel, UnmatchedOf(names), groups[gi].members, copy.value)
    requires copy.Some? ==> NoDup(CopyNames(copy.value)) && (forall n :: n in CopyNames(copy.value) ==> n !in claimed)
    requires copy.Some? ==> forall n :: n in seen <==> n in claimed || n in CopyNames(copy.value)
    ensures var found' := if copy.Some? then found + [Found(groups[gi].season, groups[gi].episode, copy.value)] else found;
      ClaimedInv(groups, gi + 1, found', seen)
  {
    var g := groups[gi];
    forall s: nat, e: nat ensures FindGroup(groups[..gi], s, e).Some? ==> FindGroup(groups[..gi + 1], s, e).Some? {
      FindGroupGrow(groups, gi, s, e);
    }
    if copy.Some? {
      var fd := Found(g.season, g.episode, copy.value);
      FoundNamesAppend(found, fd);
      NoDupConcat(FoundNames(found), CopyNames(copy.value));
      ClaimedOrigin(files, dir, disk, rel, names, groups, gi, copy.value);
    }
  }

  /** The names a copy of group `gi` claims are non-matching names or files
      of groups up to `gi`. */
  lemma ClaimedOrigin(files: map<Path, nat>, dir: DirPath, disk: Root, rel: seq<string>, names: seq<string>,
                      groups: seq<Group>, gi: nat, c: EpisodeCopy)
    requires gi < |groups|
    requires groups[gi].members == MembersOf(files, dir, names, groups[gi].season, groups[gi].episode)
    requires CopyOfSlot(files, dir, disk, rel, UnmatchedOf(names), groups[gi].members, c)
    ensures forall n :: n in CopyNames(c) ==>
      Search(n).None? || FindGroup(groups[..gi + 1], Search(n).value.season, Search(n).value.episode).Some?
  {
    var g := groups[gi];
    FindGroupGrow(groups, gi, g.season, g.episode);
    CopyNamesKeys(files, dir, disk, rel, names, g.season, g.episode, c);
  }

  /** The names a copy of slot (s, e) claims match that slot or do not match
      at all. */
  lemma CopyNamesKeys(files: map<Path, nat>, dir: DirPath, disk: Root, rel: seq<string>, names: seq<string>,
                      s: nat, e: nat, c: EpisodeCopy)
    requires CopyOfSlot(files, dir, disk, rel, UnmatchedOf(names), MembersOf(files, dir, names, s, e), c)
    ensures forall n :: n in CopyNames(c) ==> Search(n).None? || HasKey(n, s, e)
  {
    var ms := MembersOf(files, dir, names, s, e);
    MembersFacts(files, dir, names, s, e);
    UnmatchedFacts(names);
    CopyNamesOrigin(files, dir, disk, rel, UnmatchedOf(names), ms, c);
    forall n | n in CopyNames(c) && n in NamesOf(ms) ensures HasKey(n, s, e) {
      var i :| 0 <= i < |ms| && NamesOf(ms)[i] == n;
      assert ms[i] in ms;
    }
  }

  /** Claims group `gi`. */
  method ClaimNext(files: map<Path, nat>, dir: DirPath, disk: Root, rel: seq<string>, names: seq<string>,
                   groups: seq<Group>, unmatched: seq<string>, gi: nat, found: seq<Found>, claimed: set<string>)
    returns (found': seq<Found>, claimed': set<string>)
    requires NoDup(names) && GroupsOk(files, dir, names, groups) && unmatched == UnmatchedOf(names)
    requires gi < |groups|
    requires FoundInv(files, dir, disk, rel, names, groups, gi, found) && ClaimedInv(groups, gi, found, claimed)
    ensures FoundInv(files, dir, disk, rel, names, groups, gi + 1, found') && ClaimedInv(groups, gi + 1, found', claimed')
  {
    var g := groups[gi];
    ClaimPre(files, dir, names, groups, gi, found, claimed);
    var copy, seen := ClaimGroup(files, dir, disk, rel, g.members, unmatched, claimed);
    FoundStep(files, dir, disk, rel, names, groups, gi, found, copy);
    ClaimedStep(files, dir, disk, rel, names, groups, gi, found, claimed, copy, seen);
    found' := if copy.Some? then found + [Found(g.season, g.episode, copy.value)] else found;
    claimed' := seen;
  }

  /** Step 2 for every slot, in order of first occurrence: a file claimed by
      one slot is never claimed again. */
  method ClaimEpisodes(files: map<Path, nat>, dir: DirPath, disk: Root, rel: seq<string>, names: seq<string>,
                       groups: seq<Group>, unmatched: seq<string>)
    returns (found: seq<Found>, claimed: set<string>)
    requires NoDup(names)
    requires GroupsOk(files, dir, names, groups)
    requires unmatched == UnmatchedOf(names)
    ensures FoundInv(files, dir, disk, rel, names, groups, |groups|, found)
    ensures ClaimedInv(groups, |groups|, found, claimed)
  {
    found, claimed := [], {};
    var gi := 0;
    while gi < |groups|
      invariant 0 <= gi <= |groups|
      invariant FoundInv(files, dir, disk, rel, names, groups, gi, found)
      invariant ClaimedInv(groups, gi, found, claimed)
    {
      found, claimed := ClaimNext(files, dir, disk, rel, names, groups, unmatched, gi, found, claimed);
      gi := gi + 1;
    }
  }

  /** Step 3: every file not claimed and not a dot-file is an artifact, in
      listing order. */
  function ArtifactsOf(files: map<Path, nat>, dir: DirPath, disk: Root, rel: seq<string>, names: seq<string>, claimed: set<string>): seq<Artifact>
    decreases |names|
  {
    if names == [] then []
    else
      var f := names[|names| - 1];
      ArtifactsOf(files, dir, disk, rel, names[..|names| - 1], claimed) +
        (if f !in claimed && !StartsWith(f, ".") then [Artifact(Join(dir, f), disk, rel, GetFileInfo(files, Join(dir, f)))] else [])
  }

  /** The names of the artifacts, in order. `NamesOf` is the same projection
      over candidate files; `Cand` and `Artifact` have no common type, and a
      generic version would carry a lambda into every contract that uses it,
      so each element type has its own. */
  function ArtifactNames(arts: seq<Artifact>): (r: seq<string>)
    ensures |r| == |arts| && forall i :: 0 <= i < |arts| ==> r[i] == arts[i].path.name
  {
    seq(|arts|, i requires 0 <= i < |arts| => arts[i].path.name)
  }

  /** Every artifact is an unclaimed file of the directory that is not a
      dot-file, with the size `get_file_info` reports. */
  lemma {:induction false} ArtifactsSound(files: map<Path, nat>, dir: DirPath, disk: Root, rel: seq<string>, names: seq<string>, claimed: set<string>)
    ensures var arts := ArtifactsOf(files, dir, disk, rel, names, claimed);
      forall a :: a in arts ==>
        a.path == Join(dir, a.path.name) && a.disk == disk && a.relDir == rel &&
        a.size == GetFileInfo(files, a.path) && a.path.name in names && a.path.name !in claimed && !StartsWith(a.path.name, ".")
    decreases |names|
  {
    if names != [] {
      var init := names[..|names| - 1];
      ArtifactsSound(files, dir, disk, rel, init, claimed);
      assert forall x :: x in init ==> x in names;
    }
  }

  /** Every unclaimed file that is not a dot-file is an artifact. */
  lemma {:induction false} ArtifactsComplete(files: map<Path, nat>, dir: DirPath, disk: Root, rel: seq<string>, names: seq<string>, claimed: set<string>)
    ensures forall n :: n in names && n !in claimed && !StartsWith(n, ".") ==>
      n in ArtifactNames(ArtifactsOf(files, dir, disk, rel, names, claimed))
    decreases |names|
  {
    if names != [] {
      var init := names[..|names| - 1];
      var f := names[|names| - 1];
      ArtifactsComplete(files, dir, disk, rel, init, claimed);
      assert names == init + [f];
      var a0 := ArtifactsOf(files, dir, disk, rel, init, claimed);
      var arts := ArtifactsOf(files, dir, disk, rel, names, claimed);
      forall n | n in names && n !in claimed && !StartsWith(n, ".")
        ensures n in ArtifactNames(arts)
      {
        if n == f {
          assert ArtifactNames(arts)[|arts| - 1] == f;
        } else {
          assert n in init;
          var i :| 0 <= i < |a0| && ArtifactNames(a0)[i] == n;
          assert ArtifactNames(arts)[i] == n;
        }
      }
    }
  }

  /** No file is an artifact twice. */
  lemma {:induction false} ArtifactsDistinct(files: map<Path, nat>, dir: DirPath, disk: Root, rel: seq<string>, names: seq<string>, claimed: set<string>)
    requires NoDup(names)
    ensures NoDup(ArtifactNames(ArtifactsOf(files, dir, disk, rel, names, claimed)))
    decreases |names|
  {
    if names != [] {
      var init := names[..|names| - 1];
      var f := names[|names| - 1];
      assert names == init + [f];
      assert NoDup(init);
      assert f !in init;
      ArtifactsDistinct(files, dir, disk, rel, init, claimed);
      ArtifactsSound(files, dir, disk, rel, init, claimed);
      var a0 := ArtifactsOf(files, dir, disk, rel, init, claimed);
      var arts := ArtifactsOf(files, dir, disk, rel, names, claimed);
      forall i, j | 0 <= i < j < |arts| ensures arts[i].path.name != arts[j].path.name {
        if j == |a0| {
          assert arts[i] in a0;
        } else {
          assert ArtifactNames(a0)[i] == arts[i].path.name && ArtifactNames(a0)[j] == arts[j].path.name;
        }
      }
    }
  }

  method CollectArtifacts(files: map<Path, nat>, dir: DirPath, disk: Root, rel: seq<string>, names: seq<string>, claimed: set<string>)
    returns (arts: seq<Artifact>)
    ensures arts == ArtifactsOf(files, dir, disk, rel, names, claimed)
  {
    arts := [];
    var i := 0;
    while i < |names|
      invariant 0 <= i <= |names|
      invariant arts == ArtifactsOf(files, dir, disk, rel, names[..i], claimed)
    {
      var f := names[i];
      assert names[..i + 1][..i] == names[..i];
      if f !in claimed && !StartsWith(f, ".") {
        var p := Join(dir, f);
        arts := arts + [Artifact(p, disk, rel, GetFileInfo(files, p))];
      }
      i := i + 1;
    }
    assert names[..i] == names;
  }

  /** One directory of a series folder, classified: the episode copies (one
      per slot whose first largest matching file is above the minimum size,
      and no other), and the artifacts. No file is claimed twice, every
      claimed file is a file of the directory, and a file that is neither
      claimed nor a dot-file is an artifact. */
  ghost predicate ClassifiedAs(files: map<Path, nat>, dir: DirPath, disk: Root, rel: seq<string>, names: seq<string>,
                               found: seq<Found>, arts: seq<Artifact>) {
    (forall k :: 0 <= k < |found| ==> FoundOk(files, dir, disk, rel, names, found[k])) &&
    DistinctSlots(found) &&
    (forall i :: 0 <= i < |names| && Search(names[i]).Some? ==>
      var m := Search(names[i]).value;
      var ms := MembersOf(files, dir, names, m.season, m.episode);
      ms != [] && (Best(ms).size > MIN_VIDEO_SIZE <==> FindGroup(SlotsOf(found), m.season, m.episode).Some?)) &&
    NoDup(FoundNames(found)) &&
    arts == ArtifactsOf(files, dir, disk, rel, names, set n | n in FoundNames(found))
  }

  /** A name that starts with a matching file's name up to the end of its
      match matches the pattern too: that prefix holds the whole match. */
  lemma PrefixMatches(files: map<Path, nat>, dir: DirPath, f: string, n: string)
    requires Search(f).Some? && StartsWith(n, Prefix(CandOf(files, dir, f)))
    ensures Search(n).Some?
  {
    var e := Search(f).value.end;
    assert Prefix(CandOf(files, dir, f)) == f[..e];
    assert n[..e] == f[..e];
    SearchKept(f, n);
  }

  /** No non-matching name starts with the prefix of a matching file, so
      the prefix loop of step 2 never adds a companion. */
  lemma NoUnmatchedPrefixed(files: map<Path, nat>, dir: DirPath, names: seq<string>, f: string)
    requires Search(f).Some?
    ensures forall n :: n in UnmatchedOf(names) ==> !StartsWith(n, Prefix(CandOf(files, dir, f)))
  {
    UnmatchedFacts(names);
    forall n | n in UnmatchedOf(names) ensures !StartsWith(n, Prefix(CandOf(files, dir, f))) {
      if StartsWith(n, Prefix(CandOf(files, dir, f))) {
        PrefixMatches(files, dir, f, n);
      }
    }
  }

  /** The companions of a copy found in a directory are exactly the other
      matching files of its slot, largest first. */
  lemma FoundCompanions(files: map<Path, nat>, dir: DirPath, disk: Root, rel: seq<string>, names: seq<string>, fd: Found)
    requires FoundOk(files, dir, disk, rel, names, fd)
    ensures var sorted := SortDesc(MembersOf(files, dir, names, fd.season, fd.episode), CandSize);
      |fd.copy.companions| == |sorted| - 1 &&
      forall j :: 0 <= j < |sorted| - 1 ==> fd.copy.companions[j] == Companion(sorted[j + 1].path, sorted[j + 1].size)
  {
    var ms := MembersOf(files, dir, names, fd.season, fd.episode);
    var best := Best(ms);
    MembersFacts(files, dir, names, fd.season, fd.episode);
    assert best in ms;
    NoUnmatchedPrefixed(files, dir, names, best.path.name);
    SortDescCorrect(ms, CandSize);
  }

  /** Steps 1 to 3 of the scan, for one directory. */
  method ClassifyDirectory(files: map<Path, nat>, dir: DirPath, disk: Root, rel: seq<string>, names: seq<string>)
    returns (found: seq<Found>, arts: seq<Artifact>)
    requires NoDup(names)
    ensures ClassifiedAs(files, dir, disk, rel, names, found, arts)
  {
    var groups, unmatched := GroupMatches(files, dir, names);
    var claimed;
    found, claimed := ClaimEpisodes(files, dir, disk, rel, names, groups, unmatched);
    arts := CollectArtifacts(files, dir, disk, rel, names, claimed);
    assert claimed == set n | n in FoundNames(found);
    forall i | 0 <= i < |names| && Search(names[i]).Some?
      ensures var m := Search(names[i]).value;
        var ms := MembersOf(files, dir, names, m.season, m.episode);
        ms != [] && (Best(ms).size > MIN_VIDEO_SIZE <==> FindGroup(SlotsOf(found), m.season, m.episode).Some?)
    {
      var m := Search(names[i]).value;
      var g := FindGroup(groups, m.season, m.episode).value;
      var k := FindGroup(SlotsOf(found), m.season, m.episode);
      if k.Some? {
        assert FoundOk(files, dir, disk, rel, names, found[k.value]);
      }
    }
  }
}
