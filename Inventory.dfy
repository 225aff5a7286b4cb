/** The inventory the TV library consolidator builds: per series, the roots
    it occurs on with a running byte total each, the episode copies of every
    (season, episode) slot with their companion files, and the artifacts. */
module Inventory {
  import opened Volumes

  /** A file is an episode candidate only above this size (50 MiB). */
  const MIN_VIDEO_SIZE: int := 50 * 1024 * 1024

  /** `get_file_info`: the size of a file, or the sentinel -1 when it cannot
      be read (here: when no file has that path). */
  function GetFileInfo(files: map<Path, nat>, p: Path): (r: int)
    ensures r == -1 <==> p !in files
    ensures p in files ==> r == files[p]
  {
    if p in files then files[p] else -1
  }

  datatype Companion = Companion(path: Path, size: int)

  /** One canonical episode file: its own size, the aggregate with its
      companions, the root it was found on and its directory relative to the
      series folder. */
  datatype EpisodeCopy = EpisodeCopy(path: Path, size: int, totalSize: int, disk: Root, relDir: seq<string>, companions: seq<Companion>)

  datatype Artifact = Artifact(path: Path, disk: Root, relDir: seq<string>, size: int)

  /** Per (series, root): the folder name on that root and the bytes
      attributed to it. */
  datatype DiskStat = DiskStat(root: Root, realFolder: string, totalSize: int)

  /** The copies of one (season, episode) slot, in discovery order. */
  datatype Slot = Slot(season: nat, episode: nat, copies: seq<EpisodeCopy>)

  /** One series: roots, slots and artifacts in discovery order. */
  datatype SeriesGroup = SeriesGroup(displayName: string, disks: seq<DiskStat>, slots: seq<Slot>, artifacts: seq<Artifact>)

  function SumSizes(cs: seq<Companion>): int
    decreases |cs|
  {
    if cs == [] then 0 else SumSizes(cs[..|cs| - 1]) + cs[|cs| - 1].size
  }

  lemma SumSizesAppend(cs: seq<Companion>, c: Companion)
    ensures SumSizes(cs + [c]) == SumSizes(cs) + c.size
  {
    assert (cs + [c])[..|cs|] == cs;
  }

  function CompanionNames(cs: seq<Companion>): (r: seq<string>)
    ensures |r| == |cs|
    ensures forall j :: 0 <= j < |cs| ==> r[j] == cs[j].path.name
    decreases |cs|
  {
    if cs == [] then [] else CompanionNames(cs[..|cs| - 1]) + [cs[|cs| - 1].path.name]
  }

  lemma CompanionNamesAppend(cs: seq<Companion>, c: Companion)
    ensures CompanionNames(cs + [c]) == CompanionNames(cs) + [c.path.name]
  {
    assert (cs + [c])[..|cs|] == cs;
  }

  /** The file names a copy claims: its own and its companions'. */
  function CopyNames(c: EpisodeCopy): seq<string> {
    [c.path.name] + CompanionNames(c.companions)
  }

  predicate NoDup<T(==)>(s: seq<T>) {
    forall i, j :: 0 <= i < j < |s| ==> s[i] != s[j]
  }
}
