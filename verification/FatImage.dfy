/**
 `layout` as a whole: the plan it settles on, the segments it emits, and what
 they render to once file contents are put in place.
 */
module FatImage {
  import opened Wrappers
  import opened Bytes
  import opened FatNames
  import opened FatEntries
  import opened FatTree
  import opened FatLayout
  import opened FatCapacity
  import opened FatSectors

  /** A run of output bytes. Windows index the table and directory buffers; `file` the input list. */
  datatype Segment =
    | Literal(bytes: seq<byte>)
    | FatWindow(offset: nat, len: nat)
    | DirsWindow(offset: nat, len: nat)
    | FileWindow(file: nat, len: nat)
    | Fill(len: nat)

  function SegmentLen(s: Segment): nat {
    match s
    case Literal(b) => |b|
    case FatWindow(_, len) => len
    case DirsWindow(_, len) => len
    case FileWindow(_, len) => len
    case Fill(len) => len
  }

  function LengthSum(segments: seq<Segment>): nat {
    if segments == [] then 0 else LengthSum(segments[..|segments| - 1]) + SegmentLen(segments[|segments| - 1])
  }

  datatype Geometry = Geometry(
    partitionOffset: nat, fatOffset: nat, fatBytes: nat, dataOffset: nat, clusterSize: nat,
    clusters: nat, usedClusters: nat, dirClusters: nat, totalSize: nat)

  datatype Fat32Layout = Fat32Layout(geometry: Geometry, fat: seq<byte>, dirs: seq<byte>, segments: seq<Segment>)

  // ---- What a layout is ----

  /** The plan of an input: its tree in name order, readable and distinct short names, directories within bounds. */
  ghost predicate PlanOf(p: Plan, files: seq<FileEntry>, params: Params, upper: string -> string) {
    && p.files == files && p.params == params && ValidClusterSize(params.clusterSize)
    && Admissible(files) && TreeOf(p.dirs, files, |files|, upper)
    && (forall d :: 0 <= d < |p.dirs| ==> NamesAscend(p.dirs[d].children))
    && AllNamed(p.dirs, p.names) && NamedInOrder(p.dirs, p.names) && Shaped(p)
    && forall d :: 0 <= d < |p.dirs| ==> DirSlots(params.volume, d, p.dirs[d].children, p.names[d]) <= MAX_DIR_ENTRY_SLOTS
  }

  function PartitionOffset(params: Params): nat {
    if params.partition then PARTITION_LBA * SECTOR else 0
  }

  function GeometryOf(p: Plan): Geometry
    requires Shaped(p)
  {
    var clusters := Clusters(Used(p));
    var base := PartitionOffset(p.params);
    Geometry(
      base,
      base + RESERVED_SECTORS * SECTOR,
      TableSectors(clusters) * SECTOR,
      base + (RESERVED_SECTORS + 2 * TableSectors(clusters)) * SECTOR,
      p.params.clusterSize,
      clusters,
      Used(p),
      Total(DirCounts(p)),
      base + PartitionSectors(clusters, p.params.clusterSize) * SECTOR)
  }

  function FreeClusters(p: Plan): nat
    requires Shaped(p)
  {
    Clusters(Used(p)) - Used(p)
  }

  function NextFree(used: nat, clusters: nat): nat {
    if clusters > used then 2 + used else MAX_U32
  }

  function Slack(p: Plan, i: nat): nat
    requires Shaped(p) && i < |p.files|
  {
    CeilDiv(p.files[i].size, p.params.clusterSize) * p.params.clusterSize - p.files[i].size
  }

  function FileSegment(p: Plan, i: nat): seq<Segment>
    requires Shaped(p) && i < |p.files|
  {
    (if p.files[i].size > 0 then [FileWindow(i, p.files[i].size)] else [])
    + (if Slack(p, i) > 0 then [Fill(Slack(p, i))] else [])
  }

  function FileSegments(p: Plan, n: nat): seq<Segment>
    requires Shaped(p) && n <= |p.files|
  {
    if n == 0 then [] else FileSegments(p, n - 1) + FileSegment(p, n - 1)
  }

  function Boot(p: Plan): (r: seq<byte>)
    requires Fits(p)
    ensures |r| == SECTOR
  {
    ClusterSectors(p.params.clusterSize);
    var clusters := Clusters(Used(p));
    BootSector(p.params, PartitionSectors(clusters, p.params.clusterSize), TableSectors(clusters), p.params.clusterSize / SECTOR)
  }

  function Info(p: Plan): (r: seq<byte>)
    requires Fits(p)
    ensures |r| == SECTOR
  {
    InfoSector(FreeClusters(p), NextFree(Used(p), Clusters(Used(p))))
  }

  function Mbr(p: Plan): (r: seq<byte>)
    requires Fits(p)
    ensures |r| == SECTOR
  {
    MbrSector(p.params, PartitionSectors(Clusters(Used(p)), p.params.clusterSize))
  }

  function LeadSegments(p: Plan): seq<Segment>
    requires Fits(p)
  {
    if p.params.partition then [Literal(Mbr(p)), Fill(PARTITION_LBA * SECTOR - SECTOR)] else []
  }

  function ReservedSegments(p: Plan): seq<Segment>
    requires Fits(p)
  {
    [Literal(Boot(p)), Literal(Info(p)), Fill(4 * SECTOR), Literal(Boot(p)), Literal(Info(p)), Fill((RESERVED_SECTORS - 8) * SECTOR)]
  }

  function TableSegments(p: Plan): seq<Segment>
    requires Shaped(p)
  {
    var bytes := TableSectors(Clusters(Used(p))) * SECTOR;
    [FatWindow(0, bytes), FatWindow(0, bytes)]
  }

  function DirsSegments(p: Plan): seq<Segment>
    requires Shaped(p)
  {
    var len := Total(DirCounts(p)) * p.params.clusterSize;
    if len > 0 then [DirsWindow(0, len)] else []
  }

  function FreeSegments(p: Plan): seq<Segment>
    requires Shaped(p)
  {
    var free := FreeClusters(p) * p.params.clusterSize;
    if free > 0 then [Fill(free)] else []
  }

  function Segments(p: Plan): seq<Segment>
    requires Fits(p)
  {
    LeadSegments(p) + ReservedSegments(p) + TableSegments(p) + DirsSegments(p) + FileSegments(p, |p.files|) + FreeSegments(p)
  }

  /** A layout of the plan: table, directory clusters, geometry and segments, all four. */
  ghost predicate IsLayout(l: Fat32Layout, p: Plan) {
    && Placeable(p) && Fits(p)
    && IsFat(l.fat, Counts(p), Clusters(Used(p)))
    && l.dirs == Flat(DirBlocks(p, |p.dirs|))
    && l.geometry == GeometryOf(p)
    && l.segments == Segments(p)
  }

  // ---- Free space ----

  /** Clusters below `n` that the table marks free. */
  ghost function FreeBelow(fat: seq<byte>, n: nat): set<nat>
    requires 4 * n <= |fat|
  {
    set c: nat | 2 <= c < n && FatEntry(fat, c) == 0
  }

  lemma {:induction false} RangeSize(lo: nat, hi: nat, s: set<nat>)
    requires lo <= hi && forall c :: c in s <==> lo <= c < hi
    ensures |s| == hi - lo
  {
    if lo < hi {
      RangeSize(lo, hi - 1, s - {hi - 1});
    } else {
      assert s == {};
    }
  }

  /** An allocated cluster's entry names the next cluster or ends the chain: never zero, never a reserved number. */
  lemma AllocatedEntry(p: Plan, l: Fat32Layout, c: nat)
    requires IsLayout(l, p) && 2 <= c < 2 + Used(p)
    ensures 4 * c + 4 <= |l.fat| && (FatEntry(l.fat, c) == EOC || 3 <= FatEntry(l.fat, c) < 2 + MAX_CLUSTERS)
  {
    var counts := Counts(p);
    var k := OneOwner(counts, c - 2);
    assert Linked(l.fat, 2 + Start(counts, k), counts[k]);
    StartStep(counts, k);
    StartEnds(counts);
    StartMonotone(counts, k + 1, |counts|);
  }

  /**
   The FSInfo sector tells the truth about the table: its free count is the number
   of clusters the table marks free, and its hint is the first of them, or the
   unknown mark when there is none.
   */
  lemma InfoTellsFree(p: Plan, l: Fat32Layout)
    requires IsLayout(l, p)
    ensures var n := 2 + Clusters(Used(p));
      && 4 * n <= |l.fat|
      && DWord(Info(p), 488) == |FreeBelow(l.fat, n)|
      && DWord(Info(p), 492) == (if FreeBelow(l.fat, n) == {} then MAX_U32 else 2 + Used(p))
      && (FreeBelow(l.fat, n) != {} ==> 2 + Used(p) in FreeBelow(l.fat, n) && forall c :: c in FreeBelow(l.fat, n) ==> 2 + Used(p) <= c)
  {
    hide IsLayout, Info, FatEntry, DWord, Used, TableSectors, Clusters;
    FreeIsTail(p, l);
    var (used, clusters) := (Used(p), Clusters(Used(p)));
    InfoReads(p);
    var free := FreeBelow(l.fat, 2 + clusters);
    RangeSize(2 + used, 2 + clusters, free);
    assert clusters > used ==> 2 + used in free;
  }

  lemma InfoReads(p: Plan)
    requires Fits(p)
    ensures DWord(Info(p), 488) == FreeClusters(p) && DWord(Info(p), 492) == NextFree(Used(p), Clusters(Used(p)))
  {
    InfoBack(FreeClusters(p), NextFree(Used(p), Clusters(Used(p))));
  }

  /** The free clusters are the ones behind the last allocated one. */
  lemma FreeIsTail(p: Plan, l: Fat32Layout)
    requires IsLayout(l, p)
    ensures Fits(p) && 4 * (2 + Clusters(Used(p))) <= |l.fat|
    ensures forall c: nat :: 2 <= c < 2 + Clusters(Used(p)) ==> (FatEntry(l.fat, c) == 0 <==> 2 + Used(p) <= c)
  {
    TableCovers(Clusters(Used(p)));
    assert FreeFrom(l.fat, 2 + Used(p)) && |l.fat| == TableSectors(Clusters(Used(p))) * SECTOR;
    hide IsFat, FatEntry, TableSectors;
    forall c: nat | 2 <= c < 2 + Clusters(Used(p)) ensures FatEntry(l.fat, c) == 0 <==> 2 + Used(p) <= c {
      if c < 2 + Used(p) {
        AllocatedEntry(p, l, c);
      } else {
        assert c < |l.fat| / 4;
      }
    }
  }

  lemma TableCovers(clusters: nat)
    ensures 4 * (clusters + 2) <= TableSectors(clusters) * SECTOR
  {
  }

  // ---- Refusals ----

  function Shown(path: string): string {
    if path == "" then "/" else path
  }

  /** Some directory, shown as `path`, needs more than its share of entry slots. */
  ghost predicate Overfull(files: seq<FileEntry>, params: Params, path: string) {
    exists dir :: IsOverfull(files, params, dir) && path == Shown(dir)
  }

  ghost predicate NoneOverfull(files: seq<FileEntry>, params: Params) {
    forall dir :: !IsOverfull(files, params, dir)
  }

  ghost predicate LayoutRefused(files: seq<FileEntry>, params: Params, upper: string -> string, e: Fat32Error) {
    match e
    case BadClusterSize(n) => n == params.clusterSize && !ValidClusterSize(n)
    case DirTooLarge(path) => Overfull(files, params, path)
    case TooManyClusters(n) =>
      params.clusterSize > 0 && NoneOverfull(files, params) && MAX_CLUSTERS < n <= ClustersNeeded(files, params) + 2
      && Clusters(ClustersNeeded(files, params)) > MAX_CLUSTERS
    case ImageTooLarge(n) =>
      params.clusterSize > 0 && NoneOverfull(files, params) && Clusters(ClustersNeeded(files, params)) <= MAX_CLUSTERS
      && n == PartitionSectors(Clusters(ClustersNeeded(files, params)), params.clusterSize) * SECTOR && n / SECTOR > MAX_U32
    case _ => Refused(files, upper, e)
  }

  // ---- Names and slots ----

  lemma {:induction false} SlotsSame(children: seq<Child>, named: seq<Named>, more: Named, k: nat)
    requires k <= |named| < |children|
    ensures SlotsTo(children, named + [more], k) == SlotsTo(children, named, k)
  {
    if k > 0 {
      SlotsSame(children, named, more, k - 1);
    }
  }

  /** One more name, new to the directory, keeps it well named. */
  lemma NamedStep(children: seq<Child>, named: seq<Named>, more: Named, used: set<ShortName>)
    requires |named| < |children| && DirNamed(children[..|named|], named) && NameOk(children[|named|].name, more)
    requires (forall s :: s in used <==> exists i :: 0 <= i < |named| && named[i].short == s) && more.short !in used
    ensures DirNamed(children[..|named| + 1], named + [more])
    ensures forall s :: s in used + {more.short} <==> exists i :: 0 <= i < |named + [more]| && (named + [more])[i].short == s
  {
    hide NameOk;
    var n, after := |named|, named + [more];
    forall i | 0 <= i < n + 1 ensures NameOk(children[..n + 1][i].name, after[i]) {
      if i < n {
        assert NameOk(children[..n][i].name, named[i]);
      }
    }
    forall s ensures s in used + {more.short} <==> exists i :: 0 <= i < n + 1 && after[i].short == s {
      if s in used {
        var i :| 0 <= i < n && named[i].short == s;
        assert after[i].short == s;
      }
      if s == more.short {
        assert after[n].short == s;
      }
      if i :| 0 <= i < n + 1 && after[i].short == s && i < n {
        assert named[i].short == s;
      }
    }
  }

  lemma NoneNamed(children: seq<Child>)
    ensures DirNamed(children[..0], []) && SlotsTo(children, [], 0) == 0
    ensures NamedOf(ChildNames(children)[..0]) == [] && Shorts([]) == {}
  {
  }

  /** The slots of one more name. */
  lemma SlotsMore(children: seq<Child>, named: seq<Named>, one: Named, k: nat)
    requires k == |named| < |children|
    ensures SlotsTo(children, named + [one], k + 1)
         == SlotsTo(children, named, k) + 1 + if one.needsLfn then LfnCount(Utf16(children[k].name)) else 0
  {
    SlotsSame(children, named, one, k);
    hide Utf16, LfnCount;
    assert (named + [one])[k] == one;
  }

  /** Short names for one directory, counting slots; stops once they are over the limit. */
  method NameChildren(children: seq<Child>, head: nat) returns (named: seq<Named>, slots: nat)
    requires head <= 2
    ensures |named| <= |children| && DirNamed(children[..|named|], named)
    ensures slots == head + SlotsTo(children, named, |named|)
    ensures |named| == |children| || slots > MAX_DIR_ENTRY_SLOTS
    ensures named == NamedOf(ChildNames(children)[..|named|])
  {
    hide NamedOf, ShortFor, Shorts, ChildNames, NameOk, Utf16, LfnCount, DirNamed, SlotsTo;
    named, slots := [], head;
    var used: set<ShortName> := {};
    NoneNamed(children);
    for k := 0 to |children|
      invariant |named| == k <= slots && slots <= MAX_DIR_ENTRY_SLOTS && |used| <= k
      invariant DirNamed(children[..k], named) && slots == head + SlotsTo(children, named, k)
      invariant forall s :: s in used <==> exists i :: 0 <= i < |named| && named[i].short == s
      invariant named == NamedOf(ChildNames(children)[..k]) && used == Shorts(named)
    {
      var name := children[k].name;
      var one := ShortEntry(name, used);
      NamedNext(ChildNames(children), k);
      ShortsNext(named, one);
      NamedStep(children, named, one, used);
      SlotsMore(children, named, one, k);
      used := used + {one.short};
      named := named + [one];
      slots := slots + 1 + if one.needsLfn then LfnCount(Utf16(name)) else 0;
      if slots > MAX_DIR_ENTRY_SLOTS {
        return;
      }
    }
  }

  method ShortEntry(name: string, used: set<ShortName>) returns (one: Named)
    requires |used| < TAIL_LIMIT - 1
    ensures NameOk(name, one) && one.short !in used && one == ShortFor(name, used)
  {
    hide NameOk, ShortUnits, Utf16, Render, ShowsExactly, Candidate, IsMangled, MangleName, ShortFor;
    var short, needsLfn := ShortNameFor(name, used);
    one := Named(short, needsLfn);
    NameIsOk(name, one);
    ShortForIs(name, used, short, needsLfn);
  }

  lemma NameIsOk(name: string, named: Named)
    requires !named.needsLfn ==> ShortUnits(named.short) == Utf16(name)
    requires named.short[0] != SPACE && forall i :: 0 <= i < 11 ==> named.short[i] == SPACE || IsMangled(named.short[i])
    ensures NameOk(name, named)
  {
  }

  /** Names for every directory, or the first directory over the limit. */
  method NameDirs(files: seq<FileEntry>, params: Params, dirs: seq<Dir>, upper: string -> string)
    returns (r: Result<seq<seq<Named>>, Fat32Error>, slots: seq<nat>)
    requires TreeOf(dirs, files, |files|, upper) && forall d :: 0 <= d < |dirs| ==> NamesAscend(dirs[d].children)
    ensures r.Ok? ==> AllNamed(dirs, r.value) && NamedInOrder(dirs, r.value) && |slots| == |r.value| == |dirs|
    ensures r.Ok? ==> forall d :: 0 <= d < |dirs| ==>
              |r.value[d]| == |dirs[d].children|
              && slots[d] == DirSlots(params.volume, d, dirs[d].children, r.value[d]) <= MAX_DIR_ENTRY_SLOTS
    ensures r.Err? ==> r.error.DirTooLarge? && Overfull(files, params, r.error.path)
  {
    hide TreeOf, DirNamed, SlotsTo, NamedOf, ChildNames, NamesAscend, Overfull;
    var names: seq<seq<Named>> := [];
    slots := [];
    for d := 0 to |dirs|
      invariant |names| == |slots| == d
      invariant forall e :: 0 <= e < d ==>
                  |names[e]| == |dirs[e].children| && DirNamed(dirs[e].children, names[e])
                  && slots[e] == DirSlots(params.volume, e, dirs[e].children, names[e]) <= MAX_DIR_ENTRY_SLOTS
      invariant forall e :: 0 <= e < d ==> names[e] == NamedOf(ChildNames(dirs[e].children))
    {
      var children := dirs[d].children;
      var named, n := NameChildren(children, HeadSlots(params.volume, d));
      if n > MAX_DIR_ENTRY_SLOTS {
        OverfullDir(files, params, upper, dirs, d, named);
        return Err(DirTooLarge(Shown(dirs[d].path))), slots;
      }
      assert children[..|named|] == children;
      assert ChildNames(children)[..|named|] == ChildNames(children);
      names := names + [named];
      slots := slots + [n];
    }
    r := Ok(names);
  }

  lemma OverfullDir(files: seq<FileEntry>, params: Params, upper: string -> string, dirs: seq<Dir>, d: nat, named: seq<Named>)
    requires TreeOf(dirs, files, |files|, upper) && d < |dirs| && NamesAscend(dirs[d].children)
    requires |named| <= |dirs[d].children| && named == NamedOf(ChildNames(dirs[d].children)[..|named|])
    requires HeadSlots(params.volume, d) + SlotsTo(dirs[d].children, named, |named|) > MAX_DIR_ENTRY_SLOTS
    ensures Overfull(files, params, Shown(dirs[d].path))
  {
    DirSlotsAre(dirs, files, upper, params.volume, d, named);
    hide TreeOf, NamesAscend, NamedOf, ChildNames, DirPaths, SlotsIn, SlotsTo;
    assert IsOverfull(files, params, dirs[d].path);
  }

  /** A plan's directories are none too large for the files either, and its clusters are what the files need. */
  lemma PlanNeeds(p: Plan, files: seq<FileEntry>, params: Params, upper: string -> string)
    requires PlanOf(p, files, params, upper)
    ensures params.clusterSize > 0 && NoneOverfull(files, params) && Used(p) == ClustersNeeded(files, params)
  {
    UsedIsNeeded(p, upper);
    TreeDirs(p.dirs, files, upper);
    forall dir | IsOverfull(files, params, dir) ensures false {
      assert dir in PathsOf(p.dirs);
      var d :| 0 <= d < |p.dirs| && PathsOf(p.dirs)[d] == dir;
      WholeNamed(p, d);
      DirSlotsAre(p.dirs, files, upper, params.volume, d, p.names[d]);
    }
  }

  // ---- Allocation ----

  datatype Allocation = Allocation(firsts: seq<nat>, counts: seq<nat>, dirClusters: nat, used: nat)

  ghost predicate IsAllocation(a: Allocation, p: Plan) {
    Shaped(p) && a.firsts == Firsts(p) && a.counts == Counts(p) && a.dirClusters == Total(DirCounts(p)) && a.used == Used(p)
  }

  lemma UsedAt(p: Plan, k: nat)
    requires Shaped(p) && k <= |Counts(p)|
    ensures Start(Counts(p), k) <= Used(p)
  {
    StartEnds(Counts(p));
    StartMonotone(Counts(p), k, |Counts(p)|);
  }

  lemma DirsFirst(p: Plan)
    requires Shaped(p)
    ensures Start(Counts(p), |p.dirs|) == Total(DirCounts(p))
  {
    assert Counts(p)[..|p.dirs|] == DirCounts(p);
  }

  lemma DirCountIs(p: Plan, d: nat)
    requires Shaped(p) && d < |p.dirs|
    ensures Counts(p)[d] == DirCount(DirSlots(p.params.volume, d, p.dirs[d].children, p.names[d]), p.params.clusterSize)
    ensures Firsts(p)[d] == 2 + Start(Counts(p), d)
  {
    assert Counts(p)[d] == DirCounts(p)[d];
  }

  lemma FileCountIs(p: Plan, i: nat)
    requires Shaped(p) && i < |p.files|
    ensures Counts(p)[|p.dirs| + i] == CeilDiv(p.files[i].size, p.params.clusterSize)
    ensures Firsts(p)[|p.dirs| + i] == if Counts(p)[|p.dirs| + i] == 0 then 0 else 2 + Start(Counts(p), |p.dirs| + i)
  {
    assert Counts(p)[|p.dirs| + i] == FileCounts(p.files, p.params.clusterSize)[i];
  }

  /** The allocation of the first `k` items. */
  ghost predicate AllocatedTo(p: Plan, k: nat, firsts: seq<nat>, counts: seq<nat>, cur: nat)
    requires Shaped(p)
  {
    && k <= |Counts(p)| && |firsts| == |counts| == k && cur == 2 + Start(Counts(p), k)
    && forall j :: 0 <= j < k ==> firsts[j] == Firsts(p)[j] && counts[j] == Counts(p)[j]
  }

  method AllocateDirs(p: Plan, slots: seq<nat>) returns (r: Result<(), Fat32Error>, firsts: seq<nat>, counts: seq<nat>, cur: nat)
    requires Shaped(p) && |slots| == |p.dirs|
    requires forall d :: 0 <= d < |p.dirs| ==> slots[d] == DirSlots(p.params.volume, d, p.dirs[d].children, p.names[d])
    ensures r.Ok? ==> AllocatedTo(p, |p.dirs|, firsts, counts, cur)
    ensures r.Err? ==> r.error.TooManyClusters? && MAX_U32 < r.error.clusters <= Used(p) + 2
  {
    hide Start, DirSlots, Counts, Firsts, Used, DirCount;
    firsts, counts, cur := [], [], 2;
    StartEnds(Counts(p));
    for d := 0 to |p.dirs|
      invariant AllocatedTo(p, d, firsts, counts, cur)
    {
      var n := DirCount(slots[d], p.params.clusterSize);
      DirCountIs(p, d);
      UsedAt(p, d);
      StartStep(Counts(p), d);
      if cur > MAX_U32 {
        return Err(TooManyClusters(cur)), firsts, counts, cur;
      }
      firsts, counts, cur := firsts + [cur], counts + [n], cur + n;
    }
    r := Ok(());
  }

  method AllocateFiles(p: Plan, firsts0: seq<nat>, counts0: seq<nat>, cur0: nat)
    returns (r: Result<(), Fat32Error>, firsts: seq<nat>, counts: seq<nat>, cur: nat)
    requires Shaped(p) && AllocatedTo(p, |p.dirs|, firsts0, counts0, cur0)
    ensures r.Ok? ==> AllocatedTo(p, |Counts(p)|, firsts, counts, cur)
    ensures r.Err? ==> r.error.TooManyClusters? && MAX_U32 < r.error.clusters <= Used(p) + 2
  {
    hide Start, Counts, Firsts, Used, CeilDiv;
    firsts, counts, cur := firsts0, counts0, cur0;
    for i := 0 to |p.files|
      invariant AllocatedTo(p, |p.dirs| + i, firsts, counts, cur)
    {
      var n := CeilDiv(p.files[i].size, p.params.clusterSize);
      FileCountIs(p, i);
      UsedAt(p, |p.dirs| + i);
      StartStep(Counts(p), |p.dirs| + i);
      if n > 0 && cur > MAX_U32 {
        return Err(TooManyClusters(cur)), firsts, counts, cur;
      }
      firsts, counts, cur := firsts + [if n == 0 then 0 else cur], counts + [n], cur + n;
    }
    r := Ok(());
  }

  /** Clusters for directories, then for files in row order; every run contiguous. Fails at the first id past 32 bits. */
  method Allocate(p: Plan, slots: seq<nat>) returns (r: Result<Allocation, Fat32Error>)
    requires Shaped(p) && |slots| == |p.dirs|
    requires forall d :: 0 <= d < |p.dirs| ==> slots[d] == DirSlots(p.params.volume, d, p.dirs[d].children, p.names[d])
    ensures r.Ok? ==> IsAllocation(r.value, p)
    ensures r.Err? ==> r.error.TooManyClusters? && MAX_U32 < r.error.clusters <= Used(p) + 2
  {
    hide Start, DirSlots, Counts, Firsts;
    var ok, firsts, counts, cur := AllocateDirs(p, slots);
    if ok.Err? {
      return Err(ok.error);
    }
    DirsFirst(p);
    var dirClusters := cur - 2;
    ok, firsts, counts, cur := AllocateFiles(p, firsts, counts, cur);
    if ok.Err? {
      return Err(ok.error);
    }
    StartEnds(Counts(p));
    assert firsts == Firsts(p) && counts == Counts(p);
    return Ok(Allocation(firsts, counts, dirClusters, cur - 2));
  }

  // ---- The whole layout ----

  lemma PlanPlaceable(p: Plan, files: seq<FileEntry>, params: Params, upper: string -> string)
    requires PlanOf(p, files, params, upper) && Used(p) <= MAX_CLUSTERS
    ensures Placeable(p)
  {
    hide DirSlots, Used, AllNamed, NamedInOrder, Relative, Join, Utf16, IsLegal, NamesAscend;
    forall d, i | 0 <= d < |p.dirs| && 0 <= i < |p.dirs[d].children| ensures ChildPlaceable(p, p.dirs[d].children[i]) {
      assert p.dirs[d].children[i] in p.dirs[d].children;
      assert ChildOk(p.dirs, files, |files|, |files|, d, p.dirs[d].children[i]);
    }
    forall d | 0 <= d < |p.dirs| ensures p.dirs[d].parent < |p.dirs| {
      assert d > 0 ==> ListedAt(p.dirs, d);
    }
  }

  method FileSegmentList(p: Plan) returns (r: seq<Segment>)
    requires Shaped(p)
    ensures r == FileSegments(p, |p.files|)
  {
    r := [];
    for i := 0 to |p.files|
      invariant r == FileSegments(p, i)
    {
      var f := p.files[i];
      var one: seq<Segment> := [];
      if f.size > 0 {
        one := one + [FileWindow(i, f.size)];
      }
      var slack := CeilDiv(f.size, p.params.clusterSize) * p.params.clusterSize - f.size;
      if slack > 0 {
        one := one + [Fill(slack)];
      }
      assert one == FileSegment(p, i);
      r := r + one;
    }
  }

  /** Literal sectors written, then every segment in output order. */
  method SegmentList(p: Plan, a: Allocation) returns (r: seq<Segment>)
    requires Fits(p) && IsAllocation(a, p)
    ensures r == Segments(p)
  {
    hide FileSegments, Used, Counts, DirCounts, BootFields, InfoFields, MbrFields, Sector, IsPowerOfTwo;
    var cs := p.params.clusterSize;
    ClusterSectors(cs);
    var clusters := Clusters(a.used);
    var fatSectors := TableSectors(clusters);
    var sectors := PartitionSectors(clusters, cs);
    SectorFieldsInside(p);
    var boot := WriteFields(BootFields(p.params, sectors, fatSectors, cs / SECTOR));
    var info := WriteFields(InfoFields(clusters - a.used, NextFree(a.used, clusters)));
    r := [];
    if p.params.partition {
      var mbr := WriteFields(MbrFields(p.params, sectors));
      r := [Literal(mbr), Fill(PARTITION_LBA * SECTOR - SECTOR)];
    }
    assert r == LeadSegments(p);
    r := r + [Literal(boot), Literal(info), Fill(4 * SECTOR), Literal(boot), Literal(info), Fill((RESERVED_SECTORS - 8) * SECTOR)];
    r := r + [FatWindow(0, fatSectors * SECTOR), FatWindow(0, fatSectors * SECTOR)];
    var dirsLen := a.dirClusters * cs;
    r := r + if dirsLen > 0 then [DirsWindow(0, dirsLen)] else [];
    var contents := FileSegmentList(p);
    r := r + contents;
    var free := (clusters - a.used) * cs;
    r := r + if free > 0 then [Fill(free)] else [];
  }

  lemma SectorFieldsInside(p: Plan)
    requires Fits(p)
    ensures p.params.clusterSize / SECTOR < 0x100
    ensures var clusters := Clusters(Used(p));
            var sectors := PartitionSectors(clusters, p.params.clusterSize);
            && Inside(BootFields(p.params, sectors, TableSectors(clusters), p.params.clusterSize / SECTOR))
            && Inside(InfoFields(FreeClusters(p), NextFree(Used(p), clusters)))
            && Inside(MbrFields(p.params, sectors))
  {
    hide LittleEndian, Used, IsPowerOfTwo;
    ClusterSectors(p.params.clusterSize);
  }

  /**
   `layout`: plan the tree, name its entries, allocate, then write the table, the
   directory clusters and the segments. It succeeds exactly when the cluster size is
   one FAT32 has, nothing is wrong with the files, and the format has room for them.
   */
  method Layout(files: seq<FileEntry>, params: Params, upper: string -> string)
    returns (r: Result<Fat32Layout, Fat32Error>, ghost plan: Plan)
    ensures r.Ok? ==> PlanOf(plan, files, params, upper) && IsLayout(r.value, plan)
    ensures r.Err? ==> LayoutRefused(files, params, upper, r.error)
    ensures r.Ok? || r.error.IsCapacity() <==> ValidClusterSize(params.clusterSize) && Faultless(files, upper)
    ensures r.Ok? <==> ValidClusterSize(params.clusterSize) && Faultless(files, upper) && HasRoom(files, params)
  {
    hide Faultless, LayoutRefused, HasRoom;
    r, plan := PlanAndEmit(files, params, upper);
    if r.Ok? {
      PlanFaultless(plan, files, params, upper);
      PlanHasRoom(plan, r.value, files, params, upper);
    } else {
      RefusedWhy(files, params, upper, r.error);
      RefusedHasNoRoom(files, params, upper, r.error);
    }
  }

  lemma PlanHasRoom(p: Plan, l: Fat32Layout, files: seq<FileEntry>, params: Params, upper: string -> string)
    requires PlanOf(p, files, params, upper) && IsLayout(l, p)
    ensures params.clusterSize > 0 && HasRoom(files, params)
  {
    PlanNeeds(p, files, params, upper);
    hide Faultless, Admissible, TreeOf, AllNamed, NamedInOrder, Used, ClustersNeeded, IsOverfull, Segments, IsFat;
  }

  lemma RefusedHasNoRoom(files: seq<FileEntry>, params: Params, upper: string -> string, e: Fat32Error)
    requires LayoutRefused(files, params, upper, e)
    ensures e.IsCapacity() && params.clusterSize > 0 ==> !HasRoom(files, params)
  {
    hide IsOverfull, ClustersNeeded, Refused;
  }

  lemma PlanFaultless(p: Plan, files: seq<FileEntry>, params: Params, upper: string -> string)
    requires PlanOf(p, files, params, upper)
    ensures ValidClusterSize(params.clusterSize) && Faultless(files, upper)
  {
    hide Faultless, Admissible, TreeOf, AllNamed;
    TreeFaultless(p.dirs, files, upper);
  }

  /** A refusal is about the cluster size, about the files, or about capacity, and about capacity only when nothing else is wrong. */
  lemma RefusedWhy(files: seq<FileEntry>, params: Params, upper: string -> string, e: Fat32Error)
    requires LayoutRefused(files, params, upper, e)
    requires e.IsCapacity() ==> ValidClusterSize(params.clusterSize) && Faultless(files, upper)
    ensures e.IsCapacity() <==> ValidClusterSize(params.clusterSize) && Faultless(files, upper)
  {
    hide Faultless, Refused, PlanOf, Overfull, NoneOverfull, ClustersNeeded;
    if !e.IsCapacity() && !e.BadClusterSize? {
      RefusedFaulty(files, upper, e);
    }
  }

  method PlanAndEmit(files: seq<FileEntry>, params: Params, upper: string -> string)
    returns (r: Result<Fat32Layout, Fat32Error>, ghost plan: Plan)
    ensures r.Ok? ==> PlanOf(plan, files, params, upper) && IsLayout(r.value, plan)
    ensures r.Err? ==> LayoutRefused(files, params, upper, r.error)
    ensures r.Err? && r.error.IsCapacity() ==> ValidClusterSize(params.clusterSize) && Faultless(files, upper)
  {
    hide Faultless, LayoutRefused, NamedInOrder, AllNamed, TreeOf, Admissible, NamesAscend, DirSlots, IsLayout, Refused, Overfull, IsPowerOfTwo;
    plan := Plan([], [], [], params);
    var cs := params.clusterSize;
    if !ValidClusterSize(cs) {
      RefusedCluster(files, params, upper);
      return Err(BadClusterSize(cs)), plan;
    }
    var tree := BuildTree(files, upper);
    if tree.Err? {
      RefusedTree(files, params, upper, tree.error);
      RefusedKind(files, upper, tree.error);
      return Err(tree.error), plan;
    }
    var named, slots := NameDirs(files, params, tree.value, upper);
    if named.Err? {
      RefusedDir(files, params, upper, named.error);
      return Err(named.error), plan;
    }
    var p := Plan(files, tree.value, named.value, params);
    plan := p;
    assert PlanOf(p, files, params, upper);
    r := Emit(p, files, params, upper, slots);
  }

  lemma RefusedKind(files: seq<FileEntry>, upper: string -> string, e: Fat32Error)
    requires Refused(files, upper, e)
    ensures !e.IsCapacity()
  {
  }

  lemma RefusedCluster(files: seq<FileEntry>, params: Params, upper: string -> string)
    requires !ValidClusterSize(params.clusterSize)
    ensures LayoutRefused(files, params, upper, BadClusterSize(params.clusterSize))
  {
  }

  lemma RefusedTree(files: seq<FileEntry>, params: Params, upper: string -> string, e: Fat32Error)
    requires Refused(files, upper, e)
    ensures LayoutRefused(files, params, upper, e)
  {
  }

  lemma RefusedDir(files: seq<FileEntry>, params: Params, upper: string -> string, e: Fat32Error)
    requires e.DirTooLarge? && Overfull(files, params, e.path)
    ensures LayoutRefused(files, params, upper, e)
  {
  }

  lemma RefusedClusters(files: seq<FileEntry>, params: Params, upper: string -> string, p: Plan, n: nat)
    requires PlanOf(p, files, params, upper) && Clusters(Used(p)) > MAX_CLUSTERS && MAX_CLUSTERS < n <= Used(p) + 2
    ensures LayoutRefused(files, params, upper, TooManyClusters(n))
  {
    hide PlanOf, Used, ClustersNeeded, NoneOverfull, Clusters, Refused;
    PlanNeeds(p, files, params, upper);
  }

  lemma RefusedSize(files: seq<FileEntry>, params: Params, upper: string -> string, p: Plan)
    requires PlanOf(p, files, params, upper) && Clusters(Used(p)) <= MAX_CLUSTERS
    requires PartitionSectors(Clusters(Used(p)), params.clusterSize) > MAX_U32
    ensures LayoutRefused(files, params, upper, ImageTooLarge(PartitionSectors(Clusters(Used(p)), params.clusterSize) * SECTOR))
  {
    hide PlanOf, Used, ClustersNeeded, NoneOverfull, Clusters, Refused, PartitionSectors;
    PlanNeeds(p, files, params, upper);
  }

  /** Everything after the plan: allocation, limits, buffers, segments. */
  method Emit(p: Plan, files: seq<FileEntry>, params: Params, upper: string -> string, slots: seq<nat>)
    returns (r: Result<Fat32Layout, Fat32Error>)
    requires PlanOf(p, files, params, upper) && |slots| == |p.dirs|
    requires forall d :: 0 <= d < |p.dirs| ==> slots[d] == DirSlots(p.params.volume, d, p.dirs[d].children, p.names[d])
    ensures r.Ok? ==> IsLayout(r.value, p)
    ensures r.Err? ==> LayoutRefused(files, params, upper, r.error)
  {
    hide LayoutRefused, NamedInOrder, Firsts, Counts, Used, DirCounts, DirSlots, Start, Total, TreeOf, AllNamed, Admissible, NamesAscend, IsPowerOfTwo, Segments, IsFat;
    var allocation := Allocate(p, slots);
    if allocation.Err? {
      RefusedClusters(files, params, upper, p, allocation.error.clusters);
      return Err(allocation.error);
    }
    var a := allocation.value;
    var clusters := Clusters(a.used);
    if clusters > MAX_CLUSTERS {
      RefusedClusters(files, params, upper, p, clusters);
      return Err(TooManyClusters(clusters));
    }
    PlanPlaceable(p, files, params, upper);
    FirstsStart(p);
    var fat := BuildFat(a.firsts, a.counts, clusters);
    CountsSplit(p);
    var dirs := BuildDirs(p, a.firsts, a.counts);
    var sectors := PartitionSectors(clusters, params.clusterSize);
    if sectors > MAX_U32 {
      RefusedSize(files, params, upper, p);
      return Err(ImageTooLarge(sectors * SECTOR));
    }
    var segments := SegmentList(p, a);
    var base := PartitionOffset(params);
    var fatSectors := TableSectors(clusters);
    var geometry := Geometry(
      base, base + RESERVED_SECTORS * SECTOR, fatSectors * SECTOR, base + (RESERVED_SECTORS + 2 * fatSectors) * SECTOR,
      params.clusterSize, clusters, a.used, a.dirClusters, base + sectors * SECTOR);
    return Ok(Fat32Layout(geometry, fat, dirs, segments));
  }

  lemma FirstsStart(p: Plan)
    requires Shaped(p)
    ensures Total(Counts(p)) == Used(p) && |Firsts(p)| == |Counts(p)|
    ensures forall k :: 0 <= k < |Counts(p)| ==> Counts(p)[k] == 0 || Firsts(p)[k] == 2 + Start(Counts(p), k)
  {
  }

  lemma CountsSplit(p: Plan)
    requires Shaped(p)
    ensures |p.dirs| <= |Counts(p)| && Counts(p)[..|p.dirs|] == DirCounts(p)
  {
  }

  // ---- What a layout renders to ----

  /** One content per file, of the file's size. */
  ghost predicate FitsFiles(contents: seq<seq<byte>>, files: seq<FileEntry>) {
    |contents| == |files| && forall i :: 0 <= i < |files| ==> |contents[i]| == files[i].size
  }

  ghost predicate InRange(s: Segment, l: Fat32Layout, contents: seq<seq<byte>>) {
    match s
    case Literal(_) => true
    case FatWindow(offset, len) => offset + len <= |l.fat|
    case DirsWindow(offset, len) => offset + len <= |l.dirs|
    case FileWindow(f, len) => f < |contents| && len == |contents[f]|
    case Fill(_) => true
  }

  function Render(s: Segment, l: Fat32Layout, contents: seq<seq<byte>>): (r: seq<byte>)
    requires InRange(s, l, contents)
    ensures |r| == SegmentLen(s)
  {
    match s
    case Literal(bytes) => bytes
    case FatWindow(offset, len) => l.fat[offset..offset + len]
    case DirsWindow(offset, len) => l.dirs[offset..offset + len]
    case FileWindow(f, _) => contents[f]
    case Fill(len) => Zeros(len)
  }

  ghost predicate AllInRange(segments: seq<Segment>, l: Fat32Layout, contents: seq<seq<byte>>) {
    forall k :: 0 <= k < |segments| ==> InRange(segments[k], l, contents)
  }

  function RenderAll(segments: seq<Segment>, l: Fat32Layout, contents: seq<seq<byte>>): (r: seq<byte>)
    requires AllInRange(segments, l, contents)
    ensures |r| == LengthSum(segments)
  {
    if segments == [] then []
    else RenderAll(segments[..|segments| - 1], l, contents) + Render(segments[|segments| - 1], l, contents)
  }

  /** `bytes` is what the segments render to. */
  ghost predicate Renders(segments: seq<Segment>, l: Fat32Layout, contents: seq<seq<byte>>, bytes: seq<byte>) {
    AllInRange(segments, l, contents) && RenderAll(segments, l, contents) == bytes
  }

  lemma RenderNone(l: Fat32Layout, contents: seq<seq<byte>>)
    ensures Renders([], l, contents, [])
  {
  }

  lemma RenderOne(s: Segment, l: Fat32Layout, contents: seq<seq<byte>>)
    requires InRange(s, l, contents)
    ensures Renders([s], l, contents, Render(s, l, contents))
  {
    assert RenderAll([s][..0], l, contents) == [];
    assert [] + Render(s, l, contents) == Render(s, l, contents);
  }

  lemma {:induction false} RenderBoth(a: seq<Segment>, b: seq<Segment>, l: Fat32Layout, contents: seq<seq<byte>>, x: seq<byte>, y: seq<byte>)
    requires Renders(a, l, contents, x) && Renders(b, l, contents, y)
    ensures Renders(a + b, l, contents, x + y)
    decreases |b|
  {
    hide *;
    if b == [] {
      RenderNothing(l, contents, y);
      assert a + b == a && x + y == x;
    } else {
      var n := |b| - 1;
      var y' := RenderSplit(b, l, contents, y);
      RenderBoth(a, b[..n], l, contents, x, y');
      RenderMore(a + b[..n], b[n], l, contents, x + y');
      assert a + b == a + b[..n] + [b[n]];
      assert x + (y' + Render(b[n], l, contents)) == (x + y') + Render(b[n], l, contents);
    }
  }

  lemma RenderNothing(l: Fat32Layout, contents: seq<seq<byte>>, y: seq<byte>)
    requires Renders([], l, contents, y)
    ensures y == []
  {
  }

  lemma RenderSplit(b: seq<Segment>, l: Fat32Layout, contents: seq<seq<byte>>, y: seq<byte>) returns (y': seq<byte>)
    requires b != [] && Renders(b, l, contents, y)
    ensures Renders(b[..|b| - 1], l, contents, y')
    ensures InRange(b[|b| - 1], l, contents) && y == y' + Render(b[|b| - 1], l, contents)
  {
    hide InRange, Render;
    y' := RenderAll(b[..|b| - 1], l, contents);
  }

  lemma RenderMore(segments: seq<Segment>, s: Segment, l: Fat32Layout, contents: seq<seq<byte>>, x: seq<byte>)
    requires Renders(segments, l, contents, x) && InRange(s, l, contents)
    ensures Renders(segments + [s], l, contents, x + Render(s, l, contents))
  {
    hide InRange, Render;
    assert (segments + [s])[..|segments|] == segments;
  }

  function FileBlock(p: Plan, contents: seq<seq<byte>>, i: nat): (r: seq<byte>)
    requires Shaped(p) && i < |p.files| && FitsFiles(contents, p.files)
    ensures |r| == FileCounts(p.files, p.params.clusterSize)[i] * p.params.clusterSize
  {
    contents[i] + Zeros(Slack(p, i))
  }

  function FileBlocks(p: Plan, contents: seq<seq<byte>>, n: nat): (r: seq<seq<byte>>)
    requires Shaped(p) && n <= |p.files| && FitsFiles(contents, p.files)
    ensures |r| == n
  {
    seq(n, i requires 0 <= i < n => FileBlock(p, contents, i))
  }

  lemma OneFileRenders(p: Plan, l: Fat32Layout, contents: seq<seq<byte>>, i: nat)
    requires Shaped(p) && i < |p.files| && FitsFiles(contents, p.files)
    ensures Renders(FileSegment(p, i), l, contents, FileBlock(p, contents, i))
  {
    hide RenderAll, AllInRange;
    var size, slack := p.files[i].size, Slack(p, i);
    RenderNone(l, contents);
    var a := if size > 0 then [FileWindow(i, size)] else [];
    var b := if slack > 0 then [Fill(slack)] else [];
    if size > 0 {
      RenderOne(FileWindow(i, size), l, contents);
    } else {
      assert contents[i] == [];
    }
    if slack > 0 {
      RenderOne(Fill(slack), l, contents);
    } else {
      assert Zeros(slack) == [];
    }
    RenderBoth(a, b, l, contents, contents[i], Zeros(slack));
  }

  lemma {:induction false} FilesRender(p: Plan, l: Fat32Layout, contents: seq<seq<byte>>, n: nat)
    requires Shaped(p) && n <= |p.files| && FitsFiles(contents, p.files)
    ensures Renders(FileSegments(p, n), l, contents, Flat(FileBlocks(p, contents, n)))
  {
    hide RenderAll, AllInRange, FileSegment, FileBlock;
    if n == 0 {
      RenderNone(l, contents);
    } else {
      FilesRender(p, l, contents, n - 1);
      OneFileRenders(p, l, contents, n - 1);
      RenderBoth(FileSegments(p, n - 1), FileSegment(p, n - 1), l, contents,
                 Flat(FileBlocks(p, contents, n - 1)), FileBlock(p, contents, n - 1));
      assert FileBlocks(p, contents, n)[..n - 1] == FileBlocks(p, contents, n - 1);
    }
  }

  function LeadBytes(p: Plan): (r: seq<byte>)
    requires Fits(p)
    ensures |r| == PartitionOffset(p.params)
  {
    if p.params.partition then Mbr(p) + Zeros(PARTITION_LBA * SECTOR - SECTOR) else []
  }

  function ReservedBytes(p: Plan): (r: seq<byte>)
    requires Fits(p)
    ensures |r| == RESERVED_SECTORS * SECTOR
  {
    Boot(p) + (Info(p) + (Zeros(4 * SECTOR) + (Boot(p) + (Info(p) + Zeros((RESERVED_SECTORS - 8) * SECTOR)))))
  }

  function Blocks(p: Plan, contents: seq<seq<byte>>): (r: seq<seq<byte>>)
    requires Placeable(p) && FitsFiles(contents, p.files)
    ensures |r| == |p.dirs| + |p.files|
  {
    DirBlocks(p, |p.dirs|) + FileBlocks(p, contents, |p.files|)
  }

  /** The data area: each item's clusters in allocation order, then the free ones. */
  function DataArea(p: Plan, contents: seq<seq<byte>>): seq<byte>
    requires Placeable(p) && FitsFiles(contents, p.files)
  {
    Flat(Blocks(p, contents)) + Zeros(FreeClusters(p) * p.params.clusterSize)
  }

  lemma BlocksFilled(p: Plan, contents: seq<seq<byte>>)
    requires Placeable(p) && FitsFiles(contents, p.files)
    ensures Filled(Blocks(p, contents), Counts(p), p.params.clusterSize)
  {
  }

  /** The data area is exactly the volume's clusters. */
  lemma DataLength(p: Plan, contents: seq<seq<byte>>)
    requires Placeable(p) && FitsFiles(contents, p.files)
    ensures |DataArea(p, contents)| == Clusters(Used(p)) * p.params.clusterSize
  {
    hide Blocks, Counts, Filled, Flat, Total, DirCounts;
    BlocksFilled(p, contents);
    FlatLength(Blocks(p, contents), Counts(p), p.params.clusterSize);
    UsedTotal(p);
    var used, free, cs := Used(p), FreeClusters(p), p.params.clusterSize;
    assert (used + free) * cs == used * cs + free * cs;
  }

  lemma UsedTotal(p: Plan)
    requires Shaped(p)
    ensures Used(p) == Total(Counts(p))
  {
  }

  lemma LeadRenders(p: Plan, l: Fat32Layout, contents: seq<seq<byte>>)
    requires Fits(p)
    ensures Renders(LeadSegments(p), l, contents, LeadBytes(p))
  {
    hide RenderAll, AllInRange, Mbr;
    RenderNone(l, contents);
    if p.params.partition {
      RenderOne(Literal(Mbr(p)), l, contents);
      RenderOne(Fill(PARTITION_LBA * SECTOR - SECTOR), l, contents);
      RenderBoth([Literal(Mbr(p))], [Fill(PARTITION_LBA * SECTOR - SECTOR)], l, contents, Mbr(p), Zeros(PARTITION_LBA * SECTOR - SECTOR));
      assert LeadSegments(p) == [Literal(Mbr(p))] + [Fill(PARTITION_LBA * SECTOR - SECTOR)];
    }
  }

  lemma ReservedRender(p: Plan, l: Fat32Layout, contents: seq<seq<byte>>)
    requires Fits(p)
    ensures Renders(ReservedSegments(p), l, contents, ReservedBytes(p))
  {
    hide RenderAll, AllInRange, Boot, Info, Zeros;
    var boot, info, gap, rest := Boot(p), Info(p), 4 * SECTOR, (RESERVED_SECTORS - 8) * SECTOR;
    RenderOne(Literal(boot), l, contents);
    RenderOne(Literal(info), l, contents);
    RenderOne(Fill(gap), l, contents);
    RenderOne(Fill(rest), l, contents);
    RenderBoth([Literal(info)], [Fill(rest)], l, contents, info, Zeros(rest));
    var s4 := [Literal(info)] + [Fill(rest)];
    RenderBoth([Literal(boot)], s4, l, contents, boot, info + Zeros(rest));
    var s3 := [Literal(boot)] + s4;
    RenderBoth([Fill(gap)], s3, l, contents, Zeros(gap), boot + (info + Zeros(rest)));
    var s2 := [Fill(gap)] + s3;
    RenderBoth([Literal(info)], s2, l, contents, info, Zeros(gap) + (boot + (info + Zeros(rest))));
    var s1 := [Literal(info)] + s2;
    RenderBoth([Literal(boot)], s1, l, contents, boot, info + (Zeros(gap) + (boot + (info + Zeros(rest)))));
    assert ReservedSegments(p) == [Literal(boot)] + s1;
  }

  lemma TablesRender(p: Plan, l: Fat32Layout, contents: seq<seq<byte>>)
    requires IsLayout(l, p)
    ensures Renders(TableSegments(p), l, contents, l.fat + l.fat)
  {
    hide RenderAll, AllInRange, Counts, Used, DirCounts, Segments, Placeable, GeometryOf, DirBlocks;
    var one := FatWindow(0, |l.fat|);
    RenderOne(one, l, contents);
    assert l.fat[0..0 + |l.fat|] == l.fat;
    RenderBoth([one], [one], l, contents, l.fat, l.fat);
    assert TableSegments(p) == [one] + [one];
  }

  lemma DirsLength(p: Plan)
    requires Placeable(p)
    ensures |Flat(DirBlocks(p, |p.dirs|))| == Total(DirCounts(p)) * p.params.clusterSize
  {
    FlatLength(DirBlocks(p, |p.dirs|), DirCounts(p), p.params.clusterSize);
  }

  lemma DirsRender(p: Plan, l: Fat32Layout, contents: seq<seq<byte>>)
    requires IsLayout(l, p)
    ensures Renders(DirsSegments(p), l, contents, l.dirs)
  {
    hide RenderAll, AllInRange, Counts, Used, DirCounts, Segments, GeometryOf, DirBlocks, IsFat;
    DirsLength(p);
    RenderNone(l, contents);
    if |l.dirs| > 0 {
      RenderOne(DirsWindow(0, |l.dirs|), l, contents);
      assert l.dirs[0..0 + |l.dirs|] == l.dirs;
    }
  }

  lemma FreeRender(p: Plan, l: Fat32Layout, contents: seq<seq<byte>>)
    requires Shaped(p)
    ensures Renders(FreeSegments(p), l, contents, Zeros(FreeClusters(p) * p.params.clusterSize))
  {
    hide RenderAll, AllInRange, Used;
    var free := FreeClusters(p) * p.params.clusterSize;
    RenderNone(l, contents);
    if free > 0 {
      RenderOne(Fill(free), l, contents);
    }
  }

  function ImageBytes(p: Plan, l: Fat32Layout, contents: seq<seq<byte>>): seq<byte>
    requires Placeable(p) && Fits(p) && FitsFiles(contents, p.files)
  {
    LeadBytes(p) + ReservedBytes(p) + (l.fat + l.fat) + DataArea(p, contents)
  }

  /** The segments render to: lead-in, reserved sectors, the same table twice, the data area. */
  lemma LayoutRenders(p: Plan, l: Fat32Layout, contents: seq<seq<byte>>)
    requires IsLayout(l, p) && FitsFiles(contents, p.files)
    ensures Renders(l.segments, l, contents, ImageBytes(p, l, contents))
  {
    LeadRenders(p, l, contents);
    ReservedRender(p, l, contents);
    TablesRender(p, l, contents);
    DirsRender(p, l, contents);
    FilesRender(p, l, contents, |p.files|);
    FreeRender(p, l, contents);
    FlatConcat(DirBlocks(p, |p.dirs|), FileBlocks(p, contents, |p.files|));
    JoinSix(p, l, contents, LeadBytes(p), ReservedBytes(p), l.fat + l.fat, l.dirs, Flat(FileBlocks(p, contents, |p.files|)),
            Zeros(FreeClusters(p) * p.params.clusterSize));
    assert l.segments == Segments(p) && Flat(Blocks(p, contents)) == l.dirs + Flat(FileBlocks(p, contents, |p.files|));
  }

  lemma JoinSix(p: Plan, l: Fat32Layout, contents: seq<seq<byte>>,
                a: seq<byte>, b: seq<byte>, c: seq<byte>, d: seq<byte>, e: seq<byte>, f: seq<byte>)
    requires Fits(p)
    requires Renders(LeadSegments(p), l, contents, a) && Renders(ReservedSegments(p), l, contents, b)
    requires Renders(TableSegments(p), l, contents, c) && Renders(DirsSegments(p), l, contents, d)
    requires Renders(FileSegments(p, |p.files|), l, contents, e) && Renders(FreeSegments(p), l, contents, f)
    ensures Renders(Segments(p), l, contents, a + b + c + (d + e + f))
  {
    hide Renders, LeadSegments, ReservedSegments, TableSegments, DirsSegments, FileSegments, FreeSegments, Shaped, IsPowerOfTwo;
    var s1 := LeadSegments(p) + ReservedSegments(p);
    RenderBoth(LeadSegments(p), ReservedSegments(p), l, contents, a, b);
    RenderBoth(s1, TableSegments(p), l, contents, a + b, c);
    RenderBoth(s1 + TableSegments(p), DirsSegments(p), l, contents, a + b + c, d);
    RenderBoth(s1 + TableSegments(p) + DirsSegments(p), FileSegments(p, |p.files|), l, contents, a + b + c + d, e);
    RenderBoth(s1 + TableSegments(p) + DirsSegments(p) + FileSegments(p, |p.files|), FreeSegments(p), l, contents, a + b + c + d + e, f);
    assert a + b + c + d + e + f == a + b + c + (d + e + f);
  }

  /** Segment lengths sum to the image size the geometry states. */
  lemma LengthsSum(p: Plan, l: Fat32Layout)
    requires IsLayout(l, p)
    ensures LengthSum(l.segments) == l.geometry.totalSize
  {
    var contents: seq<seq<byte>> := seq(|p.files|, i requires 0 <= i < |p.files| => Zeros(p.files[i].size));
    LayoutRenders(p, l, contents);
    ImageLength(p, l, contents);
  }

  lemma ImageLength(p: Plan, l: Fat32Layout, contents: seq<seq<byte>>)
    requires IsLayout(l, p) && FitsFiles(contents, p.files)
    ensures |ImageBytes(p, l, contents)| == l.geometry.totalSize
  {
    hide DataArea, LeadBytes, ReservedBytes, Placeable, Segments, DirBlocks, IsPowerOfTwo, Used, Total, DirCounts;
    DataLength(p, contents);
    ClusterSectors(p.params.clusterSize);
    var clusters, spc := Clusters(Used(p)), p.params.clusterSize / SECTOR;
    assert clusters * p.params.clusterSize == clusters * spc * SECTOR;
  }
}
