/**
 The byte layout of a FAT32 image (`layout`): entry slots, cluster allocation,
 the allocation table built in place, the packed directory clusters, the reserved
 sectors, and the symbolic segments that put them in order.
 */
module FatLayout {
  import opened Wrappers
  import opened Bytes
  import opened FatNames
  import opened FatEntries
  import opened FatTree

  const SECTOR: nat := 512
  const RESERVED_SECTORS: nat := 32
  const PARTITION_LBA: nat := 2048
  const MIN_CLUSTERS: nat := 65_525
  const MAX_CLUSTERS: nat := 0x0FFF_FFF2
  const EOC: nat := 0x0FFF_FFFF
  const MEDIA_ENTRY: nat := 0x0FFF_FFF8
  const MAX_DIR_ENTRY_SLOTS: nat := 65_536
  const MAX_U32: nat := 0xFFFF_FFFF

  datatype Params = Params(volume: ShortName, serial: u32, signature: u32, clusterSize: u32, partition: bool)

  predicate IsPowerOfTwo(n: nat) {
    n > 0 && (n == 1 || (n % 2 == 0 && IsPowerOfTwo(n / 2)))
  }

  predicate ValidClusterSize(n: nat) {
    IsPowerOfTwo(n) && 512 <= n <= 65_536
  }

  lemma {:induction false} PowerMultiple(n: nat, m: nat)
    requires IsPowerOfTwo(n) && IsPowerOfTwo(m) && n >= m
    ensures exists q: nat :: n == q * m
  {
    if m == 1 {
      assert n == n * m;
    } else {
      PowerMultiple(n / 2, m / 2);
      var q: nat :| n / 2 == q * (m / 2);
      assert n == q * m;
    }
  }

  /** A legal cluster is a whole number of sectors, at most 128. */
  lemma ClusterSectors(n: nat)
    requires ValidClusterSize(n)
    ensures n % SECTOR == 0 && n % ENTRY == 0 && 1 <= n / SECTOR <= 128
  {
    assert IsPowerOfTwo(512) by {
      assert IsPowerOfTwo(8) && IsPowerOfTwo(64);
    }
    PowerMultiple(n, 512);
  }

  function CeilDiv(n: nat, d: nat): (r: nat)
    requires d > 0
    ensures r * d >= n && (r > 0 ==> (r - 1) * d < n)
  {
    assert (n + d - 1) / d * d + (n + d - 1) % d == n + d - 1;
    (n + d - 1) / d
  }

  function Zeros(n: nat): (r: seq<byte>)
    ensures |r| == n
  {
    seq(n, _ => 0)
  }

  // ---- Runs of clusters ----

  function Total(counts: seq<nat>): nat {
    if counts == [] then 0 else Total(counts[..|counts| - 1]) + counts[|counts| - 1]
  }

  /** Clusters taken by everything before item `k`. */
  function Start(counts: seq<nat>, k: nat): nat
    requires k <= |counts|
  {
    Total(counts[..k])
  }

  lemma StartStep(counts: seq<nat>, k: nat)
    requires k < |counts|
    ensures Start(counts, k + 1) == Start(counts, k) + counts[k]
  {
    assert counts[..k + 1][..k] == counts[..k];
  }

  lemma StartEnds(counts: seq<nat>)
    ensures Start(counts, 0) == 0 && Start(counts, |counts|) == Total(counts)
  {
    assert counts[..|counts|] == counts;
  }

  lemma {:induction false} StartMonotone(counts: seq<nat>, j: nat, k: nat)
    requires j <= k <= |counts|
    ensures Start(counts, j) <= Start(counts, k)
    decreases k - j
  {
    if j < k {
      StartStep(counts, k - 1);
      StartMonotone(counts, j, k - 1);
    }
  }

  function Flat(blocks: seq<seq<byte>>): seq<byte> {
    if blocks == [] then [] else Flat(blocks[..|blocks| - 1]) + blocks[|blocks| - 1]
  }

  /** Every block fills its clusters exactly. */
  ghost predicate Filled(blocks: seq<seq<byte>>, counts: seq<nat>, cs: nat) {
    |blocks| == |counts| && forall k :: 0 <= k < |blocks| ==> |blocks[k]| == counts[k] * cs
  }

  lemma {:induction false} FlatLength(blocks: seq<seq<byte>>, counts: seq<nat>, cs: nat)
    requires Filled(blocks, counts, cs)
    ensures |Flat(blocks)| == Total(counts) * cs
  {
    if blocks != [] {
      var n := |blocks| - 1;
      FlatLength(blocks[..n], counts[..n], cs);
      assert (Total(counts[..n]) + counts[n]) * cs == Total(counts[..n]) * cs + counts[n] * cs;
    }
  }

  /** A block sits where its clusters do. */
  lemma {:induction false} FlatAt(blocks: seq<seq<byte>>, counts: seq<nat>, cs: nat, k: nat)
    requires Filled(blocks, counts, cs) && k < |blocks|
    ensures Start(counts, k) * cs + counts[k] * cs <= |Flat(blocks)|
    ensures Flat(blocks)[Start(counts, k) * cs..Start(counts, k) * cs + counts[k] * cs] == blocks[k]
  {
    var n := |blocks| - 1;
    var lo, size := Start(counts, k) * cs, counts[k] * cs;
    FlatLength(blocks[..n], counts[..n], cs);
    if k < n {
      assert counts[..n][..k] == counts[..k];
      FlatAt(blocks[..n], counts[..n], cs, k);
      assert Flat(blocks)[lo..lo + size] == Flat(blocks[..n])[lo..lo + size];
    } else {
      assert |blocks[n]| == size;
    }
  }

  lemma {:induction false} FlatConcat(a: seq<seq<byte>>, b: seq<seq<byte>>)
    ensures Flat(a + b) == Flat(a) + Flat(b)
  {
    if b == [] {
      assert a + b == a;
    } else {
      var n := |b| - 1;
      assert (a + b)[..|a + b| - 1] == a + b[..n];
      FlatConcat(a, b[..n]);
    }
  }

  // ---- The plan ----

  datatype Named = Named(short: ShortName, needsLfn: bool)

  /** The input with its tree and short names: all that the bytes depend on. */
  datatype Plan = Plan(files: seq<FileEntry>, dirs: seq<Dir>, names: seq<seq<Named>>, params: Params)

  predicate IsBlank(volume: ShortName) {
    volume == seq(11, _ => SPACE)
  }

  function ChildSlots(name: string, named: Named): nat {
    1 + if named.needsLfn then LfnCount(Utf16(name)) else 0
  }

  function HeadSlots(volume: ShortName, d: nat): nat {
    if d == 0 then (if IsBlank(volume) then 0 else 1) else 2
  }

  /** A name written so that a reader gets it back. */
  ghost predicate NameOk(name: string, named: Named) {
    && (named.needsLfn || ShortUnits(named.short) == Utf16(name))
    && named.short[0] != SPACE
    && forall i :: 0 <= i < 11 ==> named.short[i] == SPACE || IsMangled(named.short[i])
  }

  ghost predicate ShortsDistinct(named: seq<Named>) {
    forall i, j :: 0 <= i < j < |named| ==> named[i].short != named[j].short
  }

  ghost predicate DirNamed(children: seq<Child>, named: seq<Named>) {
    && |named| == |children|
    && (forall i :: 0 <= i < |named| ==> NameOk(children[i].name, named[i]))
    && ShortsDistinct(named)
  }

  ghost predicate AllNamed(dirs: seq<Dir>, names: seq<seq<Named>>) {
    |names| == |dirs| && forall d :: 0 <= d < |dirs| ==> DirNamed(dirs[d].children, names[d])
  }

  /** Slots of the first `k` children. */
  function SlotsTo(children: seq<Child>, named: seq<Named>, k: nat): nat
    requires k <= |named| <= |children|
  {
    if k == 0 then 0 else SlotsTo(children, named, k - 1) + ChildSlots(children[k - 1].name, named[k - 1])
  }

  function DirSlots(volume: ShortName, d: nat, children: seq<Child>, named: seq<Named>): nat
    requires |named| == |children|
  {
    HeadSlots(volume, d) + SlotsTo(children, named, |children|)
  }

  function DirCount(slots: nat, cs: nat): (r: nat)
    requires cs > 0
    ensures r > 0 && slots * ENTRY <= r * cs
  {
    var n := CeilDiv(slots * ENTRY, cs);
    if n == 0 then 1 else n
  }

  ghost predicate Shaped(p: Plan) {
    && p.params.clusterSize > 0
    && |p.names| == |p.dirs|
    && forall d :: 0 <= d < |p.dirs| ==> |p.names[d]| == |p.dirs[d].children|
  }

  function DirCounts(p: Plan): (r: seq<nat>)
    requires Shaped(p)
    ensures |r| == |p.dirs|
  {
    seq(|p.dirs|, d requires 0 <= d < |p.dirs| =>
      DirCount(DirSlots(p.params.volume, d, p.dirs[d].children, p.names[d]), p.params.clusterSize))
  }

  function FileCounts(files: seq<FileEntry>, cs: nat): (r: seq<nat>)
    requires cs > 0
    ensures |r| == |files|
  {
    seq(|files|, i requires 0 <= i < |files| => CeilDiv(files[i].size, cs))
  }

  /** Clusters per item in allocation order: directories, then files. */
  function Counts(p: Plan): (r: seq<nat>)
    requires Shaped(p)
    ensures |r| == |p.dirs| + |p.files|
  {
    DirCounts(p) + FileCounts(p.files, p.params.clusterSize)
  }

  function Used(p: Plan): nat
    requires Shaped(p)
  {
    Total(Counts(p))
  }

  function Clusters(used: nat): nat {
    if used < MIN_CLUSTERS then MIN_CLUSTERS else used
  }

  function TableSectors(clusters: nat): nat {
    CeilDiv((clusters + 2) * 4, SECTOR)
  }

  function PartitionSectors(clusters: nat, cs: nat): nat {
    RESERVED_SECTORS + 2 * TableSectors(clusters) + clusters * (cs / SECTOR)
  }

  function DirFirst(p: Plan, d: nat): nat
    requires Shaped(p) && d < |p.dirs|
  {
    2 + Start(Counts(p), d)
  }

  function FileFirst(p: Plan, i: nat): nat
    requires Shaped(p) && i < |p.files|
  {
    if Counts(p)[|p.dirs| + i] == 0 then 0 else 2 + Start(Counts(p), |p.dirs| + i)
  }

  /** The plan fits FAT32's cluster numbers, entry sizes and sector count. */
  ghost predicate Fits(p: Plan) {
    && Shaped(p) && ValidClusterSize(p.params.clusterSize)
    && Clusters(Used(p)) <= MAX_CLUSTERS
    && PartitionSectors(Clusters(Used(p)), p.params.clusterSize) <= MAX_U32
  }

  lemma FirstsFit(p: Plan)
    requires Shaped(p) && Used(p) <= MAX_CLUSTERS
    ensures forall d :: 0 <= d < |p.dirs| ==> 2 <= DirFirst(p, d) <= MAX_CLUSTERS + 2
    ensures forall i :: 0 <= i < |p.files| ==> FileFirst(p, i) <= MAX_CLUSTERS + 2
  {
    var counts := Counts(p);
    StartEnds(counts);
    forall k | 0 <= k <= |counts| ensures Start(counts, k) <= MAX_CLUSTERS {
      StartMonotone(counts, k, |counts|);
    }
  }

  // ---- The allocation table ----

  /** Entry `c` of a table. */
  function FatEntry(fat: seq<byte>, c: nat): u32
    requires 4 * c + 4 <= |fat|
  {
    DWord(fat, 4 * c)
  }

  /** A chain: each cluster names the next, the last ends it. */
  ghost predicate Linked(fat: seq<byte>, first: nat, count: nat) {
    && 4 * (first + count) <= |fat|
    && forall c :: first <= c < first + count ==> FatEntry(fat, c) == if c + 1 == first + count then EOC else c + 1
  }

  ghost predicate FreeFrom(fat: seq<byte>, c: nat) {
    forall i :: c <= i < |fat| / 4 ==> FatEntry(fat, i) == 0
  }

  /** Every run of every item is a chain of its own; nothing else is allocated. */
  ghost predicate IsFat(fat: seq<byte>, counts: seq<nat>, clusters: nat) {
    && |fat| == TableSectors(clusters) * SECTOR
    && FatEntry(fat, 0) == MEDIA_ENTRY && FatEntry(fat, 1) == EOC
    && (forall k :: 0 <= k < |counts| ==> Linked(fat, 2 + Start(counts, k), counts[k]))
    && FreeFrom(fat, 2 + Total(counts))
  }

  method SetEntry(fat: array<byte>, c: nat, value: u32)
    requires 4 * c + 4 <= fat.Length
    modifies fat
    ensures FatEntry(fat[..], c) == value
    ensures forall i :: 0 <= i != c && 4 * i + 4 <= fat.Length ==> FatEntry(fat[..], i) == FatEntry(old(fat[..]), i)
  {
    var le := LittleEndian(value, 4);
    ghost var before := fat[..];
    fat[4 * c], fat[4 * c + 1], fat[4 * c + 2], fat[4 * c + 3] := le[0], le[1], le[2], le[3];
    DWordBack(value);
    assert DWord(fat[..], 4 * c) == DWord(le, 0);
    forall i | 0 <= i != c && 4 * i + 4 <= fat.Length ensures FatEntry(fat[..], i) == FatEntry(before, i) {
      assert fat[..][4 * i] == before[4 * i] && fat[..][4 * i + 1] == before[4 * i + 1]
          && fat[..][4 * i + 2] == before[4 * i + 2] && fat[..][4 * i + 3] == before[4 * i + 3];
    }
  }

  /** `chain`: link one contiguous run. */
  method Chain(fat: array<byte>, first: nat, count: nat)
    requires 2 <= first && first + count <= MAX_CLUSTERS + 2 && 4 * (first + count) <= fat.Length
    modifies fat
    ensures Linked(fat[..], first, count)
    ensures forall i :: 0 <= i && 4 * i + 4 <= fat.Length && !(first <= i < first + count) ==> FatEntry(fat[..], i) == FatEntry(old(fat[..]), i)
  {
    for i := 0 to count
      invariant forall c :: first <= c < first + i ==> FatEntry(fat[..], c) == if c + 1 == first + count then EOC else c + 1
      invariant forall c :: 0 <= c && 4 * c + 4 <= fat.Length && !(first <= c < first + i) ==> FatEntry(fat[..], c) == FatEntry(old(fat[..]), c)
    {
      SetEntry(fat, first + i, if i + 1 == count then EOC else first + i + 1);
    }
  }

  /** The chains of the first `k` items, and nothing beyond them. */
  ghost predicate LinkedUpTo(fat: seq<byte>, counts: seq<nat>, k: nat)
    requires k <= |counts|
  {
    && |fat| >= 8 && FatEntry(fat, 0) == MEDIA_ENTRY && FatEntry(fat, 1) == EOC
    && (forall j :: 0 <= j < k ==> Linked(fat, 2 + Start(counts, j), counts[j]))
    && FreeFrom(fat, 2 + Start(counts, k))
  }

  lemma LinkOne(before: seq<byte>, after: seq<byte>, counts: seq<nat>, k: nat)
    requires k < |counts| && LinkedUpTo(before, counts, k) && |after| == |before|
    requires Linked(after, 2 + Start(counts, k), counts[k])
    requires forall i :: 0 <= i && 4 * i + 4 <= |after| && !(2 + Start(counts, k) <= i < 2 + Start(counts, k) + counts[k]) ==>
               FatEntry(after, i) == FatEntry(before, i)
    ensures LinkedUpTo(after, counts, k + 1)
  {
    StartStep(counts, k);
    var first := 2 + Start(counts, k);
    forall j | 0 <= j < k ensures Linked(after, 2 + Start(counts, j), counts[j]) {
      StartStep(counts, j);
      StartMonotone(counts, j + 1, k);
      assert Linked(before, 2 + Start(counts, j), counts[j]);
      hide Start, FatEntry;
    }
    hide Start, FatEntry;
    assert FreeFrom(after, first + counts[k]);
  }

  lemma ZeroTable(fat: seq<byte>)
    requires forall i :: 0 <= i < |fat| ==> fat[i] == 0
    ensures forall c :: 0 <= c && 4 * c + 4 <= |fat| ==> FatEntry(fat, c) == 0
  {
  }

  /** One copy of the table: media and end marks, then a chain for every directory and every file with clusters. */
  method BuildFat(firsts: seq<nat>, counts: seq<nat>, clusters: nat) returns (table: seq<byte>)
    requires Total(counts) <= clusters <= MAX_CLUSTERS && |firsts| == |counts|
    requires forall k :: 0 <= k < |counts| ==> counts[k] == 0 || firsts[k] == 2 + Start(counts, k)
    ensures IsFat(table, counts, clusters)
  {
    var fat := new byte[TableSectors(clusters) * SECTOR](_ => 0);
    ZeroTable(fat[..]);
    SetEntry(fat, 0, MEDIA_ENTRY);
    SetEntry(fat, 1, EOC);
    StartEnds(counts);
    for k := 0 to |counts|
      invariant LinkedUpTo(fat[..], counts, k)
    {
      StartStep(counts, k);
      StartMonotone(counts, k + 1, |counts|);
      ghost var before := fat[..];
      if counts[k] > 0 {
        Chain(fat, firsts[k], counts[k]);
      }
      LinkOne(before, fat[..], counts, k);
    }
    return fat[..];
  }

  /** Allocated clusters are partitioned: each belongs to the run of exactly one item. */
  lemma {:induction false} OneOwner(counts: seq<nat>, c: nat) returns (k: nat)
    requires c < Total(counts)
    ensures k < |counts| && Start(counts, k) <= c < Start(counts, k) + counts[k]
    ensures forall j :: 0 <= j < |counts| && Start(counts, j) <= c < Start(counts, j) + counts[j] ==> j == k
  {
    k := OwnerBelow(counts, |counts|, c) by {
      StartEnds(counts);
    }
    forall j | 0 <= j < |counts| && Start(counts, j) <= c < Start(counts, j) + counts[j] ensures j == k {
      StartStep(counts, j);
      StartStep(counts, k);
      if j < k {
        StartMonotone(counts, j + 1, k);
      } else if k < j {
        StartMonotone(counts, k + 1, j);
      }
    }
  }

  lemma {:induction false} OwnerBelow(counts: seq<nat>, n: nat, c: nat) returns (k: nat)
    requires n <= |counts| && c < Start(counts, n)
    ensures k < n && Start(counts, k) <= c < Start(counts, k) + counts[k]
  {
    StartStep(counts, n - 1);
    if Start(counts, n - 1) <= c {
      k := n - 1;
    } else {
      k := OwnerBelow(counts, n - 1, c);
    }
  }

  // ---- Directory clusters ----

  /** What a directory's entries need to know about its children. */
  ghost predicate Placeable(p: Plan) {
    && Shaped(p) && Used(p) <= MAX_CLUSTERS && p.dirs != []
    && (forall d, i :: 0 <= d < |p.dirs| && 0 <= i < |p.dirs[d].children| ==> ChildPlaceable(p, p.dirs[d].children[i]))
    && forall d :: 0 <= d < |p.dirs| ==> p.dirs[d].parent < |p.dirs|
  }

  ghost predicate ChildPlaceable(p: Plan, c: Child) {
    && LfnCount(Utf16(c.name)) <= 20
    && match c.kind
       case DirKind(i) => i < |p.dirs|
       case FileKind(i) => i < |p.files| && p.files[i].size <= MAX_FILE_SIZE
  }

  function Attr(c: Child): byte {
    if c.kind.DirKind? then ATTR_DIRECTORY else ATTR_ARCHIVE
  }

  /** A directory's first cluster, as the 32-bit number entries hold. */
  function DirCluster(p: Plan, d: nat): u32
    requires Shaped(p) && Used(p) <= MAX_CLUSTERS && d < |p.dirs|
  {
    FirstsFit(p);
    DirFirst(p, d)
  }

  function ClusterOf(p: Plan, c: Child): u32
    requires Shaped(p) && Used(p) <= MAX_CLUSTERS && ChildPlaceable(p, c)
  {
    FirstsFit(p);
    match c.kind
    case DirKind(i) => DirCluster(p, i)
    case FileKind(i) => FileFirst(p, i)
  }

  function SizeOf(p: Plan, c: Child): u32
    requires ChildPlaceable(p, c)
  {
    match c.kind
    case DirKind(_) => 0
    case FileKind(i) => p.files[i].size
  }

  function OneChild(p: Plan, c: Child, named: Named): seq<byte>
    requires Shaped(p) && Used(p) <= MAX_CLUSTERS && ChildPlaceable(p, c)
  {
    ChildBytes(Utf16(c.name), named.short, named.needsLfn, Attr(c), ClusterOf(p, c), SizeOf(p, c))
  }

  function ChildrenFrom(p: Plan, d: nat, k: nat): seq<byte>
    requires Placeable(p) && d < |p.dirs| && k <= |p.dirs[d].children|
    decreases |p.dirs[d].children| - k
  {
    if k == |p.dirs[d].children| then []
    else OneChild(p, p.dirs[d].children[k], p.names[d][k]) + ChildrenFrom(p, d, k + 1)
  }

  const DOT: ShortName := [0x2E, 0x20, 0x20, 0x20, 0x20, 0x20, 0x20, 0x20, 0x20, 0x20, 0x20]
  const DOT_DOT: ShortName := [0x2E, 0x2E, 0x20, 0x20, 0x20, 0x20, 0x20, 0x20, 0x20, 0x20, 0x20]

  /** The cluster a `..` entry names: 0 stands for the root. */
  function ParentCluster(p: Plan, d: nat): u32
    requires Placeable(p) && d < |p.dirs|
  {
    if p.dirs[d].parent == 0 then 0 else DirCluster(p, p.dirs[d].parent)
  }

  function Head(p: Plan, d: nat): seq<byte>
    requires Placeable(p) && d < |p.dirs|
  {
    if d == 0 then (if IsBlank(p.params.volume) then [] else SfnEntry(p.params.volume, ATTR_VOLUME_ID, 0, 0))
    else SfnEntry(DOT, ATTR_DIRECTORY, DirCluster(p, d), 0) + SfnEntry(DOT_DOT, ATTR_DIRECTORY, ParentCluster(p, d), 0)
  }

  function Body(p: Plan, d: nat): seq<byte>
    requires Placeable(p) && d < |p.dirs|
  {
    Head(p, d) + ChildrenFrom(p, d, 0)
  }

  lemma ChildLength(p: Plan, c: Child, named: Named)
    requires Shaped(p) && Used(p) <= MAX_CLUSTERS && ChildPlaceable(p, c)
    ensures |OneChild(p, c, named)| == ENTRY * ChildSlots(c.name, named)
  {
    hide SfnEntry, LfnRun, Counts, Start, Total, Checksum, Utf16;
  }

  lemma {:induction false} ChildrenLength(p: Plan, d: nat, k: nat)
    requires Placeable(p) && d < |p.dirs| && k <= |p.dirs[d].children|
    ensures |ChildrenFrom(p, d, k)| + ENTRY * SlotsTo(p.dirs[d].children, p.names[d], k)
         == ENTRY * SlotsTo(p.dirs[d].children, p.names[d], |p.dirs[d].children|)
    decreases |p.dirs[d].children| - k
  {
    hide OneChild, ChildSlots, Counts, Start, Total, Used, DirFirst, FileFirst, Utf16;
    if k < |p.dirs[d].children| {
      ChildLength(p, p.dirs[d].children[k], p.names[d][k]);
      ChildrenLength(p, d, k + 1);
    }
  }

  /** The bytes emitted for a directory are exactly the slots counted for it, so padding never cuts. */
  lemma BodyLength(p: Plan, d: nat)
    requires Placeable(p) && d < |p.dirs|
    ensures |Body(p, d)| == ENTRY * DirSlots(p.params.volume, d, p.dirs[d].children, p.names[d])
    ensures |Body(p, d)| <= DirCounts(p)[d] * p.params.clusterSize
  {
    ChildrenLength(p, d, 0);
  }

  function DirBlock(p: Plan, d: nat): (r: seq<byte>)
    requires Placeable(p) && d < |p.dirs|
    ensures |r| == DirCounts(p)[d] * p.params.clusterSize
  {
    BodyLength(p, d);
    Body(p, d) + Zeros(DirCounts(p)[d] * p.params.clusterSize - |Body(p, d)|)
  }

  function DirBlocks(p: Plan, n: nat): (r: seq<seq<byte>>)
    requires Placeable(p) && n <= |p.dirs|
    ensures |r| == n
  {
    seq(n, d requires 0 <= d < n => DirBlock(p, d))
  }

  /** First clusters in allocation order; 0 for an item without clusters. */
  function Firsts(p: Plan): (r: seq<nat>)
    requires Shaped(p)
    ensures |r| == |p.dirs| + |p.files|
  {
    seq(|p.dirs| + |p.files|, k requires 0 <= k < |p.dirs| + |p.files| => if Counts(p)[k] == 0 then 0 else 2 + Start(Counts(p), k))
  }

  lemma FirstsAre(p: Plan)
    requires Shaped(p) && Used(p) <= MAX_CLUSTERS
    ensures forall d :: 0 <= d < |p.dirs| ==> Firsts(p)[d] == DirFirst(p, d) <= MAX_U32
    ensures forall i :: 0 <= i < |p.files| ==> Firsts(p)[|p.dirs| + i] == FileFirst(p, i) <= MAX_U32
  {
    FirstsFit(p);
    forall d | 0 <= d < |p.dirs| ensures Counts(p)[d] > 0 {
      assert Counts(p)[d] == DirCounts(p)[d];
    }
  }

  /** What a child's short entry points at. */
  method Target(p: Plan, firsts: seq<nat>, c: Child) returns (attr: byte, cluster: u32, size: u32)
    requires Shaped(p) && Used(p) <= MAX_CLUSTERS && ChildPlaceable(p, c) && firsts == Firsts(p)
    ensures attr == Attr(c) && cluster == ClusterOf(p, c) && size == SizeOf(p, c)
  {
    hide Firsts, Counts, Start, Total, DirFirst, FileFirst, Used, LfnCount, Utf16;
    FirstsAre(p);
    match c.kind {
      case DirKind(i) => return ATTR_DIRECTORY, firsts[i], 0;
      case FileKind(i) =>
        assert FileFirst(p, i) <= MAX_U32;
        return ATTR_ARCHIVE, firsts[|p.dirs| + i], p.files[i].size;
    }
  }

  /** Append one child's entries. */
  method PushChild(out: ByteVec, p: Plan, firsts: seq<nat>, c: Child, named: Named)
    requires Shaped(p) && Used(p) <= MAX_CLUSTERS && ChildPlaceable(p, c) && firsts == Firsts(p)
    modifies out
    ensures out.bytes == old(out.bytes) + OneChild(p, c, named)
  {
    hide Firsts, Counts, Used, ClusterOf, SizeOf, Attr, SfnEntry, LfnRun, Checksum, Utf16;
    if named.needsLfn {
      var sum := SfnChecksum(named.short);
      PushLfn(out, Utf16(c.name), sum);
    }
    var attr, cluster, size := Target(p, firsts, c);
    PushSfn(out, named.short, attr, cluster, size);
  }

  method PushHead(out: ByteVec, p: Plan, firsts: seq<nat>, d: nat)
    requires Placeable(p) && d < |p.dirs| && firsts == Firsts(p)
    modifies out
    ensures out.bytes == old(out.bytes) + Head(p, d)
  {
    hide SfnEntry, Counts, Start, Total, Used, DirFirst, FileFirst, DirCounts, FileCounts, Firsts;
    FirstsAre(p);
    if d == 0 {
      if !IsBlank(p.params.volume) {
        PushSfn(out, p.params.volume, ATTR_VOLUME_ID, 0, 0);
      }
    } else {
      PushSfn(out, DOT, ATTR_DIRECTORY, firsts[d], 0);
      PushSfn(out, DOT_DOT, ATTR_DIRECTORY, if p.dirs[d].parent == 0 then 0 else firsts[p.dirs[d].parent], 0);
    }
  }

  lemma ChildrenStep(p: Plan, d: nat, k: nat)
    requires Placeable(p) && d < |p.dirs| && k < |p.dirs[d].children|
    ensures Shaped(p) && Used(p) <= MAX_CLUSTERS && d < |p.names| && k < |p.names[d]| && ChildPlaceable(p, p.dirs[d].children[k])
    ensures ChildrenFrom(p, d, k) == OneChild(p, p.dirs[d].children[k], p.names[d][k]) + ChildrenFrom(p, d, k + 1)
  {
    hide OneChild, Used, Counts;
  }

  lemma ChildrenEnd(p: Plan, d: nat)
    requires Placeable(p) && d < |p.dirs|
    ensures ChildrenFrom(p, d, |p.dirs[d].children|) == []
  {
  }

  /** One directory's entries. */
  method PushBody(out: ByteVec, p: Plan, firsts: seq<nat>, d: nat)
    requires Placeable(p) && d < |p.dirs| && firsts == Firsts(p)
    modifies out
    ensures out.bytes == old(out.bytes) + Body(p, d)
  {
    hide Head, OneChild, Used, Counts, Placeable, ChildrenFrom, ChildPlaceable, Shaped, Firsts;
    PushHead(out, p, firsts, d);
    ghost var whole, done := ChildrenFrom(p, d, 0), [];
    assert [] + whole == whole;
    ghost var start := out.bytes;
    assert start + [] == start;
    for k := 0 to |p.dirs[d].children|
      invariant whole == done + ChildrenFrom(p, d, k) && out.bytes == start + done
    {
      ChildrenStep(p, d, k);
      var c := p.dirs[d].children[k];
      ghost var one := OneChild(p, c, p.names[d][k]);
      PushChild(out, p, firsts, c, p.names[d][k]);
      assert start + done + one == start + (done + one);
      assert done + (one + ChildrenFrom(p, d, k + 1)) == (done + one) + ChildrenFrom(p, d, k + 1);
      done := done + one;
    }
    ChildrenEnd(p, d);
    assert done + [] == done;
    assert old(out.bytes) + Head(p, d) + whole == old(out.bytes) + (Head(p, d) + whole);
  }

  /** Every directory's entries, each padded to its own clusters. */
  method BuildDirs(p: Plan, firsts: seq<nat>, counts: seq<nat>) returns (r: seq<byte>)
    requires Placeable(p) && firsts == Firsts(p) && |p.dirs| <= |counts| && counts[..|p.dirs|] == DirCounts(p)
    ensures r == Flat(DirBlocks(p, |p.dirs|))
  {
    hide Body, Used, Counts, DirCounts, Firsts;
    var out := new ByteVec();
    for d := 0 to |p.dirs|
      invariant out.bytes == Flat(DirBlocks(p, d))
    {
      ghost var start := out.bytes;
      var want := |out.bytes| + counts[d] * p.params.clusterSize;
      PushBody(out, p, firsts, d);
      BodyLength(p, d);
      out.Extend(Zeros(want - |out.bytes|));
      assert DirBlocks(p, d + 1)[..d] == DirBlocks(p, d);
      assert start + Body(p, d) + Zeros(want - |start + Body(p, d)|) == start + DirBlock(p, d);
    }
    return out.bytes;
  }
}
