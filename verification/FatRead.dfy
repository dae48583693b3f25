/**
 An independent reader of FAT32 images, by the rules of the FAT32 File System
 Specification, and the read-back theorem: run over a rendered layout it returns
 every input file once, at its path, with its content.
 */
module FatRead {
  import opened Wrappers
  import opened Bytes
  import opened FatNames
  import opened FatEntries
  import opened FatTree
  import opened FatLayout
  import opened FatSectors
  import opened FatImage

  // ---- The reader ----

  /** `.` and `..`. */
  const HERE: ShortName := [0x2E, 0x20, 0x20, 0x20, 0x20, 0x20, 0x20, 0x20, 0x20, 0x20, 0x20]
  const ABOVE: ShortName := [0x2E, 0x2E, 0x20, 0x20, 0x20, 0x20, 0x20, 0x20, 0x20, 0x20, 0x20]

  const FAT32_LBA: byte := 0x0C
  const END_OF_CHAIN: nat := 0x0FFF_FFF8
  const ENTRY_BITS: nat := 0x1000_0000

  datatype Volume = Volume(fat: seq<byte>, data: seq<byte>, clusterSize: nat, root: nat)

  /** The boot sector's view of the volume that starts at `base`; both table copies must agree. */
  function MountAt(image: seq<byte>, base: nat): Option<Volume> {
    if base + 512 > |image| then None
    else
      var b := image[base..base + 512];
      var fatAt := base + Word(b, 14) * 512;
      var fatLen := DWord(b, 36) * 512;
      var dataAt := fatAt + 2 * fatLen;
      var end := base + DWord(b, 32) * 512;
      if b[510] != 0x55 || b[511] != 0xAA || Word(b, 11) != 512 || b[13] == 0 || b[16] != 2 then None
      else if dataAt > end || end > |image| then None
      else if image[fatAt..fatAt + fatLen] != image[fatAt + fatLen..dataAt] then None
      else Some(Volume(image[fatAt..fatAt + fatLen], image[dataAt..end], (b[13] as nat) * 512, DWord(b, 44)))
  }

  /** The first partition if sector 0 is a partition table with a FAT32 entry, else the whole image. */
  function VolumeStart(image: seq<byte>): nat
    requires |image| >= 512
  {
    if image[0x1C2] == FAT32_LBA then DWord(image, 0x1C6) * 512 else 0
  }

  function Mount(image: seq<byte>): Option<Volume> {
    if |image| < 512 then None else MountAt(image, VolumeStart(image))
  }

  /** The bytes of a cluster chain, cluster by cluster as the table links them. */
  function Follow(v: Volume, c: nat, bound: nat): Option<seq<byte>>
    decreases bound
  {
    if bound == 0 || c < 2 || (c - 1) * v.clusterSize > |v.data| || 4 * c + 4 > |v.fat| then None
    else
      var block := v.data[(c - 2) * v.clusterSize..(c - 1) * v.clusterSize];
      var next := FatEntry(v.fat, c) % ENTRY_BITS;
      if next >= END_OF_CHAIN then Some(block)
      else
        var rest := Follow(v, next, bound - 1);
        if rest.None? then None else Some(block + rest.value)
  }

  /** No chain is longer than the table. */
  function ChainBytes(v: Volume, c: nat): Option<seq<byte>> {
    Follow(v, c, |v.fat| / 4)
  }

  /** A file's content: nothing for an empty file without clusters, else its chain cut to size. */
  function ReadFile(v: Volume, e: DirEntry): Option<seq<byte>> {
    if e.cluster == 0 then (if e.size == 0 then Some([]) else None)
    else
      var chain := ChainBytes(v, e.cluster);
      if chain.None? || |chain.value| < e.size || |chain.value| >= e.size + v.clusterSize then None
      else Some(chain.value[..e.size])
  }

  datatype Seen = Seen(path: seq<u16>, content: seq<byte>)

  const SLASH: u16 := 0x2F

  function JoinUnits(prefix: seq<u16>, name: seq<u16>): seq<u16> {
    if prefix == [] then name else prefix + [SLASH] + name
  }

  /** The root's entries without volume labels. */
  function Unlabelled(es: seq<DirEntry>): seq<DirEntry> {
    if es == [] then []
    else if es[0].attr == 0x08 then Unlabelled(es[1..])
    else [es[0]] + Unlabelled(es[1..])
  }

  /** A subdirectory's entries after `.` naming itself and `..` naming its parent (0 for the root). */
  function Undotted(es: seq<DirEntry>, self: nat, parent: nat): Option<seq<DirEntry>> {
    if |es| >= 2 && es[0].short == HERE && es[0].attr == 0x10 && es[0].cluster == self && es[0].size == 0
       && es[1].short == ABOVE && es[1].attr == 0x10 && es[1].cluster == parent && es[1].size == 0
    then Some(es[2..]) else None
  }

  function ReadDir(v: Volume, cluster: nat, parent: nat, isRoot: bool, prefix: seq<u16>, depth: nat): Option<seq<Seen>>
    decreases depth, 1, 0
  {
    var chain := ChainBytes(v, cluster);
    if chain.None? then None
    else
      var es := ReadEntries(chain.value, NoLong);
      if es.None? then None
      else
        var body := if isRoot then Some(Unlabelled(es.value)) else Undotted(es.value, cluster, parent);
        if body.None? then None else ReadList(v, if isRoot then 0 else cluster, prefix, body.value, depth)
  }

  /** Everything below a list of entries; `self` is what a child's `..` must name. */
  function ReadList(v: Volume, self: nat, prefix: seq<u16>, es: seq<DirEntry>, depth: nat): Option<seq<Seen>>
    decreases depth, 0, |es|
  {
    if es == [] then Some([])
    else
      var first := ReadOne(v, self, prefix, es[0], depth);
      var rest := ReadList(v, self, prefix, es[1..], depth);
      if first.None? || rest.None? then None else Some(first.value + rest.value)
  }

  function ReadOne(v: Volume, self: nat, prefix: seq<u16>, e: DirEntry, depth: nat): Option<seq<Seen>>
    decreases depth, 0, 0
  {
    var path := JoinUnits(prefix, e.name);
    if e.attr == 0x10 then
      if depth == 0 || e.size != 0 then None else ReadDir(v, e.cluster, self, false, path, depth - 1)
    else if e.attr != 0x20 then None
    else
      var content := ReadFile(v, e);
      if content.None? then None else Some([Seen(path, content.value)])
  }

  /** All files of an image, or nothing if any structure is malformed. */
  function ReadImage(image: seq<byte>): Option<seq<Seen>> {
    var v := Mount(image);
    if v.None? then None else ReadDir(v.value, v.value.root, 0, true, [], |v.value.fat| / 4)
  }

  // ---- Mounting a layout ----

  function VolumeOf(p: Plan, l: Fat32Layout, contents: seq<seq<byte>>): Volume
    requires Placeable(p) && FitsFiles(contents, p.files)
  {
    Volume(l.fat, DataArea(p, contents), p.params.clusterSize, 2)
  }

  /** Mounting by a boot sector whose regions lie as it says. */
  lemma MountRegions(lead: seq<byte>, boot: seq<byte>, reserved: seq<byte>, fat: seq<byte>, data: seq<byte>, total: nat, spc: nat)
    requires |boot| + |reserved| == RESERVED_SECTORS * SECTOR && |boot| == SECTOR
    requires |fat| % SECTOR == 0 && MountsAs(boot, total, |fat| / SECTOR, spc) && spc > 0
    requires total * SECTOR == RESERVED_SECTORS * SECTOR + 2 * |fat| + |data|
    ensures MountAt(lead + (boot + reserved) + (fat + fat) + data, |lead|) == Some(Volume(fat, data, spc * SECTOR, 2))
  {
    var image := lead + (boot + reserved) + (fat + fat) + data;
    var base := |lead|;
    var fatAt := base + RESERVED_SECTORS * SECTOR;
    assert image[base..base + SECTOR] == boot;
    assert image[fatAt..fatAt + |fat|] == fat;
    assert image[fatAt + |fat|..fatAt + 2 * |fat|] == fat;
    assert image[fatAt + 2 * |fat|..base + total * SECTOR] == data;
  }

  lemma BootFits(p: Plan)
    requires Fits(p)
    ensures var clusters := Clusters(Used(p));
            MountsAs(Boot(p), PartitionSectors(clusters, p.params.clusterSize), TableSectors(clusters), p.params.clusterSize / SECTOR)
  {
    hide MountsAs, IsPowerOfTwo, BootSector, Used;
    ClusterSectors(p.params.clusterSize);
    var clusters := Clusters(Used(p));
    BootMounts(p.params, PartitionSectors(clusters, p.params.clusterSize), TableSectors(clusters), p.params.clusterSize / SECTOR);
  }

  function AfterBoot(p: Plan): (r: seq<byte>)
    requires Fits(p)
    ensures ReservedBytes(p) == Boot(p) + r
  {
    Info(p) + (Zeros(4 * SECTOR) + (Boot(p) + (Info(p) + Zeros((RESERVED_SECTORS - 8) * SECTOR))))
  }

  lemma RegionSizes(p: Plan, l: Fat32Layout, contents: seq<seq<byte>>)
    requires IsLayout(l, p) && FitsFiles(contents, p.files)
    ensures var sectors := PartitionSectors(Clusters(Used(p)), p.params.clusterSize);
            && |l.fat| == TableSectors(Clusters(Used(p))) * SECTOR
            && p.params.clusterSize / SECTOR * SECTOR == p.params.clusterSize && p.params.clusterSize / SECTOR > 0
            && sectors * SECTOR == RESERVED_SECTORS * SECTOR + 2 * |l.fat| + |DataArea(p, contents)|
  {
    hide DataArea, Segments, Placeable, IsPowerOfTwo, Used, DirBlocks, Linked, FreeFrom, TableSectors, GeometryOf, FatEntry;
    DataLength(p, contents);
    ClusterSectors(p.params.clusterSize);
    var clusters := Clusters(Used(p));
    RegionMath(clusters, p.params.clusterSize, TableSectors(clusters));
  }

  lemma RegionMath(clusters: nat, cs: nat, table: nat)
    requires cs % SECTOR == 0
    ensures (RESERVED_SECTORS + 2 * table + clusters * (cs / SECTOR)) * SECTOR
         == RESERVED_SECTORS * SECTOR + 2 * (table * SECTOR) + clusters * cs
  {
    var spc := cs / SECTOR;
    assert clusters * cs == clusters * (spc * SECTOR) == clusters * spc * SECTOR;
  }

  lemma PartitionFound(p: Plan, rest: seq<byte>)
    requires Fits(p) && p.params.partition
    ensures var image := LeadBytes(p) + rest; image[0x1C2] == FAT32_LBA && DWord(image, 0x1C6) == PARTITION_LBA
  {
    hide MbrSector, Used, IsPowerOfTwo;
    MbrBack(p.params, PartitionSectors(Clusters(Used(p)), p.params.clusterSize));
    var image := LeadBytes(p) + rest;
    assert image[..SECTOR] == Mbr(p);
    assert image[0x1C2] == image[..SECTOR][0x1C2];
    assert DWord(image[..SECTOR], 0x1C6) == DWord(image, 0x1C6);
  }

  lemma NoPartition(p: Plan, rest: seq<byte>)
    requires Fits(p) && !p.params.partition
    ensures (LeadBytes(p) + ReservedBytes(p) + rest)[0x1C2] != FAT32_LBA
  {
    hide Boot, IsPowerOfTwo, Used, Word, DWord;
    BootFits(p);
    var whole := LeadBytes(p) + ReservedBytes(p) + rest;
    assert whole[..SECTOR] == Boot(p);
    assert whole[0x1C2] == Boot(p)[0x1C2];
  }

  /** The reader finds the volume behind the lead-in. */
  lemma StartBack(p: Plan, rest: seq<byte>)
    requires Fits(p)
    ensures VolumeStart(LeadBytes(p) + ReservedBytes(p) + rest) == |LeadBytes(p)|
  {
    hide Boot, Mbr, Info, IsPowerOfTwo, Used, DWord;
    if p.params.partition {
      assert LeadBytes(p) + ReservedBytes(p) + rest == LeadBytes(p) + (ReservedBytes(p) + rest);
      PartitionFound(p, ReservedBytes(p) + rest);
    } else {
      NoPartition(p, rest);
    }
  }

  lemma MountBack(p: Plan, l: Fat32Layout, contents: seq<seq<byte>>)
    requires IsLayout(l, p) && FitsFiles(contents, p.files)
    ensures Mount(ImageBytes(p, l, contents)) == Some(VolumeOf(p, l, contents))
  {
    hide Segments, DataArea, Boot, Info, Mbr, MountsAs, MountAt, Used, IsPowerOfTwo, DWord, Placeable, DirBlocks, IsFat;
    RegionSizes(p, l, contents);
    BootFits(p);
    var clusters := Clusters(Used(p));
    var image, data := ImageBytes(p, l, contents), DataArea(p, contents);
    MountRegions(LeadBytes(p), Boot(p), AfterBoot(p), l.fat, data, PartitionSectors(clusters, p.params.clusterSize), p.params.clusterSize / SECTOR);
    assert image == LeadBytes(p) + ReservedBytes(p) + ((l.fat + l.fat) + data);
    StartBack(p, (l.fat + l.fat) + data);
  }

  // ---- Chains ----

  lemma StepMath(a: nat, n: nat, cs: nat)
    requires n > 0
    ensures (a + 1) * cs == a * cs + cs && (a + n) * cs == (a + 1) * cs + (n - 1) * cs && (n - 1) * cs >= 0
  {
  }

  lemma FollowLast(v: Volume, c: nat, bound: nat, lo: nat, hi: nat)
    requires bound > 0 && c >= 2 && 4 * c + 4 <= |v.fat| && FatEntry(v.fat, c) % ENTRY_BITS >= END_OF_CHAIN
    requires lo == (c - 2) * v.clusterSize && hi == (c - 1) * v.clusterSize && lo <= hi <= |v.data|
    ensures Follow(v, c, bound) == Some(v.data[lo..hi])
  {
    hide FatEntry;
  }

  lemma FollowNext(v: Volume, c: nat, bound: nat, lo: nat, hi: nat, next: nat, rest: seq<byte>)
    requires bound > 0 && c >= 2 && 4 * c + 4 <= |v.fat| && FatEntry(v.fat, c) % ENTRY_BITS == next < END_OF_CHAIN
    requires lo == (c - 2) * v.clusterSize && hi == (c - 1) * v.clusterSize && lo <= hi <= |v.data|
    requires Follow(v, next, bound - 1) == Some(rest)
    ensures Follow(v, c, bound) == Some(v.data[lo..hi] + rest)
  {
    hide FatEntry;
  }

  /** Following a linked run collects exactly its clusters. */
  lemma {:induction false} FollowRun(v: Volume, first: nat, count: nat, i: nat, bound: nat, lo: nat, hi: nat)
    requires Linked(v.fat, first, count) && 2 <= first && first + count <= MAX_CLUSTERS + 2 && i < count && bound >= count - i
    requires lo == (first - 2 + i) * v.clusterSize && hi == (first - 2 + count) * v.clusterSize && hi <= |v.data|
    ensures lo <= hi && Follow(v, first + i, bound) == Some(v.data[lo..hi])
    decreases count - i
  {
    hide Linked, FatEntry, Follow;
    var c, cs := first + i, v.clusterSize;
    ChainEntry(v.fat, first, count, i);
    StepMath(first - 2 + i, count - i, cs);
    var mid := (c - 1) * cs;
    if i + 1 < count {
      FollowRun(v, first, count, i + 1, bound - 1, mid, hi);
      FollowNext(v, c, bound, lo, mid, c + 1, v.data[mid..hi]);
      assert v.data[lo..hi] == v.data[lo..mid] + v.data[mid..hi];
    } else {
      FollowLast(v, c, bound, lo, mid);
    }
  }

  lemma ChainEntry(fat: seq<byte>, first: nat, count: nat, i: nat)
    requires Linked(fat, first, count) && 2 <= first && first + count <= MAX_CLUSTERS + 2 && i < count
    ensures 4 * (first + i) + 4 <= |fat|
    ensures FatEntry(fat, first + i) % ENTRY_BITS == if i + 1 == count then EOC else first + i + 1
    ensures first + i + 1 < END_OF_CHAIN
  {
  }

  /** The clusters of item `k` hold exactly its block. */
  lemma ItemData(p: Plan, contents: seq<seq<byte>>, k: nat) returns (lo: nat, hi: nat)
    requires Placeable(p) && FitsFiles(contents, p.files) && k < |Counts(p)|
    ensures lo == Start(Counts(p), k) * p.params.clusterSize && hi == (Start(Counts(p), k) + Counts(p)[k]) * p.params.clusterSize
    ensures lo <= hi <= |DataArea(p, contents)| && DataArea(p, contents)[lo..hi] == Blocks(p, contents)[k]
  {
    hide Counts, Blocks, Start, Filled, Flat, Used;
    var counts, cs, start := Counts(p), p.params.clusterSize, Start(Counts(p), k);
    BlocksFilled(p, contents);
    FlatAt(Blocks(p, contents), counts, cs, k);
    lo, hi := start * cs, start * cs + counts[k] * cs;
    SumMath(start, counts[k], cs);
    assert DataArea(p, contents)[lo..hi] == Flat(Blocks(p, contents))[lo..hi];
  }

  lemma SumMath(a: nat, b: nat, cs: nat)
    ensures (a + b) * cs == a * cs + b * cs
  {
  }

  /** The chain of item `k` holds exactly its block. */
  lemma ItemChain(p: Plan, l: Fat32Layout, contents: seq<seq<byte>>, k: nat)
    requires IsLayout(l, p) && FitsFiles(contents, p.files) && k < |Counts(p)| && Counts(p)[k] > 0
    ensures ChainBytes(VolumeOf(p, l, contents), 2 + Start(Counts(p), k)) == Some(Blocks(p, contents)[k])
  {
    hide Segments, Linked, FreeFrom, FatEntry, Follow, DirBlocks, Blocks, DataArea, IsPowerOfTwo, Counts, Start, Used, GeometryOf, Placeable;
    var lo, hi := ItemData(p, contents, k);
    UsedWithin(p, k);
    TableHolds(p, l, k);
    FollowRun(VolumeOf(p, l, contents), 2 + Start(Counts(p), k), Counts(p)[k], 0, |l.fat| / 4, lo, hi);
  }

  lemma UsedWithin(p: Plan, k: nat)
    requires Shaped(p) && k < |Counts(p)|
    ensures Start(Counts(p), k) + Counts(p)[k] <= Used(p)
  {
    StartStep(Counts(p), k);
    UsedAt(p, k + 1);
  }

  lemma TableHolds(p: Plan, l: Fat32Layout, k: nat)
    requires IsLayout(l, p) && k < |Counts(p)|
    ensures Linked(l.fat, 2 + Start(Counts(p), k), Counts(p)[k])
    ensures Counts(p)[k] <= |l.fat| / 4
  {
    hide Segments, Counts, FatEntry, DirBlocks, GeometryOf;
  }

  // ---- Directory contents ----

  lemma {:induction false} ReadZeros(n: nat)
    ensures ReadEntries(Zeros(n), NoLong) == Some([])
  {
  }

  function EntryOf(p: Plan, c: Child, named: Named): DirEntry
    requires Shaped(p) && Used(p) <= MAX_CLUSTERS && ChildPlaceable(p, c)
  {
    DirEntry(Utf16(c.name), named.short, Attr(c), ClusterOf(p, c), SizeOf(p, c))
  }

  function EntriesFrom(p: Plan, d: nat, k: nat): seq<DirEntry>
    requires Placeable(p) && d < |p.dirs| && k <= |p.dirs[d].children|
    decreases |p.dirs[d].children| - k
  {
    if k == |p.dirs[d].children| then []
    else [EntryOf(p, p.dirs[d].children[k], p.names[d][k])] + EntriesFrom(p, d, k + 1)
  }

  ghost predicate Readable(p: Plan, d: nat)
    requires d < |p.dirs|
  {
    |p.names| == |p.dirs| && |p.names[d]| == |p.dirs[d].children|
    && forall k :: 0 <= k < |p.dirs[d].children| ==> IsComponent(p.dirs[d].children[k].name) && NameOk(p.dirs[d].children[k].name, p.names[d][k])
  }

  lemma ComponentUnits(name: string)
    requires IsComponent(name)
    ensures Utf16(name) != [] && LfnCount(Utf16(name)) <= 20 && forall u :: u in Utf16(name) ==> u != 0
  {
    forall i | 0 <= i < |name| ensures name[i] != 0 as char {
      assert !IsIllegalChar(name[i]);
    }
    NoNulUnits(name);
  }

  lemma ReadOneChild(p: Plan, c: Child, named: Named, rest: seq<byte>)
    requires Shaped(p) && Used(p) <= MAX_CLUSTERS && ChildPlaceable(p, c)
    requires IsComponent(c.name) && NameOk(c.name, named)
    ensures ReadEntries(OneChild(p, c, named) + rest, NoLong) ==
              var more := ReadEntries(rest, NoLong);
              if more.None? then None else Some([EntryOf(p, c, named)] + more.value)
  {
    hide ReadEntries, ChildBytes, Utf16, ShortUnits, Used, Counts, DirFirst, FileFirst, ClusterOf, SizeOf, IsComponent, LfnCount;
    ComponentUnits(c.name);
    assert named.short[0] == SPACE || IsMangled(named.short[0]);
    ReadChild(Utf16(c.name), named.short, named.needsLfn, Attr(c), ClusterOf(p, c), SizeOf(p, c), rest);
  }

  /** The children of a directory read back in order, stopping at the padding. */
  lemma {:induction false} ReadChildren(p: Plan, d: nat, k: nat, pad: nat)
    requires Placeable(p) && d < |p.dirs| && k <= |p.dirs[d].children| && Readable(p, d)
    ensures ReadEntries(ChildrenFrom(p, d, k) + Zeros(pad), NoLong) == Some(EntriesFrom(p, d, k))
    decreases |p.dirs[d].children| - k
  {
    hide ReadEntries, OneChild, Used, Counts, IsComponent, NameOk, EntryOf, ChildPlaceable;
    if k == |p.dirs[d].children| {
      assert ChildrenFrom(p, d, k) + Zeros(pad) == Zeros(pad);
      ReadZeros(pad);
    } else {
      ChildrenStep(p, d, k);
      var c, named := p.dirs[d].children[k], p.names[d][k];
      assert ChildrenFrom(p, d, k) + Zeros(pad) == OneChild(p, c, named) + (ChildrenFrom(p, d, k + 1) + Zeros(pad));
      ReadOneChild(p, c, named, ChildrenFrom(p, d, k + 1) + Zeros(pad));
      ReadChildren(p, d, k + 1, pad);
    }
  }

  /** A volume label a reader takes for neither an end mark nor a free slot. */
  predicate PlainLabel(volume: ShortName) {
    volume[0] != 0 && volume[0] != FREE
  }

  lemma LegalLabelIsPlain(volume: ShortName)
    requires LabelLegal(volume)
    ensures PlainLabel(volume)
  {
  }

  lemma {:induction false} NoLabels(p: Plan, d: nat, k: nat)
    requires Placeable(p) && d < |p.dirs| && k <= |p.dirs[d].children|
    ensures Unlabelled(EntriesFrom(p, d, k)) == EntriesFrom(p, d, k)
    decreases |p.dirs[d].children| - k
  {
    hide ClusterOf, SizeOf, Used, Counts, ChildPlaceable, Utf16;
    if k < |p.dirs[d].children| {
      NoLabels(p, d, k + 1);
    }
  }

  /** The entry a volume label reads as. */
  function LabelEntry(volume: ShortName): DirEntry {
    DirEntry(ShortUnits(volume), volume, 0x08, 0, 0)
  }

  /** Reading the root's block: the label, unless it is blank, then the children. */
  lemma ReadRootBlock(p: Plan)
    requires Placeable(p) && Readable(p, 0) && PlainLabel(p.params.volume)
    ensures var es := ReadEntries(DirBlock(p, 0), NoLong);
            es.Some? && es.value == (if IsBlank(p.params.volume) then [] else [LabelEntry(p.params.volume)]) + EntriesFrom(p, 0, 0)
            && Unlabelled(es.value) == EntriesFrom(p, 0, 0)
  {
    hide ReadEntries, Used, Counts, SfnEntry, Readable, ChildrenFrom, EntriesFrom;
    var pad := DirCounts(p)[0] * p.params.clusterSize - |Body(p, 0)|;
    BodyLength(p, 0);
    var rest := ChildrenFrom(p, 0, 0) + Zeros(pad);
    ReadChildren(p, 0, 0, pad);
    NoLabels(p, 0, 0);
    if IsBlank(p.params.volume) {
      assert DirBlock(p, 0) == rest;
    } else {
      assert DirBlock(p, 0) == SfnEntry(p.params.volume, ATTR_VOLUME_ID, 0, 0) + rest;
      ReadSfn(NoLong, p.params.volume, ATTR_VOLUME_ID, 0, 0, ShortUnits(p.params.volume), rest);
      var es := ReadEntries(DirBlock(p, 0), NoLong).value;
      assert es[1..] == EntriesFrom(p, 0, 0);
    }
  }

  /** Reading a subdirectory's block: `.` names itself, `..` its parent, then the children. */
  lemma ReadSubBlock(p: Plan, d: nat)
    requires Placeable(p) && 0 < d < |p.dirs| && Readable(p, d)
    ensures var es := ReadEntries(DirBlock(p, d), NoLong);
            es.Some? && Undotted(es.value, DirCluster(p, d), ParentCluster(p, d)) == Some(EntriesFrom(p, d, 0))
  {
    hide ReadEntries, Used, Counts, SfnEntry, Readable, ChildrenFrom, EntriesFrom, DirCluster, ParentCluster;
    var pad := DirCounts(p)[d] * p.params.clusterSize - |Body(p, d)|;
    BodyLength(p, d);
    var self, parent := DirCluster(p, d), ParentCluster(p, d);
    var rest := ChildrenFrom(p, d, 0) + Zeros(pad);
    ReadChildren(p, d, 0, pad);
    var up := SfnEntry(DOT_DOT, ATTR_DIRECTORY, parent, 0) + rest;
    assert DirBlock(p, d) == SfnEntry(DOT, ATTR_DIRECTORY, self, 0) + up;
    ReadSfn(NoLong, DOT_DOT, ATTR_DIRECTORY, parent, 0, ShortUnits(DOT_DOT), rest);
    ReadSfn(NoLong, DOT, ATTR_DIRECTORY, self, 0, ShortUnits(DOT), up);
    var es := ReadEntries(DirBlock(p, d), NoLong).value;
    assert es[2..] == EntriesFrom(p, d, 0);
  }

  // ---- Files ----

  lemma SlackMath(size: nat, cs: nat)
    requires cs > 0
    ensures CeilDiv(size, cs) == 0 <==> size == 0
    ensures CeilDiv(size, cs) * cs < size + cs
  {
    var n := CeilDiv(size, cs);
    assert n > 0 ==> (n - 1) * cs == n * cs - cs;
  }

  /** A file's entry leads to exactly its content. */
  lemma FileBack(p: Plan, l: Fat32Layout, contents: seq<seq<byte>>, i: nat, e: DirEntry)
    requires IsLayout(l, p) && FitsFiles(contents, p.files) && i < |p.files|
    requires e.cluster == FileFirst(p, i) && e.size == p.files[i].size
    ensures ReadFile(VolumeOf(p, l, contents), e) == Some(contents[i])
  {
    hide IsFat, Segments, DataArea, IsPowerOfTwo, Counts, Start, Used, GeometryOf, DirBlocks, Firsts;
    var k, cs := |p.dirs| + i, p.params.clusterSize;
    FileCountIs(p, i);
    SlackMath(p.files[i].size, cs);
    if Counts(p)[k] > 0 {
      ItemChain(p, l, contents, k);
      var block := Blocks(p, contents)[k];
      assert block == FileBlock(p, contents, i);
      assert block[..p.files[i].size] == contents[i];
    } else {
      assert contents[i] == [];
    }
  }

  /** A file's bytes stand in the image at its first cluster's offset. */
  lemma FileLands(p: Plan, l: Fat32Layout, contents: seq<seq<byte>>, image: seq<byte>, i: nat) returns (at: nat)
    requires IsLayout(l, p) && FitsFiles(contents, p.files) && i < |p.files| && p.files[i].size > 0
    requires Renders(l.segments, l, contents, image)
    ensures 2 <= FileFirst(p, i) && at == l.geometry.dataOffset + (FileFirst(p, i) - 2) * l.geometry.clusterSize
    ensures at + p.files[i].size <= |image| && image[at..at + p.files[i].size] == contents[i]
  {
    hide *;
    LayoutPlaces(p, l);
    LayoutRenders(p, l, contents);
    SameRender(l, contents, image, p);
    FirstOfFile(p, i);
    var lo, hi := ItemData(p, contents, |p.dirs| + i);
    BlockStarts(p, contents, i);
    BeforeData(p, l, contents);
    TailSlice(LeadBytes(p) + ReservedBytes(p) + (l.fat + l.fat), DataArea(p, contents), lo, hi, p.files[i].size, contents[i]);
    at := l.geometry.dataOffset + lo;
  }

  lemma FirstOfFile(p: Plan, i: nat)
    requires Placeable(p) && i < |p.files| && p.files[i].size > 0
    ensures FileFirst(p, i) == 2 + Start(Counts(p), |p.dirs| + i)
  {
    hide Counts, Start, Used, CeilDiv;
    FileCountIs(p, i);
    SlackMath(p.files[i].size, p.params.clusterSize);
  }

  lemma BlockStarts(p: Plan, contents: seq<seq<byte>>, i: nat)
    requires Placeable(p) && FitsFiles(contents, p.files) && i < |p.files|
    ensures |contents| == |p.files| && p.files[i].size <= |Blocks(p, contents)[|p.dirs| + i]|
    ensures Blocks(p, contents)[|p.dirs| + i][..p.files[i].size] == contents[i]
  {
    hide Used, Counts, DirBlocks;
    assert Blocks(p, contents)[|p.dirs| + i] == FileBlock(p, contents, i);
  }

  lemma BeforeData(p: Plan, l: Fat32Layout, contents: seq<seq<byte>>)
    requires IsLayout(l, p) && FitsFiles(contents, p.files)
    ensures |LeadBytes(p) + ReservedBytes(p) + (l.fat + l.fat)| == l.geometry.dataOffset && l.geometry.clusterSize == p.params.clusterSize
    ensures ImageBytes(p, l, contents) == LeadBytes(p) + ReservedBytes(p) + (l.fat + l.fat) + DataArea(p, contents)
  {
    hide Segments, IsPowerOfTwo, Used, DirBlocks, Linked, FreeFrom, FatEntry, TableSectors, Placeable, DataArea;
  }

  lemma TailSlice(lead: seq<byte>, data: seq<byte>, lo: nat, hi: nat, size: nat, content: seq<byte>)
    requires lo <= hi <= |data| && size <= hi - lo && data[lo..hi][..size] == content
    ensures (lead + data)[|lead| + lo..|lead| + lo + size] == content
  {
  }

  // ---- Order of reading ----

  ghost predicate Descends(dirs: seq<Dir>) {
    forall d, k :: 0 <= d < |dirs| && 0 <= k < |dirs[d].children| && dirs[d].children[k].kind.DirKind? ==>
      d < dirs[d].children[k].kind.dir < |dirs|
  }

  /** Files in the order a depth-first reader meets them, from child `k` of directory `d` on. */
  ghost function OrderFrom(dirs: seq<Dir>, d: nat, k: nat): seq<nat>
    requires Descends(dirs) && d < |dirs| && k <= |dirs[d].children|
    decreases |dirs| - d, |dirs[d].children| - k, 1
  {
    if k == |dirs[d].children| then [] else OrderAt(dirs, d, k) + OrderFrom(dirs, d, k + 1)
  }

  ghost function OrderAt(dirs: seq<Dir>, d: nat, k: nat): seq<nat>
    requires Descends(dirs) && d < |dirs| && k < |dirs[d].children|
    decreases |dirs| - d, |dirs[d].children| - k, 0
  {
    match dirs[d].children[k].kind
    case FileKind(f) => [f]
    case DirKind(i) => OrderFrom(dirs, i, 0)
  }

  /** What a reader should see of the files in `order`. */
  ghost function SeenOf(files: seq<FileEntry>, contents: seq<seq<byte>>, order: seq<nat>): (r: seq<Seen>)
    requires |contents| == |files| && forall k :: 0 <= k < |order| ==> order[k] < |files|
    ensures |r| == |order|
  {
    seq(|order|, k requires 0 <= k < |order| => Seen(Utf16(Relative(files[order[k]].path)), contents[order[k]]))
  }

  ghost predicate Below(order: seq<nat>, n: nat) {
    forall k :: 0 <= k < |order| ==> order[k] < n
  }

  lemma {:induction false} OrderBelow(dirs: seq<Dir>, d: nat, k: nat, files: seq<FileEntry>)
    requires Descends(dirs) && d < |dirs| && k <= |dirs[d].children| && ChildrenOk(dirs, files, |files|, |files|)
    ensures Below(OrderFrom(dirs, d, k), |files|)
    decreases |dirs| - d, |dirs[d].children| - k
  {
    hide ChildrenOk;
    if k < |dirs[d].children| {
      OrderAtBelow(dirs, d, k, files);
      OrderBelow(dirs, d, k + 1, files);
    }
  }

  lemma {:induction false} OrderAtBelow(dirs: seq<Dir>, d: nat, k: nat, files: seq<FileEntry>)
    requires Descends(dirs) && d < |dirs| && k < |dirs[d].children| && ChildrenOk(dirs, files, |files|, |files|)
    ensures Below(OrderAt(dirs, d, k), |files|)
    decreases |dirs| - d, |dirs[d].children| - k, 0
  {
    var c := dirs[d].children[k];
    assert c in dirs[d].children && ChildOk(dirs, files, |files|, |files|, d, c);
    match c.kind {
      case FileKind(f) =>
      case DirKind(i) => OrderBelow(dirs, i, 0, files);
    }
  }

  lemma TreeDescends(dirs: seq<Dir>, files: seq<FileEntry>)
    requires ChildrenOk(dirs, files, |files|, |files|)
    ensures Descends(dirs)
  {
    forall d, k | 0 <= d < |dirs| && 0 <= k < |dirs[d].children| && dirs[d].children[k].kind.DirKind?
      ensures d < dirs[d].children[k].kind.dir < |dirs|
    {
      assert dirs[d].children[k] in dirs[d].children;
      assert ChildOk(dirs, files, |files|, |files|, d, dirs[d].children[k]);
    }
  }

  // ---- Reading the tree ----

  lemma {:induction false} Utf16Concat(a: string, b: string)
    ensures Utf16(a + b) == Utf16(a) + Utf16(b)
  {
    hide CharUnits;
    if a == "" {
      assert a + b == b;
    } else {
      Utf16Concat(a[1..], b);
      assert (a + b)[1..] == a[1..] + b && (a + b)[0] == a[0];
      assert CharUnits(a[0]) + (Utf16(a[1..]) + Utf16(b)) == CharUnits(a[0]) + Utf16(a[1..]) + Utf16(b);
    }
  }

  lemma JoinedUnits(path: string, name: string)
    ensures JoinUnits(Utf16(path), Utf16(name)) == Utf16(Join(path, name))
  {
    if path != "" {
      Utf16Concat(path + "/", name);
      Utf16Concat(path, "/");
      assert Utf16("/") == [SLASH] + Utf16("/"[1..]);
    }
  }

  /** All that reading a rendered plan relies on. */
  ghost predicate Rendered(p: Plan, l: Fat32Layout, contents: seq<seq<byte>>) {
    && IsLayout(l, p) && FitsFiles(contents, p.files) && PlainLabel(p.params.volume)
    && DirsListed(p.dirs) && ChildrenOk(p.dirs, p.files, |p.files|, |p.files|) && Descends(p.dirs)
    && forall d :: 0 <= d < |p.dirs| ==> Readable(p, d)
  }

  lemma DirChain(p: Plan, l: Fat32Layout, contents: seq<seq<byte>>, d: nat)
    requires IsLayout(l, p) && FitsFiles(contents, p.files) && d < |p.dirs|
    ensures ChainBytes(VolumeOf(p, l, contents), DirCluster(p, d)) == Some(DirBlock(p, d))
  {
    hide IsFat, Segments, DataArea, IsPowerOfTwo, Start, Used, GeometryOf, DirBlock, FileBlocks;
    assert Counts(p)[d] == DirCounts(p)[d];
    assert Blocks(p, contents)[d] == DirBlock(p, d);
    hide Counts, DirCounts, Blocks;
    ItemChain(p, l, contents, d);
  }

  /** What reading a directory comes down to: reading its children's entries. */
  lemma DirIsList(p: Plan, l: Fat32Layout, contents: seq<seq<byte>>, d: nat, prefix: seq<u16>, depth: nat)
    requires Rendered(p, l, contents) && d < |p.dirs|
    ensures ReadDir(VolumeOf(p, l, contents), DirCluster(p, d), ParentCluster(p, d), d == 0, prefix, depth)
         == ReadList(VolumeOf(p, l, contents), if d == 0 then 0 else DirCluster(p, d), prefix, EntriesFrom(p, d, 0), depth)
  {
    hide IsLayout, VolumeOf, ChainBytes, ReadEntries, EntriesFrom, ReadList, DirBlock, DirCluster, ParentCluster, Unlabelled, Undotted,
         DirsListed, ChildrenOk, Descends, Readable, PlainLabel, FitsFiles;
    LayoutPlaces(p, l);
    DirChain(p, l, contents, d);
    if d == 0 {
      ReadRootBlock(p);
    } else {
      ReadSubBlock(p, d);
    }
  }

  lemma LayoutPlaces(p: Plan, l: Fat32Layout)
    requires IsLayout(l, p)
    ensures Placeable(p) && Fits(p) && |Counts(p)| == |p.dirs| + |p.files|
  {
  }

  /** Reading one child gives its files. */
  lemma {:induction false} ReadOneBack(p: Plan, l: Fat32Layout, contents: seq<seq<byte>>, d: nat, k: nat, depth: nat)
    requires Rendered(p, l, contents) && d < |p.dirs| && k < |p.dirs[d].children| && depth >= |p.dirs| - d
    ensures Below(OrderAt(p.dirs, d, k), |p.files|)
    ensures ChildPlaceable(p, p.dirs[d].children[k]) && |p.names[d]| == |p.dirs[d].children|
    ensures ReadOne(VolumeOf(p, l, contents), if d == 0 then 0 else DirCluster(p, d), Utf16(p.dirs[d].path),
                    EntryOf(p, p.dirs[d].children[k], p.names[d][k]), depth)
         == Some(SeenOf(p.files, contents, OrderAt(p.dirs, d, k)))
    decreases |p.dirs| - d, |p.dirs[d].children| - k, 0
  {
    hide IsFat, Segments, GeometryOf, DirBlocks, VolumeOf, DirCluster, ReadDir, ReadFile, Counts, Used, IsComponent, NameOk, FileFirst, Utf16, Relative, Join,
         DirCounts, FileCounts, Fits, DirsListed, PlainLabel;
    var c := p.dirs[d].children[k];
    assert c in p.dirs[d].children && ChildOk(p.dirs, p.files, |p.files|, |p.files|, d, c);
    OrderAtBelow(p.dirs, d, k, p.files);
    JoinedUnits(p.dirs[d].path, c.name);
    var e := EntryOf(p, c, p.names[d][k]);
    if c.kind.DirKind? {
      ReadDirBack(p, l, contents, c.kind.dir, depth - 1);
    } else {
      FileBack(p, l, contents, c.kind.file, e);
      assert SeenOf(p.files, contents, [c.kind.file]) == [Seen(JoinUnits(Utf16(p.dirs[d].path), e.name), contents[c.kind.file])];
    }
  }

  /** Reading a directory's children gives their files in order. */
  lemma {:induction false} ReadListBack(p: Plan, l: Fat32Layout, contents: seq<seq<byte>>, d: nat, k: nat, depth: nat)
    requires Rendered(p, l, contents) && d < |p.dirs| && k <= |p.dirs[d].children| && depth >= |p.dirs| - d
    ensures Below(OrderFrom(p.dirs, d, k), |p.files|)
    ensures ReadList(VolumeOf(p, l, contents), if d == 0 then 0 else DirCluster(p, d), Utf16(p.dirs[d].path), EntriesFrom(p, d, k), depth)
         == Some(SeenOf(p.files, contents, OrderFrom(p.dirs, d, k)))
    decreases |p.dirs| - d, |p.dirs[d].children| - k, 1
  {
    hide IsFat, Segments, GeometryOf, DirBlocks, VolumeOf, DirCluster, ReadOne, Counts, Used, EntryOf, OrderAt, Readable, ChildrenOk, DirsListed;
    OrderBelow(p.dirs, d, k, p.files);
    if k < |p.dirs[d].children| {
      ReadOneBack(p, l, contents, d, k, depth);
      ReadListBack(p, l, contents, d, k + 1, depth);
      var es := EntriesFrom(p, d, k);
      assert es[1..] == EntriesFrom(p, d, k + 1);
      SeenConcat(p.files, contents, OrderAt(p.dirs, d, k), OrderFrom(p.dirs, d, k + 1));
    }
  }

  lemma SeenConcat(files: seq<FileEntry>, contents: seq<seq<byte>>, a: seq<nat>, b: seq<nat>)
    requires |contents| == |files| && Below(a, |files|) && Below(b, |files|)
    ensures Below(a + b, |files|) && SeenOf(files, contents, a + b) == SeenOf(files, contents, a) + SeenOf(files, contents, b)
  {
  }

  /** Reading a directory gives every file below it. */
  lemma {:induction false} ReadDirBack(p: Plan, l: Fat32Layout, contents: seq<seq<byte>>, d: nat, depth: nat)
    requires Rendered(p, l, contents) && d < |p.dirs| && depth >= |p.dirs| - d
    ensures Below(OrderFrom(p.dirs, d, 0), |p.files|)
    ensures ReadDir(VolumeOf(p, l, contents), DirCluster(p, d), ParentCluster(p, d), d == 0, Utf16(p.dirs[d].path), depth)
         == Some(SeenOf(p.files, contents, OrderFrom(p.dirs, d, 0)))
    decreases |p.dirs| - d, |p.dirs[d].children|, 2
  {
    hide Rendered;
    RenderedPlaces(p, l, contents);
    DirIsList(p, l, contents, d, Utf16(p.dirs[d].path), depth);
    ReadListBack(p, l, contents, d, 0, depth);
  }

  lemma RenderedPlaces(p: Plan, l: Fat32Layout, contents: seq<seq<byte>>)
    requires Rendered(p, l, contents)
    ensures Placeable(p) && FitsFiles(contents, p.files) && Descends(p.dirs)
  {
  }

  // ---- Every file once ----

  lemma {:induction false} InOrder(dirs: seq<Dir>, d: nat, k: nat, j: nat, f: nat)
    requires Descends(dirs) && d < |dirs| && k <= j < |dirs[d].children| && f in OrderAt(dirs, d, j)
    ensures f in OrderFrom(dirs, d, k)
    decreases j - k
  {
    if k < j {
      InOrder(dirs, d, k + 1, j, f);
    }
  }

  /** What lies below a directory lies below the root. */
  lemma {:induction false} ReachesRoot(dirs: seq<Dir>, d: nat, f: nat)
    requires Descends(dirs) && DirsListed(dirs) && d < |dirs| && f in OrderFrom(dirs, d, 0)
    ensures f in OrderFrom(dirs, 0, 0)
    decreases d
  {
    if d > 0 {
      assert ListedAt(dirs, d);
      var parent := dirs[d].parent;
      var c :| c in dirs[parent].children && c.kind == DirKind(d);
      var k :| 0 <= k < |dirs[parent].children| && dirs[parent].children[k] == c;
      InOrder(dirs, parent, 0, k, f);
      ReachesRoot(dirs, parent, f);
    }
  }

  lemma EveryFileRead(dirs: seq<Dir>, n: nat, f: nat)
    requires Descends(dirs) && DirsListed(dirs) && FilesListed(dirs, n) && f < n
    ensures f in OrderFrom(dirs, 0, 0)
  {
    assert FileListed(dirs, f);
    var d, c :| 0 <= d < |dirs| && c in dirs[d].children && c.kind == FileKind(f);
    var k :| 0 <= k < |dirs[d].children| && dirs[d].children[k] == c;
    InOrder(dirs, d, 0, k, f);
    ReachesRoot(dirs, d, f);
  }

  /** `s` is `name` in directory `path`, or below it. */
  ghost predicate Under(s: string, path: string, name: string) {
    s == Join(path, name) || StartsWith(s, Join(path, name) + "/")
  }

  /** Of two different lengths, the longer name would reach past a slash. */
  lemma LongerHasSlash(s: string, pre: string, a: string, b: string)
    requires s == pre + a || StartsWith(s, pre + a + "/")
    requires pre + b <= s
    ensures |a| < |b| ==> '/' in b
  {
    if |a| < |b| {
      assert s[|pre + a|] == '/' && b[|a|] == s[|pre| + |a|];
    }
  }

  /** A path passes through one name of a directory only. */
  lemma UnderUnique(s: string, path: string, a: string, b: string)
    requires Under(s, path, a) && Under(s, path, b) && '/' !in a && '/' !in b
    ensures a == b
  {
    var pre := if path == "" then "" else path + "/";
    assert Join(path, a) == pre + a && Join(path, b) == pre + b;
    LongerHasSlash(s, pre, a, b);
    LongerHasSlash(s, pre, b, a);
    assert a == s[|pre|..|pre| + |a|] && b == s[|pre|..|pre| + |b|];
  }

  lemma {:induction false} OrderPick(dirs: seq<Dir>, d: nat, k: nat, f: nat) returns (j: nat)
    requires Descends(dirs) && d < |dirs| && k <= |dirs[d].children| && f in OrderFrom(dirs, d, k)
    ensures k <= j < |dirs[d].children| && f in OrderAt(dirs, d, j)
    decreases |dirs[d].children| - k
  {
    if f in OrderAt(dirs, d, k) {
      j := k;
    } else {
      j := OrderPick(dirs, d, k + 1, f);
    }
  }

  lemma {:induction false} OrderUnder(dirs: seq<Dir>, files: seq<FileEntry>, d: nat, k: nat, f: nat)
    requires Descends(dirs) && ChildrenOk(dirs, files, |files|, |files|) && d < |dirs| && k < |dirs[d].children|
    requires f in OrderAt(dirs, d, k) && f < |files|
    ensures Under(Relative(files[f].path), dirs[d].path, dirs[d].children[k].name)
    decreases |dirs| - d
  {
    hide Relative, IsLegal, Utf16;
    var c := dirs[d].children[k];
    LegalNotEmptyIf(c.name);
    assert c in dirs[d].children && ChildOk(dirs, files, |files|, |files|, d, c);
    match c.kind {
      case FileKind(_) =>
      case DirKind(i) =>
        var j := OrderPick(dirs, i, 0, f);
        OrderUnder(dirs, files, i, j, f);
        UnderParent(Relative(files[f].path), dirs[d].path, c.name, dirs[i].children[j].name);
    }
  }

  lemma LegalNotEmptyIf(name: string)
    ensures IsLegal(name) ==> name != ""
  {
  }

  lemma UnderParent(s: string, path: string, name: string, inner: string)
    requires Under(s, Join(path, name), inner) && name != ""
    ensures Under(s, path, name)
  {
    var outer := Join(path, name);
    assert Join(outer, inner) == outer + "/" + inner;
    assert StartsWith(s, outer + "/");
  }

  ghost predicate NoRepeats(order: seq<nat>) {
    forall i, j :: 0 <= i < j < |order| ==> order[i] != order[j]
  }

  lemma {:induction false} OrderOnce(dirs: seq<Dir>, files: seq<FileEntry>, upper: string -> string, d: nat, k: nat)
    requires Descends(dirs) && ChildrenOk(dirs, files, |files|, |files|) && AllDistinct(dirs, upper)
    requires d < |dirs| && k <= |dirs[d].children|
    ensures NoRepeats(OrderFrom(dirs, d, k))
    decreases |dirs| - d, |dirs[d].children| - k
  {
    hide ChildrenOk, AllDistinct;
    if k < |dirs[d].children| {
      OrderOnce(dirs, files, upper, d, k + 1);
      if dirs[d].children[k].kind.DirKind? {
        OrderOnce(dirs, files, upper, dirs[d].children[k].kind.dir, 0);
      }
      OrderAtBelow(dirs, d, k, files);
      var here, later := OrderAt(dirs, d, k), OrderFrom(dirs, d, k + 1);
      forall i, j | 0 <= i < |here| && 0 <= j < |later| ensures here[i] != later[j] {
        if here[i] == later[j] {
          Apart(dirs, files, upper, d, k, here[i]);
        }
      }
    }
  }

  /** No file lies below two children of one directory. */
  lemma Apart(dirs: seq<Dir>, files: seq<FileEntry>, upper: string -> string, d: nat, k: nat, f: nat)
    requires Descends(dirs) && ChildrenOk(dirs, files, |files|, |files|) && AllDistinct(dirs, upper)
    requires d < |dirs| && k < |dirs[d].children| && f in OrderAt(dirs, d, k) && f < |files|
    ensures f !in OrderFrom(dirs, d, k + 1)
  {
    assert FoldsDistinct(dirs[d].children, upper);
    if f in OrderFrom(dirs, d, k + 1) {
      var j := OrderPick(dirs, d, k + 1, f);
      OrderUnder(dirs, files, d, k, f);
      OrderUnder(dirs, files, d, j, f);
      NoSlash(dirs, files, d, k);
      NoSlash(dirs, files, d, j);
      UnderUnique(Relative(files[f].path), dirs[d].path, dirs[d].children[k].name, dirs[d].children[j].name);
    }
  }

  lemma NoSlash(dirs: seq<Dir>, files: seq<FileEntry>, d: nat, k: nat)
    requires ChildrenOk(dirs, files, |files|, |files|) && d < |dirs| && k < |dirs[d].children|
    ensures '/' !in dirs[d].children[k].name
  {
    assert dirs[d].children[k] in dirs[d].children;
    assert ChildOk(dirs, files, |files|, |files|, d, dirs[d].children[k]);
    assert IsIllegalChar('/');
  }

  // ---- The theorem ----

  lemma PlanReadable(p: Plan, files: seq<FileEntry>, params: Params, upper: string -> string)
    requires PlanOf(p, files, params, upper)
    ensures forall d :: 0 <= d < |p.dirs| ==> Readable(p, d)
  {
    hide NameOk, IsComponent, DirSlots, Relative;
    forall d, k | 0 <= d < |p.dirs| && 0 <= k < |p.dirs[d].children|
      ensures IsComponent(p.dirs[d].children[k].name) && NameOk(p.dirs[d].children[k].name, p.names[d][k])
    {
      assert p.dirs[d].children[k] in p.dirs[d].children;
      assert ChildOk(p.dirs, files, |files|, |files|, d, p.dirs[d].children[k]);
      assert DirNamed(p.dirs[d].children, p.names[d]);
    }
  }

  lemma {:induction false} AtLeastOneEach(counts: seq<nat>, n: nat)
    requires n <= |counts| && forall k :: 0 <= k < n ==> counts[k] > 0
    ensures Start(counts, n) >= n
  {
    if n > 0 {
      StartStep(counts, n - 1);
      AtLeastOneEach(counts, n - 1);
    }
  }

  /** There are no more directories than table entries, so the depth bound is never met. */
  lemma DepthSuffices(p: Plan, l: Fat32Layout)
    requires IsLayout(l, p)
    ensures |p.dirs| <= |l.fat| / 4
  {
    hide Segments, FatEntry, Linked, FreeFrom, DirBlocks, GeometryOf, Start, Used;
    forall d | 0 <= d < |p.dirs| ensures Counts(p)[d] > 0 {
      assert Counts(p)[d] == DirCounts(p)[d];
    }
    hide Counts;
    AtLeastOneEach(Counts(p), |p.dirs|);
    UsedAt(p, |p.dirs|);
  }

  lemma RootCluster(p: Plan)
    requires Placeable(p) && p.dirs[0].parent == 0
    ensures DirCluster(p, 0) == 2 && ParentCluster(p, 0) == 0
  {
    StartEnds(Counts(p));
  }

  /**
   Read-back: whatever files a layout was made for, reading the rendered image
   gives every file exactly once, at its path, with its content. `order` is the
   order the reader meets them in.
   */
  lemma ReadBack(p: Plan, l: Fat32Layout, files: seq<FileEntry>, params: Params, upper: string -> string,
                 contents: seq<seq<byte>>, image: seq<byte>)
    returns (order: seq<nat>)
    requires PlanOf(p, files, params, upper) && IsLayout(l, p) && PlainLabel(params.volume)
    requires FitsFiles(contents, files) && Renders(l.segments, l, contents, image)
    ensures NoRepeats(order) && Below(order, |files|) && forall f :: 0 <= f < |files| ==> f in order
    ensures ReadImage(image) == Some(SeenOf(files, contents, order))
  {
    hide IsLayout, Renders, ImageBytes, Mount, ReadDir, Readable, DirCluster, ParentCluster, ChildrenOk, FilesListed, AllDistinct,
         NamesAscend, AllNamed, Admissible, IsPowerOfTwo, DirSlots, PlainLabel, FitsFiles;
    TreeDescends(p.dirs, files);
    PlanReadable(p, files, params, upper);
    LayoutPlaces(p, l);
    LayoutRenders(p, l, contents);
    SameRender(l, contents, image, p);
    MountBack(p, l, contents);
    DepthSuffices(p, l);
    RootCluster(p);
    order := OrderFrom(p.dirs, 0, 0);
    OrderOnce(p.dirs, files, upper, 0, 0);
    forall f | 0 <= f < |files| ensures f in order {
      EveryFileRead(p.dirs, |files|, f);
    }
    assert Rendered(p, l, contents);
    ReadDirBack(p, l, contents, 0, |l.fat| / 4);
    assert Utf16("") == [];
  }

  lemma SameRender(l: Fat32Layout, contents: seq<seq<byte>>, image: seq<byte>, p: Plan)
    requires IsLayout(l, p) && FitsFiles(contents, p.files)
    requires Renders(l.segments, l, contents, image) && Renders(l.segments, l, contents, ImageBytes(p, l, contents))
    ensures image == ImageBytes(p, l, contents)
  {
  }
}
