/**
 What the reader of a FAT32 image does not need to find the files, but a driver or
 a disk tool goes by: every field of the boot sector, the partition table and the
 FSInfo sector, the backups, and the bytes that must be zero. All of it is said of
 the rendered image, with the offsets and values of the FAT32 File System
 Specification (sections "Boot Sector and BPB" and "FSInfo Sector Structure").
 */
module FatConform {
  import opened Wrappers
  import opened Bytes
  import opened FatNames
  import opened FatEntries
  import opened FatTree
  import opened FatLayout
  import opened FatCapacity
  import opened FatSectors
  import opened FatImage
  import opened FatRead

  /** Bytes `lo` up to `hi` are zero. */
  ghost predicate ZeroFrom(s: seq<byte>, lo: nat, hi: nat)
    requires hi <= |s|
  {
    forall i :: lo <= i < hi ==> s[i] == 0
  }

  /** Sector `n` of the volume at `base`. */
  function SectorAt(image: seq<byte>, base: nat, n: nat): (r: seq<byte>)
    requires base + 512 * (n + 1) <= |image|
    ensures |r| == 512
  {
    image[base + 512 * n..base + 512 * (n + 1)]
  }

  // ---- The boot sector ----

  /** Geometry, pointers and marks. `hidden` is the number of sectors before the volume. */
  ghost predicate BootConforms(b: seq<byte>, params: Params, hidden: nat) {
    && |b| == 512
    && b[0..3] == [0xEB, 0x58, 0x90]
    && b[3..11] == [0x44, 0x41, 0x54, 0x42, 0x4F, 0x49, 0x20, 0x20]
    && Word(b, 11) == 512 && 512 * (b[13] as int) == params.clusterSize && Word(b, 14) == 32 && b[16] == 2
    && ZeroFrom(b, 17, 21) && b[21] == 0xF8 && ZeroFrom(b, 22, 24)
    && Word(b, 24) == 63 && Word(b, 26) == 255 && DWord(b, 28) == hidden
    && ZeroFrom(b, 40, 44) && DWord(b, 44) == 2
    && Word(b, 48) == 1 && Word(b, 50) == 6 && ZeroFrom(b, 52, 64)
    && b[64] == 0x80 && b[65] == 0 && b[66] == 0x29
    && DWord(b, 67) == params.serial && b[71..82] == params.volume
    && b[82..90] == [0x46, 0x41, 0x54, 0x33, 0x32, 0x20, 0x20, 0x20]
    && ZeroFrom(b, 90, 510) && b[510] == 0x55 && b[511] == 0xAA
  }

  lemma BootNames(params: Params, total: u32, fatSectors: u32, spc: byte)
    ensures var b := BootSector(params, total, fatSectors, spc);
      && b[0..3] == [0xEB, 0x58, 0x90] && b[3..11] == [0x44, 0x41, 0x54, 0x42, 0x4F, 0x49, 0x20, 0x20]
      && b[71..82] == params.volume && b[82..90] == [0x46, 0x41, 0x54, 0x33, 0x32, 0x20, 0x20, 0x20]
      && b[21] == 0xF8 && b[64] == 0x80 && b[66] == 0x29
  {
    hide LittleEndian, Overlay, FatSectors.Apart, Inside;
    var fields := BootFields(params, total, fatSectors, spc);
    BootWellFormed(params, total, fatSectors, spc);
    FieldBack(fields, 0);
    FieldBack(fields, 1);
    OverlayAt(fields, 6, 21);
    OverlayAt(fields, 15, 64);
    OverlayAt(fields, 16, 66);
    FieldBack(fields, 18);
    FieldBack(fields, 19);
  }

  lemma BootPointers(params: Params, total: u32, fatSectors: u32, spc: byte)
    ensures var b := BootSector(params, total, fatSectors, spc);
      && Word(b, 24) == 63 && Word(b, 26) == 255 && DWord(b, 28) == (if params.partition then 2048 else 0)
      && Word(b, 48) == 1 && Word(b, 50) == 6 && DWord(b, 67) == params.serial
  {
    hide LittleEndian, Overlay, FatSectors.Apart, Inside, Word, DWord;
    var fields := BootFields(params, total, fatSectors, spc);
    BootWellFormed(params, total, fatSectors, spc);
    WordField(fields, 7, 63);
    WordField(fields, 8, 255);
    DWordField(fields, 9, if params.partition then 2048 else 0);
    WordField(fields, 13, 1);
    WordField(fields, 14, 6);
    DWordField(fields, 17, params.serial);
  }

  lemma BootZeros(params: Params, total: u32, fatSectors: u32, spc: byte)
    ensures var b := BootSector(params, total, fatSectors, spc);
      ZeroFrom(b, 17, 21) && ZeroFrom(b, 22, 24) && ZeroFrom(b, 40, 44) && ZeroFrom(b, 52, 64) && b[65] == 0 && ZeroFrom(b, 90, 510)
  {
    hide LittleEndian, Overlay;
    var fields := BootFields(params, total, fatSectors, spc);
    forall i | 17 <= i < 21 || 22 <= i < 24 || 40 <= i < 44 || 52 <= i < 64 || i == 65 || 90 <= i < 510 ensures Overlay(fields, i) == 0 {
      OverlayGap(fields, i);
    }
  }

  lemma BootIsConform(p: Plan)
    requires Fits(p)
    ensures BootConforms(Boot(p), p.params, if p.params.partition then 2048 else 0)
    ensures DWord(Boot(p), 32) == PartitionSectors(Clusters(Used(p)), p.params.clusterSize)
  {
    hide BootSector, IsPowerOfTwo, Used, ZeroFrom, Word, DWord;
    ClusterSectors(p.params.clusterSize);
    var (total, table, spc) := (PartitionSectors(Clusters(Used(p)), p.params.clusterSize), TableSectors(Clusters(Used(p))), p.params.clusterSize / SECTOR);
    BootNames(p.params, total, table, spc);
    BootPointers(p.params, total, table, spc);
    BootZeros(p.params, total, table, spc);
    BootMounts(p.params, total, table, spc);
  }

  // ---- The FSInfo sector ----

  /** Signatures, and what is free in the table `fat` of `n` entries. */
  ghost predicate InfoConforms(f: seq<byte>, fat: seq<byte>, n: nat) {
    && |f| == 512 && 4 * n <= |fat|
    && DWord(f, 0) == 0x4161_5252 && ZeroFrom(f, 4, 484) && DWord(f, 484) == 0x6141_7272
    && DWord(f, 488) == |FreeBelow(fat, n)|
    && (if FreeBelow(fat, n) == {} then DWord(f, 492) == 0xFFFF_FFFF
        else DWord(f, 492) in FreeBelow(fat, n) && forall c :: c in FreeBelow(fat, n) ==> DWord(f, 492) <= c)
    && ZeroFrom(f, 496, 508) && DWord(f, 508) == 0xAA55_0000
  }

  lemma InfoMarks(free: u32, next: u32)
    ensures var f := InfoSector(free, next);
      && ZeroFrom(f, 4, 484) && ZeroFrom(f, 496, 508) && DWord(f, 508) == 0xAA55_0000
      && DWord(f, 0) == 0x4161_5252 && DWord(f, 484) == 0x6141_7272
  {
    InfoBack(free, next);
    hide LittleEndian, Overlay;
    var fields := InfoFields(free, next);
    assert FatSectors.Apart(fields) && Inside(fields);
    forall i | 4 <= i < 484 || 496 <= i < 510 ensures Overlay(fields, i) == 0 {
      OverlayGap(fields, i);
    }
    OverlayAt(fields, 4, 510);
    OverlayAt(fields, 4, 511);
  }

  lemma InfoIsConform(p: Plan, l: Fat32Layout)
    requires IsLayout(l, p)
    ensures Fits(p) && InfoConforms(Info(p), l.fat, 2 + Clusters(Used(p)))
  {
    hide IsLayout, InfoSector, FatEntry, DWord, Used, TableSectors, Clusters, ZeroFrom, FreeBelow;
    LayoutPlaces(p, l);
    InfoTellsFree(p, l);
    InfoMarks(FreeClusters(p), NextFree(Used(p), Clusters(Used(p))));
  }

  // ---- The partition table ----

  /** One FAT32 partition from sector 2048 of `sectors` sectors, not marked active, and no other. */
  ghost predicate PartitionConforms(m: seq<byte>, params: Params, sectors: nat) {
    && |m| == 512
    && ZeroFrom(m, 0, 0x1B8) && DWord(m, 0x1B8) == params.signature && ZeroFrom(m, 0x1BC, 0x1BF)
    && m[0x1BF..0x1C2] == [0xFE, 0xFF, 0xFF] && m[0x1C2] == 0x0C && m[0x1C3..0x1C6] == [0xFE, 0xFF, 0xFF]
    && DWord(m, 0x1C6) == 2048 && DWord(m, 0x1CA) == sectors
    && ZeroFrom(m, 0x1CE, 0x1FE) && m[510] == 0x55 && m[511] == 0xAA
  }

  lemma PartitionIsConform(params: Params, sectors: u32)
    ensures PartitionConforms(MbrSector(params, sectors), params, sectors)
  {
    MbrBack(params, sectors);
    hide LittleEndian, Overlay;
    var fields := MbrFields(params, sectors);
    assert FatSectors.Apart(fields) && Inside(fields);
    DWordField(fields, 0, params.signature);
    FieldBack(fields, 1);
    FieldBack(fields, 3);
    forall i | 0 <= i < 0x1B8 || 0x1BC <= i < 0x1BF || 0x1CE <= i < 0x1FE ensures Overlay(fields, i) == 0 {
      OverlayGap(fields, i);
    }
  }

  // ---- The image ----

  /** The lead-in: nothing, or a partition table and zeros up to sector 2048. */
  ghost predicate LeadConforms(image: seq<byte>, base: nat, params: Params)
    requires base <= |image|
  {
    if params.partition then
      && base == 2048 * 512
      && PartitionConforms(image[0..512], params, (|image| - base) / 512) && ZeroFrom(image, 512, base)
    else base == 0
  }

  /**
   The reserved sectors of the volume at `base`: the boot sector says how large the
   volume is and where the FSInfo sector and the backup of both are, and all others
   are zero. `fat` is the table of the volume's `n` entries.
   */
  ghost predicate ReservedConforms(image: seq<byte>, base: nat, params: Params, fat: seq<byte>, n: nat)
    requires base + 32 * 512 <= |image|
  {
    var boot := SectorAt(image, base, 0);
    && BootConforms(boot, params, base / 512)
    && base + 512 * DWord(boot, 32) == |image|
    && Word(boot, 48) < 32 && InfoConforms(SectorAt(image, base, Word(boot, 48)), fat, n)
    && Word(boot, 50) + 1 < 32 && SectorAt(image, base, Word(boot, 50)) == boot
    && SectorAt(image, base, Word(boot, 50) + 1) == SectorAt(image, base, Word(boot, 48))
    && (forall k :: 0 <= k < 32 && k != 0 && k != Word(boot, 48) && k != Word(boot, 50) && k != Word(boot, 50) + 1 ==>
          ZeroFrom(SectorAt(image, base, k), 0, 512))
  }

  /** The first two entries of the table: the media byte of the boot sector, and the end mark. */
  ghost predicate TableConforms(fat: seq<byte>, media: byte)
    requires |fat| >= 8
  {
    FatEntry(fat, 0) % 256 == media && FatEntry(fat, 0) / 256 == 0xF_FFFF && FatEntry(fat, 1) == 0xFFF_FFFF
  }

  lemma LeadBack(p: Plan, l: Fat32Layout, rest: seq<byte>)
    requires Fits(p) && |ReservedBytes(p) + rest| == 512 * PartitionSectors(Clusters(Used(p)), p.params.clusterSize)
    ensures LeadConforms(LeadBytes(p) + (ReservedBytes(p) + rest), |LeadBytes(p)|, p.params)
  {
    hide MbrSector, Used, IsPowerOfTwo, PartitionConforms, PartitionSectors, ReservedBytes;
    if p.params.partition {
      var sectors := PartitionSectors(Clusters(Used(p)), p.params.clusterSize);
      PartitionIsConform(p.params, sectors);
      var image := LeadBytes(p) + (ReservedBytes(p) + rest);
      assert image[0..512] == Mbr(p);
      forall i | 512 <= i < 2048 * 512 ensures image[i] == 0 {
        assert image[i] == LeadBytes(p)[i];
      }
    }
  }

  /** The eight sectors that are not all zero, and the zero ones, where they stand. */
  lemma ReservedSectorsAt(lead: seq<byte>, boot: seq<byte>, info: seq<byte>, rest: seq<byte>)
    requires |boot| == |info| == 512
    ensures var image := lead + (boot + (info + (Zeros(4 * 512) + (boot + (info + Zeros(24 * 512)))))) + rest;
      && SectorAt(image, |lead|, 0) == SectorAt(image, |lead|, 6) == boot && SectorAt(image, |lead|, 1) == SectorAt(image, |lead|, 7) == info
      && forall k :: 2 <= k < 6 || 8 <= k < 32 ==> ZeroFrom(SectorAt(image, |lead|, k), 0, 512)
  {
    var image := lead + (boot + (info + (Zeros(4 * 512) + (boot + (info + Zeros(24 * 512)))))) + rest;
    var n := |lead|;
    assert image[n..n + 512] == boot && image[n + 512..n + 1024] == info;
    assert image[n + 6 * 512..n + 7 * 512] == boot && image[n + 7 * 512..n + 8 * 512] == info;
    assert image[n + 1024..n + 6 * 512] == Zeros(4 * 512);
    assert image[n + 8 * 512..n + 32 * 512] == Zeros(24 * 512);
    forall k | 2 <= k < 6 || 8 <= k < 32 ensures ZeroFrom(SectorAt(image, n, k), 0, 512) {
      forall i | 0 <= i < 512 ensures SectorAt(image, n, k)[i] == 0 {
        if k < 6 {
          assert image[n + 512 * k + i] == image[n + 1024..n + 6 * 512][512 * (k - 2) + i];
        } else {
          assert image[n + 512 * k + i] == image[n + 8 * 512..n + 32 * 512][512 * (k - 8) + i];
        }
      }
    }
  }

  lemma ReservedBack(p: Plan, l: Fat32Layout, rest: seq<byte>)
    requires IsLayout(l, p) && |ReservedBytes(p) + rest| == 512 * PartitionSectors(Clusters(Used(p)), p.params.clusterSize)
    ensures ReservedConforms(LeadBytes(p) + ReservedBytes(p) + rest, |LeadBytes(p)|, p.params, l.fat, 2 + Clusters(Used(p)))
  {
    LayoutPlaces(p, l);
    hide IsLayout, Boot, Info, Mbr, Used, IsPowerOfTwo, BootSector, PartitionSectors, InfoConforms, BootConforms, Clusters, SectorAt, ZeroFrom, Placeable, ReservedConforms;
    BootIsConform(p);
    InfoIsConform(p, l);
    ReservedSectorsAt(LeadBytes(p), Boot(p), Info(p), rest);
    var image := LeadBytes(p) + ReservedBytes(p) + rest;
    assert |LeadBytes(p)| / 512 == if p.params.partition then 2048 else 0;
    hide ReservedBytes, LeadBytes;
    ReservedFrom(image, |LeadBytes(p)|, Boot(p), Info(p), p.params, l.fat, 2 + Clusters(Used(p)));
  }

  lemma ReservedFrom(image: seq<byte>, base: nat, boot: seq<byte>, info: seq<byte>, params: Params, fat: seq<byte>, n: nat)
    requires base + 32 * 512 <= |image|
    requires SectorAt(image, base, 0) == SectorAt(image, base, 6) == boot && SectorAt(image, base, 1) == SectorAt(image, base, 7) == info
    requires forall k :: 2 <= k < 6 || 8 <= k < 32 ==> ZeroFrom(SectorAt(image, base, k), 0, 512)
    requires BootConforms(boot, params, base / 512) && base + 512 * DWord(boot, 32) == |image| && InfoConforms(info, fat, n)
    ensures ReservedConforms(image, base, params, fat, n)
  {
    assert Word(boot, 48) == 1 && Word(boot, 50) == 6;
    hide BootConforms, SectorAt, ZeroFrom, InfoConforms, Word, DWord;
  }

  /**
   Whatever the files, a rendered image tells a driver the truth: `base` is where the
   reader finds the volume, and the lead-in, the reserved sectors and the table's first
   entries are as the specification has them, with the given serial, signature and label.
   */
  lemma ImageConforms(p: Plan, l: Fat32Layout, contents: seq<seq<byte>>, image: seq<byte>) returns (base: nat)
    requires IsLayout(l, p) && FitsFiles(contents, p.files) && Renders(l.segments, l, contents, image)
    ensures |image| >= 512 && base == VolumeStart(image) && base + 32 * 512 <= |image|
    ensures LeadConforms(image, base, p.params)
    ensures ReservedConforms(image, base, p.params, l.fat, 2 + Clusters(Used(p)))
    ensures Mount(image) == Some(VolumeOf(p, l, contents)) && |l.fat| >= 8 && TableConforms(l.fat, image[base + 21])
    ensures IsFat32Count(Clusters(Used(p)))
  {
    LayoutPlaces(p, l);
    LayoutRenders(p, l, contents);
    SameRender(l, contents, image, p);
    MountBack(p, l, contents);
    CountFits(p);
    base := |LeadBytes(p)|;
    var rest := (l.fat + l.fat) + DataArea(p, contents);
    ImageParts(p, l, contents, rest);
    hide *;
    StartBack(p, rest);
    LeadBack(p, l, rest);
    ReservedBack(p, l, rest);
    MediaAt(p, l, image, base, rest);
  }

  /** By this count alone a driver knows the volume is FAT32, and that each cluster has a number. */
  predicate IsFat32Count(clusters: nat) {
    65_525 <= clusters && clusters + 1 < 0xFFF_FFF7
  }

  /** No larger than it has to be: the least cluster count that is FAT32's and holds what is used, and a table of just the sectors its entries need. */
  lemma VolumeIsLeast(used: nat, other: nat, clusters: nat, clusterSize: nat)
    ensures Clusters(used) >= 65_525 && Clusters(used) >= used && (other >= 65_525 && other >= used ==> other >= Clusters(used))
    ensures 4 * (clusters + 2) <= 512 * TableSectors(clusters) < 4 * (clusters + 2) + 512
    ensures PartitionSectors(clusters, clusterSize) == 32 + 2 * TableSectors(clusters) + clusters * (clusterSize / 512)
  {
  }

  lemma CountFits(p: Plan)
    requires Fits(p)
    ensures IsFat32Count(Clusters(Used(p)))
  {
    hide Used;
  }

  lemma ImageParts(p: Plan, l: Fat32Layout, contents: seq<seq<byte>>, rest: seq<byte>)
    requires IsLayout(l, p) && FitsFiles(contents, p.files) && rest == (l.fat + l.fat) + DataArea(p, contents)
    ensures Placeable(p) && Fits(p) && |LeadBytes(p)| + |ReservedBytes(p)| <= |ImageBytes(p, l, contents)| && |ReservedBytes(p)| == 32 * 512
    ensures ImageBytes(p, l, contents) == LeadBytes(p) + ReservedBytes(p) + rest == LeadBytes(p) + (ReservedBytes(p) + rest)
    ensures |ReservedBytes(p) + rest| == 512 * PartitionSectors(Clusters(Used(p)), p.params.clusterSize)
  {
    hide IsLayout, Placeable, Used, Clusters, PartitionSectors, LeadBytes, ReservedBytes, DataArea, FitsFiles, IsPowerOfTwo, TableSectors, ValidClusterSize;
    LayoutPlaces(p, l);
    RegionSizes(p, l, contents);
    Regrouped(LeadBytes(p), ReservedBytes(p), rest);
    Regrouped(LeadBytes(p) + ReservedBytes(p), l.fat + l.fat, DataArea(p, contents));
  }

  lemma MediaAt(p: Plan, l: Fat32Layout, image: seq<byte>, base: nat, rest: seq<byte>)
    requires IsLayout(l, p) && image == LeadBytes(p) + ReservedBytes(p) + rest && base == |LeadBytes(p)|
    ensures |l.fat| >= 8 && TableConforms(l.fat, image[base + 21])
  {
    TableStarts(p, l);
    BootIsConform(p);
    hide IsLayout, Boot, Info, FatEntry, BootSector, LeadBytes, IsPowerOfTwo, Used;
    assert image[base + 21] == Boot(p)[21];
  }

  lemma TableStarts(p: Plan, l: Fat32Layout)
    requires IsLayout(l, p)
    ensures |l.fat| >= 8 && FatEntry(l.fat, 0) == 0x0FFF_FFF8 && FatEntry(l.fat, 1) == 0xFFF_FFFF
  {
    hide Segments, Used, Counts, FatEntry, DirBlocks, Placeable, GeometryOf;
  }

  // ---- The data area ----

  /** The entries of the root directory. */
  function RootEntries(image: seq<byte>): Option<seq<DirEntry>> {
    var v := Mount(image);
    if v.None? then None
    else
      var root := ChainBytes(v.value, v.value.root);
      if root.None? then None else ReadEntries(root.value, NoLong)
  }

  /** The first entry is the label `volume`, unless that is blank; nothing else is a label. */
  ghost predicate LabelsAre(es: seq<DirEntry>, volume: seq<byte>) {
    if forall b :: b in volume ==> b == 0x20 then forall e :: e in es ==> e.attr != 0x08
    else es != [] && es[0].attr == 0x08 && es[0].short == volume && forall e :: e in es[1..] ==> e.attr != 0x08
  }

  /** The root directory and the boot sector name the volume alike. */
  lemma LabelTold(p: Plan, l: Fat32Layout, files: seq<FileEntry>, params: Params, upper: string -> string, contents: seq<seq<byte>>, image: seq<byte>)
    requires PlanOf(p, files, params, upper) && IsLayout(l, p) && PlainLabel(params.volume)
    requires FitsFiles(contents, files) && Renders(l.segments, l, contents, image)
    ensures |image| >= 512 && VolumeStart(image) + 82 <= |image|
    ensures RootEntries(image).Some? && LabelsAre(RootEntries(image).value, image[VolumeStart(image) + 71..VolumeStart(image) + 82])
  {
    hide *;
    PlanRoot(p, files, params, upper);
    LayoutPlaces(p, l);
    RootOf(p, l, contents);
    var base := ImageConforms(p, l, contents, image);
    RootCluster(p);
    DirChain(p, l, contents, 0);
    ReadRootBlock(p);
    var es := ReadEntries(DirBlock(p, 0), NoLong).value;
    RootEntriesAre(image, VolumeOf(p, l, contents), DirBlock(p, 0), es);
    NoLabelsIn(p, 0);
    LabelAt(image, base, params, l.fat, 2 + Clusters(Used(p)));
    RootLabels(es, EntriesFrom(p, 0, 0), params.volume);
  }

  lemma RootEntriesAre(image: seq<byte>, v: Volume, block: seq<byte>, es: seq<DirEntry>)
    requires Mount(image) == Some(v) && ChainBytes(v, v.root) == Some(block) && ReadEntries(block, NoLong) == Some(es)
    ensures RootEntries(image) == Some(es)
  {
    hide Mount, ChainBytes, ReadEntries;
  }

  lemma RootOf(p: Plan, l: Fat32Layout, contents: seq<seq<byte>>)
    requires Placeable(p) && FitsFiles(contents, p.files)
    ensures VolumeOf(p, l, contents).root == 2
  {
  }

  lemma PlanRoot(p: Plan, files: seq<FileEntry>, params: Params, upper: string -> string)
    requires PlanOf(p, files, params, upper)
    ensures p.files == files && p.params == params && p.dirs != [] && p.dirs[0].parent == 0 && Readable(p, 0)
  {
    PlanReadable(p, files, params, upper);
    hide Readable, NamedInOrder, AllNamed, Admissible;
  }

  lemma RootLabels(es: seq<DirEntry>, children: seq<DirEntry>, volume: ShortName)
    requires es == (if IsBlank(volume) then [] else [LabelEntry(volume)]) + children && forall e :: e in children ==> e.attr != 0x08
    ensures LabelsAre(es, volume)
  {
    hide ShortUnits;
    assert IsBlank(volume) <==> forall b :: b in volume ==> b == 0x20 by {
      assert forall i :: 0 <= i < 11 ==> volume[i] in volume;
    }
    if !IsBlank(volume) {
      assert es[1..] == children;
    }
  }

  lemma LabelAt(image: seq<byte>, base: nat, params: Params, fat: seq<byte>, n: nat)
    requires base + 32 * 512 <= |image| && ReservedConforms(image, base, params, fat, n)
    ensures image[base + 71..base + 82] == params.volume
  {
    hide InfoConforms, ZeroFrom, Word, DWord;
    assert image[base + 71..base + 82] == SectorAt(image, base, 0)[71..82];
  }

  lemma NoLabelsIn(p: Plan, k: nat)
    requires Placeable(p) && k <= |p.dirs[0].children|
    ensures forall e :: e in EntriesFrom(p, 0, k) ==> e.attr != 0x08
    decreases |p.dirs[0].children| - k
  {
    hide ClusterOf, SizeOf, Used, Counts, ChildPlaceable, Utf16;
    if k < |p.dirs[0].children| {
      NoLabelsIn(p, k + 1);
    }
  }

  /** Behind a file's content, its last cluster is zero. */
  lemma SlackIsZero(p: Plan, l: Fat32Layout, contents: seq<seq<byte>>, i: nat)
    requires IsLayout(l, p) && FitsFiles(contents, p.files) && i < |p.files| && p.files[i].size > 0
    ensures var chain := ChainBytes(VolumeOf(p, l, contents), FileFirst(p, i));
      chain.Some? && |chain.value| < |contents[i]| + p.params.clusterSize && contents[i] <= chain.value
      && ZeroFrom(chain.value, |contents[i]|, |chain.value|)
  {
    hide IsFat, Segments, DataArea, IsPowerOfTwo, Counts, Start, Used, GeometryOf, DirBlocks, Firsts;
    LayoutPlaces(p, l);
    FirstOfFile(p, i);
    FileCountIs(p, i);
    SlackMath(p.files[i].size, p.params.clusterSize);
    ItemChain(p, l, contents, |p.dirs| + i);
    assert Blocks(p, contents)[|p.dirs| + i] == FileBlock(p, contents, i);
  }

  ghost predicate IsFree(fat: seq<byte>, c: nat) {
    4 * c + 4 <= |fat| && FatEntry(fat, c) == 0
  }

  ghost predicate ClusterZero(v: Volume, c: nat) {
    c >= 2 && (c - 1) * v.clusterSize <= |v.data| && ZeroFrom(v.data, (c - 2) * v.clusterSize, (c - 1) * v.clusterSize)
  }

  /** Clusters the table marks free are zero. */
  lemma FreeIsZero(p: Plan, l: Fat32Layout, contents: seq<seq<byte>>, image: seq<byte>, c: nat)
    requires IsLayout(l, p) && FitsFiles(contents, p.files) && Renders(l.segments, l, contents, image)
    requires 2 <= c < 2 + Clusters(Used(p)) && IsFree(l.fat, c)
    ensures Mount(image).Some? && Mount(image).value.fat == l.fat && ClusterZero(Mount(image).value, c)
  {
    var base := ImageConforms(p, l, contents, image);
    hide IsLayout, Placeable, FatEntry, Used, Blocks, Clusters, IsPowerOfTwo, DataArea, FitsFiles, Flat;
    LayoutPlaces(p, l);
    FreeIsTail(p, l);
    DataLength(p, contents);
    UsedBytes(p, contents);
    var cs := p.params.clusterSize;
    SpanMath(c, Used(p), Clusters(Used(p)), cs);
    TailZero(p, contents);
  }

  lemma TailZero(p: Plan, contents: seq<seq<byte>>)
    requires Placeable(p) && FitsFiles(contents, p.files)
    ensures |Flat(Blocks(p, contents))| <= |DataArea(p, contents)|
    ensures ZeroFrom(DataArea(p, contents), |Flat(Blocks(p, contents))|, |DataArea(p, contents)|)
  {
    hide Blocks, Flat, Placeable, Used;
  }

  lemma UsedBytes(p: Plan, contents: seq<seq<byte>>)
    requires Placeable(p) && FitsFiles(contents, p.files)
    ensures |Flat(Blocks(p, contents))| == Used(p) * p.params.clusterSize
  {
    hide Blocks, Counts, Filled, Flat, Total, DirCounts;
    BlocksFilled(p, contents);
    FlatLength(Blocks(p, contents), Counts(p), p.params.clusterSize);
    UsedTotal(p);
  }

  lemma SpanMath(c: nat, used: nat, clusters: nat, cs: nat)
    requires 2 + used <= c < 2 + clusters
    ensures used * cs <= (c - 2) * cs <= (c - 1) * cs <= clusters * cs
  {
  }
}
