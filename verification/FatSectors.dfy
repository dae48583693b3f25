/**
 The literal sectors of an image: boot sector, FSInfo sector and partition table,
 each a 512-byte buffer with fields written into it, and the volume label.
 */
module FatSectors {
  import opened Bytes
  import opened FatNames
  import opened FatEntries
  import opened FatLayout

  /** Bytes written at an offset of a sector. */
  datatype Field = Field(at: nat, bytes: seq<byte>)

  ghost predicate Inside(fields: seq<Field>) {
    forall k :: 0 <= k < |fields| ==> fields[k].at + |fields[k].bytes| <= SECTOR
  }

  /** Fields in offset order, none reaching into the next. */
  ghost predicate Apart(fields: seq<Field>) {
    forall k :: 0 < k < |fields| ==> fields[k - 1].at + |fields[k - 1].bytes| <= fields[k].at
  }

  /** Byte `i` after writing the fields in turn over zeros. */
  function Overlay(fields: seq<Field>, i: nat): byte {
    if fields == [] then 0
    else
      var f := fields[|fields| - 1];
      if f.at <= i < f.at + |f.bytes| then f.bytes[i - f.at] else Overlay(fields[..|fields| - 1], i)
  }

  function Sector(fields: seq<Field>): (r: seq<byte>)
    ensures |r| == SECTOR
  {
    seq(SECTOR, i requires 0 <= i < SECTOR => Overlay(fields, i))
  }

  /** A zeroed sector with the fields copied in, in order. */
  method WriteFields(fields: seq<Field>) returns (r: seq<byte>)
    requires Inside(fields)
    ensures r == Sector(fields)
  {
    var b := new byte[SECTOR](_ => 0);
    for k := 0 to |fields|
      invariant forall i :: 0 <= i < SECTOR ==> b[i] == Overlay(fields[..k], i)
    {
      var f := fields[k];
      assert fields[..k + 1][..k] == fields[..k];
      forall j | 0 <= j < |f.bytes| {
        b[f.at + j] := f.bytes[j];
      }
    }
    assert fields[..|fields|] == fields;
    return b[..];
  }

  lemma {:induction false} ApartFar(fields: seq<Field>, j: nat, k: nat)
    requires Apart(fields) && j < k < |fields|
    ensures fields[j].at + |fields[j].bytes| <= fields[k].at
    decreases k
  {
    if j < k - 1 {
      ApartFar(fields, j, k - 1);
    }
  }

  lemma {:induction false} OverlayAt(fields: seq<Field>, k: nat, i: nat)
    requires Apart(fields) && k < |fields| && fields[k].at <= i < fields[k].at + |fields[k].bytes|
    ensures Overlay(fields, i) == fields[k].bytes[i - fields[k].at]
  {
    if k < |fields| - 1 {
      ApartFar(fields, k, |fields| - 1);
      OverlayAt(fields[..|fields| - 1], k, i);
    }
  }

  lemma {:induction false} OverlayGap(fields: seq<Field>, i: nat)
    requires forall k :: 0 <= k < |fields| ==> !(fields[k].at <= i < fields[k].at + |fields[k].bytes|)
    ensures Overlay(fields, i) == 0
  {
    if fields != [] {
      OverlayGap(fields[..|fields| - 1], i);
    }
  }

  /** Each field reads back where it was written. */
  lemma FieldBack(fields: seq<Field>, k: nat)
    requires Apart(fields) && Inside(fields) && k < |fields|
    ensures Sector(fields)[fields[k].at..fields[k].at + |fields[k].bytes|] == fields[k].bytes
  {
    forall i | fields[k].at <= i < fields[k].at + |fields[k].bytes| ensures Overlay(fields, i) == fields[k].bytes[i - fields[k].at] {
      OverlayAt(fields, k, i);
    }
  }

  lemma WordField(fields: seq<Field>, k: nat, n: nat)
    requires Apart(fields) && Inside(fields) && k < |fields| && n < 0x1_0000 && fields[k].bytes == LittleEndian(n, 2)
    ensures Word(Sector(fields), fields[k].at) == n
  {
    FieldBack(fields, k);
    WordBack(n);
    var s := Sector(fields)[fields[k].at..fields[k].at + 2];
    assert s[0] == Sector(fields)[fields[k].at] && s[1] == Sector(fields)[fields[k].at + 1];
  }

  lemma DWordField(fields: seq<Field>, k: nat, n: nat)
    requires Apart(fields) && Inside(fields) && k < |fields| && n < 0x1_0000_0000 && fields[k].bytes == LittleEndian(n, 4)
    ensures DWord(Sector(fields), fields[k].at) == n
  {
    FieldBack(fields, k);
    DWordBack(n);
    var s := Sector(fields)[fields[k].at..fields[k].at + 4];
    assert s[0] == Sector(fields)[fields[k].at] && s[1] == Sector(fields)[fields[k].at + 1]
        && s[2] == Sector(fields)[fields[k].at + 2] && s[3] == Sector(fields)[fields[k].at + 3];
  }

  // ---- The three sectors ----

  function BootFields(params: Params, total: u32, fatSectors: u32, spc: byte): seq<Field> {
    [Field(0, [0xEB, 0x58, 0x90]),
     Field(3, [0x44, 0x41, 0x54, 0x42, 0x4F, 0x49, 0x20, 0x20]),
     Field(11, LittleEndian(SECTOR, 2)),
     Field(13, [spc]),
     Field(14, LittleEndian(RESERVED_SECTORS, 2)),
     Field(16, [2]),
     Field(21, [0xF8]),
     Field(24, LittleEndian(63, 2)),
     Field(26, LittleEndian(255, 2)),
     Field(28, LittleEndian(if params.partition then PARTITION_LBA else 0, 4)),
     Field(32, LittleEndian(total, 4)),
     Field(36, LittleEndian(fatSectors, 4)),
     Field(44, LittleEndian(2, 4)),
     Field(48, LittleEndian(1, 2)),
     Field(50, LittleEndian(6, 2)),
     Field(64, [0x80]),
     Field(66, [0x29]),
     Field(67, LittleEndian(params.serial, 4)),
     Field(71, params.volume),
     Field(82, [0x46, 0x41, 0x54, 0x33, 0x32, 0x20, 0x20, 0x20]),
     Field(510, [0x55, 0xAA])]
  }

  function BootSector(params: Params, total: u32, fatSectors: u32, spc: byte): (r: seq<byte>)
    ensures |r| == SECTOR
  {
    Sector(BootFields(params, total, fatSectors, spc))
  }

  /** What a reader mounts the volume by (FAT32 File System Specification, "Boot Sector and BPB"). */
  ghost predicate MountsAs(b: seq<byte>, total: nat, fatSectors: nat, spc: nat) {
    && |b| == SECTOR
    && Word(b, 11) == SECTOR && b[13] == spc && Word(b, 14) == RESERVED_SECTORS && b[16] == 2
    && DWord(b, 32) == total && DWord(b, 36) == fatSectors && DWord(b, 44) == 2
    && b[510] == 0x55 && b[511] == 0xAA
    && b[450] == 0
  }

  lemma BootWellFormed(params: Params, total: u32, fatSectors: u32, spc: byte)
    ensures Apart(BootFields(params, total, fatSectors, spc)) && Inside(BootFields(params, total, fatSectors, spc))
  {
    hide LittleEndian;
  }

  lemma BootGeometry(params: Params, total: u32, fatSectors: u32, spc: byte)
    ensures var b := BootSector(params, total, fatSectors, spc);
            Word(b, 11) == SECTOR && b[13] == spc && Word(b, 14) == RESERVED_SECTORS && b[16] == 2
  {
    hide LittleEndian, Overlay, Apart, Inside, Word;
    var fields := BootFields(params, total, fatSectors, spc);
    BootWellFormed(params, total, fatSectors, spc);
    WordField(fields, 2, SECTOR);
    OverlayAt(fields, 3, 13);
    WordField(fields, 4, RESERVED_SECTORS);
    OverlayAt(fields, 5, 16);
  }

  lemma BootSizes(params: Params, total: u32, fatSectors: u32, spc: byte)
    ensures var b := BootSector(params, total, fatSectors, spc);
            DWord(b, 32) == total && DWord(b, 36) == fatSectors && DWord(b, 44) == 2
  {
    hide LittleEndian, Overlay, Apart, Inside, DWord;
    var fields := BootFields(params, total, fatSectors, spc);
    BootWellFormed(params, total, fatSectors, spc);
    DWordField(fields, 10, total);
    DWordField(fields, 11, fatSectors);
    DWordField(fields, 12, 2);
  }

  lemma BootMarks(params: Params, total: u32, fatSectors: u32, spc: byte)
    ensures var b := BootSector(params, total, fatSectors, spc); b[510] == 0x55 && b[511] == 0xAA && b[450] == 0
  {
    hide LittleEndian, Overlay, Apart, Inside;
    var fields := BootFields(params, total, fatSectors, spc);
    BootWellFormed(params, total, fatSectors, spc);
    OverlayAt(fields, 20, 510);
    OverlayAt(fields, 20, 511);
    assert Overlay(fields, 450) == 0 by {
      OverlayGap(fields, 450);
    }
  }

  lemma BootMounts(params: Params, total: u32, fatSectors: u32, spc: byte)
    ensures MountsAs(BootSector(params, total, fatSectors, spc), total, fatSectors, spc)
  {
    hide BootSector, Word, DWord;
    BootGeometry(params, total, fatSectors, spc);
    BootSizes(params, total, fatSectors, spc);
    BootMarks(params, total, fatSectors, spc);
  }

  function InfoFields(free: u32, next: u32): seq<Field> {
    [Field(0, LittleEndian(0x4161_5252, 4)),
     Field(484, LittleEndian(0x6141_7272, 4)),
     Field(488, LittleEndian(free, 4)),
     Field(492, LittleEndian(next, 4)),
     Field(510, [0x55, 0xAA])]
  }

  function InfoSector(free: u32, next: u32): (r: seq<byte>)
    ensures |r| == SECTOR
  {
    Sector(InfoFields(free, next))
  }

  /** The FSInfo sector reads back the free count and the next-free hint. */
  lemma InfoBack(free: u32, next: u32)
    ensures DWord(InfoSector(free, next), 0) == 0x4161_5252 && DWord(InfoSector(free, next), 484) == 0x6141_7272
    ensures DWord(InfoSector(free, next), 488) == free && DWord(InfoSector(free, next), 492) == next
  {
    hide LittleEndian, Overlay;
    var fields := InfoFields(free, next);
    assert Apart(fields) && Inside(fields);
    DWordField(fields, 0, 0x4161_5252);
    DWordField(fields, 1, 0x6141_7272);
    DWordField(fields, 2, free);
    DWordField(fields, 3, next);
  }

  function MbrFields(params: Params, sectors: u32): seq<Field> {
    [Field(0x1B8, LittleEndian(params.signature, 4)),
     Field(0x1BF, [0xFE, 0xFF, 0xFF]),
     Field(0x1C2, [0x0C]),
     Field(0x1C3, [0xFE, 0xFF, 0xFF]),
     Field(0x1C6, LittleEndian(PARTITION_LBA, 4)),
     Field(0x1CA, LittleEndian(sectors, 4)),
     Field(510, [0x55, 0xAA])]
  }

  function MbrSector(params: Params, sectors: u32): (r: seq<byte>)
    ensures |r| == SECTOR
  {
    Sector(MbrFields(params, sectors))
  }

  /** The partition entry names a FAT32 partition where the file system starts. */
  lemma MbrBack(params: Params, sectors: u32)
    ensures MbrSector(params, sectors)[0x1C2] == 0x0C
    ensures DWord(MbrSector(params, sectors), 0x1C6) == PARTITION_LBA && DWord(MbrSector(params, sectors), 0x1CA) == sectors
    ensures MbrSector(params, sectors)[510] == 0x55 && MbrSector(params, sectors)[511] == 0xAA
  {
    hide LittleEndian, Overlay;
    var fields := MbrFields(params, sectors);
    assert Apart(fields) && Inside(fields);
    OverlayAt(fields, 2, 0x1C2);
    DWordField(fields, 4, PARTITION_LBA);
    DWordField(fields, 5, sectors);
    OverlayAt(fields, 6, 510);
    OverlayAt(fields, 6, 511);
  }

  // ---- Volume label ----

  /** Label characters: upper-case letters, digits, dash, underscore, space; the rest become underscores. */
  function LabelByte(c: char): byte {
    if 'a' <= c <= 'z' then c as int - 0x20
    else if 'A' <= c <= 'Z' || '0' <= c <= '9' || c == '-' || c == '_' || c == ' ' then c as int
    else UNDERSCORE
  }

  ghost predicate LabelLegal(volume: ShortName) {
    forall i :: 0 <= i < 11 ==> var b := volume[i]; 0x41 <= b <= 0x5A || 0x30 <= b <= 0x39 || b in {0x2D, 0x5F, 0x20}
  }

  /** `label_for`: the first eleven characters made legal; a default for the empty name only. */
  method LabelFor(name: string) returns (r: ShortName)
    ensures LabelLegal(r)
    ensures name != "" ==> forall i :: 0 <= i < 11 ==> r[i] == if i < |name| then LabelByte(name[i]) else SPACE
    ensures IsBlank(r) <==> name != "" && forall i :: 0 <= i < |name| && i < 11 ==> name[i] == ' '
  {
    var out := new byte[11](_ => SPACE);
    var i := 0;
    while i < |name| && i < 11
      invariant i <= |name| && i <= 11
      invariant forall j :: 0 <= j < 11 ==> out[j] == if j < i then LabelByte(name[j]) else SPACE
    {
      out[i] := LabelByte(name[i]);
      i := i + 1;
    }
    if i == 0 {
      out[0], out[1], out[2], out[3], out[4], out[5] := 0x44, 0x41, 0x54, 0x42, 0x4F, 0x49;
    }
    r := out[..];
    if name == "" {
      assert r[0] != SPACE;
    } else {
      assert forall j :: 0 <= j < |name| && j < 11 ==> (r[j] == SPACE <==> name[j] == ' ');
    }
  }
}
