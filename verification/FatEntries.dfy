/**
 32-byte directory entries, written as fat32.rs writes them and read back by the
 rules of the FAT32 File System Specification (sections "FAT Directory
 Structure" and "FAT Long Directory Entries").
 */
module FatEntries {
  import opened Wrappers
  import opened Bytes
  import opened FatNames

  const ENTRY: nat := 32
  const ATTR_DIRECTORY: byte := 0x10
  const ATTR_ARCHIVE: byte := 0x20
  const ATTR_VOLUME_ID: byte := 0x08
  const ATTR_LONG_NAME: byte := 0x0F
  const LAST_LONG: byte := 0x40
  const FREE: byte := 0xE5
  const FAT_DATE: nat := 0x2821
  const FAT_TIME: nat := 0x0000

  // ---- Short entries ----

  function SfnEntry(short: ShortName, attr: byte, firstCluster: u32, size: u32): (r: seq<byte>)
    ensures |r| == ENTRY
  {
    short + [attr, 0, 0]
    + LittleEndian(FAT_TIME, 2) + LittleEndian(FAT_DATE, 2) + LittleEndian(FAT_DATE, 2)
    + LittleEndian(firstCluster / 0x1_0000, 2)
    + LittleEndian(FAT_TIME, 2) + LittleEndian(FAT_DATE, 2)
    + LittleEndian(firstCluster % 0x1_0000, 2)
    + LittleEndian(size, 4)
  }

  function Word(e: seq<byte>, at: nat): (r: u16)
    requires at + 2 <= |e|
  {
    (e[at] as int) + 256 * (e[at + 1] as int)
  }

  function DWord(e: seq<byte>, at: nat): (r: u32)
    requires at + 4 <= |e|
  {
    (e[at] as int) + 256 * ((e[at + 1] as int) + 256 * ((e[at + 2] as int) + 256 * (e[at + 3] as int)))
  }

  function EntryCluster(e: seq<byte>): (r: u32)
    requires |e| == ENTRY
  {
    Word(e, 20) * 0x1_0000 + Word(e, 26)
  }

  lemma WordBack(n: nat)
    requires n < 0x1_0000
    ensures Word(LittleEndian(n, 2), 0) == n
  {
    assert LittleEndian(n, 2) == [n % 256, n / 256 % 256];
  }

  lemma DWordBack(n: nat)
    requires n < 0x1_0000_0000
    ensures DWord(LittleEndian(n, 4), 0) == n
  {
    assert LittleEndian(n, 4) == [n % 256] + LittleEndian(n / 256, 3);
    assert LittleEndian(n / 256, 3) == [n / 256 % 256] + LittleEndian(n / 256 / 256, 2);
    WordBack(n / 256 / 256);
  }

  lemma SfnEntryBack(short: ShortName, attr: byte, firstCluster: u32, size: u32)
    ensures var e := SfnEntry(short, attr, firstCluster, size);
            && e[..11] == short && e[11] == attr && EntryCluster(e) == firstCluster && DWord(e, 28) == size && IsDated(e)
  {
    SfnDated(short, attr, firstCluster, size);
    hide IsDated;
    var e := SfnEntry(short, attr, firstCluster, size);
    WordBack(firstCluster / 0x1_0000);
    WordBack(firstCluster % 0x1_0000);
    DWordBack(size);
    hide LittleEndian;
    assert |e| == 32 && e[..11] == short && e[11] == attr;
    assert e[20..22] == LittleEndian(firstCluster / 0x1_0000, 2);
    assert e[26..28] == LittleEndian(firstCluster % 0x1_0000, 2);
    assert e[28..32] == LittleEndian(size, 4);
    hide SfnEntry;
    assert Word(e, 20) == Word(e[20..22], 0);
    assert Word(e, 26) == Word(e[26..28], 0);
    assert DWord(e, 28) == DWord(e[28..32], 0);
  }

  lemma SfnDated(short: ShortName, attr: byte, firstCluster: u32, size: u32)
    ensures IsDated(SfnEntry(short, attr, firstCluster, size))
  {
    var e := SfnEntry(short, attr, firstCluster, size);
    WordBack(FAT_TIME);
    WordBack(FAT_DATE);
    hide LittleEndian;
    assert e[12] == 0 && e[13] == 0;
    assert e[14..16] == e[22..24] == LittleEndian(FAT_TIME, 2);
    assert e[16..18] == e[18..20] == e[24..26] == LittleEndian(FAT_DATE, 2);
    hide SfnEntry;
    assert Word(e, 14) == Word(e[14..16], 0) && Word(e, 16) == Word(e[16..18], 0) && Word(e, 18) == Word(e[18..20], 0);
    assert Word(e, 22) == Word(e[22..24], 0) && Word(e, 24) == Word(e[24..26], 0);
  }

  method PushSfn(out: ByteVec, short: ShortName, attr: byte, firstCluster: u32, size: u32)
    modifies out
    ensures out.bytes == old(out.bytes) + SfnEntry(short, attr, firstCluster, size)
  {
    hide LittleEndian;
    out.Extend(short);
    out.Extend([attr, 0, 0]);
    out.Extend(LittleEndian(FAT_TIME, 2));
    out.Extend(LittleEndian(FAT_DATE, 2));
    out.Extend(LittleEndian(FAT_DATE, 2));
    out.Extend(LittleEndian(firstCluster / 0x1_0000, 2));
    out.Extend(LittleEndian(FAT_TIME, 2));
    out.Extend(LittleEndian(FAT_DATE, 2));
    out.Extend(LittleEndian(firstCluster % 0x1_0000, 2));
    out.Extend(LittleEndian(size, 4));
  }

  // ---- Long-name entries ----

  /** The short-name checksum: rotate right, then add, in eight bits. */
  function Checksum(short: seq<byte>): byte {
    if short == [] then 0
    else
      var sum := Checksum(short[..|short| - 1]);
      ((sum % 2) * 0x80 + sum / 2 + short[|short| - 1]) % 0x100
  }

  method SfnChecksum(short: ShortName) returns (sum: byte)
    ensures sum == Checksum(short)
  {
    sum := 0;
    for i := 0 to |short|
      invariant sum == Checksum(short[..i])
    {
      assert short[..i + 1][..i] == short[..i];
      sum := ((sum % 2) * 0x80 + sum / 2 + short[i]) % 0x100;
    }
    assert short[..|short|] == short;
  }

  /** How many long entries a name takes. */
  function LfnCount(units: seq<u16>): nat {
    (|units| + 12) / 13
  }

  /** Slot `i` of long entry `seqNo`: a unit, the terminator right after the name, then padding. */
  function Slot(units: seq<u16>, seqNo: nat, i: nat): u16
    requires seqNo > 0
  {
    var ix := (seqNo - 1) * 13 + i;
    if ix < |units| then units[ix] else if ix == |units| then 0 else 0xFFFF
  }

  function Slots(units: seq<u16>, seqNo: nat): (r: seq<u16>)
    requires seqNo > 0
    ensures |r| == 13
  {
    seq(13, i requires 0 <= i < 13 => Slot(units, seqNo, i))
  }

  function Words(ws: seq<u16>): (r: seq<byte>)
    ensures |r| == 2 * |ws|
  {
    if ws == [] then [] else LittleEndian(ws[0], 2) + Words(ws[1..])
  }

  function LfnEntry(slots: seq<u16>, ord: byte, checksum: byte): (r: seq<byte>)
    requires |slots| == 13
    ensures |r| == ENTRY
  {
    [ord] + Words(slots[..5]) + [ATTR_LONG_NAME, 0, checksum] + Words(slots[5..11]) + [0, 0] + Words(slots[11..])
  }

  /** The ordinal byte: the sequence number, marked on the physically first (logically last) entry. */
  function Ordinal(seqNo: nat, count: nat): byte
    requires 0 < seqNo <= 20
  {
    seqNo + if seqNo == count then LAST_LONG else 0
  }

  /** Long entries `seqNo` down to 1, in the order they stand on disk. */
  function LfnRun(units: seq<u16>, seqNo: nat, checksum: byte): (r: seq<byte>)
    requires seqNo <= LfnCount(units) <= 20
    ensures |r| == seqNo * ENTRY
  {
    if seqNo == 0 then []
    else LfnEntry(Slots(units, seqNo), Ordinal(seqNo, LfnCount(units)), checksum) + LfnRun(units, seqNo - 1, checksum)
  }

  method PushLfn(out: ByteVec, units: seq<u16>, checksum: byte)
    requires LfnCount(units) <= 20
    modifies out
    ensures out.bytes == old(out.bytes) + LfnRun(units, LfnCount(units), checksum)
  {
    hide LfnEntry, Slots, Ordinal, LfnCount;
    var n := LfnCount(units);
    var k := n;
    ghost var whole := LfnRun(units, n, checksum);
    ghost var done := [];
    assert [] + whole == whole;
    while k > 0
      invariant k <= n
      invariant out.bytes == old(out.bytes) + done && whole == done + LfnRun(units, k, checksum)
    {
      var e := LfnEntry(Slots(units, k), Ordinal(k, n), checksum);
      Regrouped(done, e, LfnRun(units, k - 1, checksum));
      Regrouped(old(out.bytes), done, e);
      out.Extend(e);
      done := done + e;
      k := k - 1;
    }
    assert done + [] == done;
  }

  lemma Regrouped(a: seq<byte>, b: seq<byte>, c: seq<byte>)
    ensures a + (b + c) == a + b + c
  {
  }

  /** The 13 slots of a long entry, from their byte positions. */
  function EntryUnits(e: seq<byte>): (r: seq<u16>)
    requires |e| == ENTRY
    ensures |r| == 13
  {
    [Word(e, 1), Word(e, 3), Word(e, 5), Word(e, 7), Word(e, 9),
     Word(e, 14), Word(e, 16), Word(e, 18), Word(e, 20), Word(e, 22), Word(e, 24),
     Word(e, 28), Word(e, 30)]
  }

  lemma {:induction false} WordsBack(ws: seq<u16>, k: nat)
    requires k < |ws|
    ensures Word(Words(ws), 2 * k) == ws[k]
  {
    assert Words(ws)[..2] == LittleEndian(ws[0], 2) && Words(ws)[2..] == Words(ws[1..]);
    if k == 0 {
      WordBack(ws[0]);
    } else {
      WordsBack(ws[1..], k - 1);
    }
  }

  /** Units written behind one another read back one by one. */
  lemma WordsAt(e: seq<byte>, at: nat, ws: seq<u16>)
    requires at + 2 * |ws| <= |e| && e[at..at + 2 * |ws|] == Words(ws)
    ensures forall k :: 0 <= k < |ws| ==> Word(e, at + 2 * k) == ws[k]
  {
    hide Words;
    forall k | 0 <= k < |ws| ensures Word(e, at + 2 * k) == ws[k] {
      WordsBack(ws, k);
      assert Word(e, at + 2 * k) == Word(e[at..at + 2 * |ws|], 2 * k);
    }
  }

  lemma LfnParts(slots: seq<u16>, ord: byte, checksum: byte)
    requires |slots| == 13
    ensures var e := LfnEntry(slots, ord, checksum);
            && e[0] == ord && e[11] == 0x0F && e[12] == 0 && e[13] == checksum && e[26] == 0 && e[27] == 0
            && e[1..11] == Words(slots[..5]) && e[14..26] == Words(slots[5..11]) && e[28..32] == Words(slots[11..])
  {
    hide Words;
    var e := LfnEntry(slots, ord, checksum);
    var head := [ord] + Words(slots[..5]) + [ATTR_LONG_NAME, 0, checksum];
    assert |head| == 14 && head[1..11] == Words(slots[..5]);
    assert e == head + Words(slots[5..11]) + [0, 0] + Words(slots[11..]);
  }

  lemma NoWord(e: seq<byte>, at: nat)
    requires at + 2 <= |e| && e[at] == 0 && e[at + 1] == 0
    ensures Word(e, at) == 0
  {
  }

  lemma LfnEntryBack(slots: seq<u16>, ord: byte, checksum: byte)
    requires |slots| == 13
    ensures var e := LfnEntry(slots, ord, checksum);
            e[0] == ord && e[11] == 0x0F && e[12] == 0 && e[13] == checksum && Word(e, 26) == 0 && EntryUnits(e) == slots
  {
    hide LfnEntry, Words, Word;
    var e := LfnEntry(slots, ord, checksum);
    LfnParts(slots, ord, checksum);
    assert Word(e, 26) == 0 by {
      NoWord(e, 26);
    }
    WordsAt(e, 1, slots[..5]);
    WordsAt(e, 14, slots[5..11]);
    WordsAt(e, 28, slots[11..]);
    assert Word(e, 1 + 2 * 0) == slots[0] && Word(e, 1 + 2 * 1) == slots[1] && Word(e, 1 + 2 * 2) == slots[2]
        && Word(e, 1 + 2 * 3) == slots[3] && Word(e, 1 + 2 * 4) == slots[4];
    assert Word(e, 14 + 2 * 0) == slots[5] && Word(e, 14 + 2 * 1) == slots[6] && Word(e, 14 + 2 * 2) == slots[7]
        && Word(e, 14 + 2 * 3) == slots[8] && Word(e, 14 + 2 * 4) == slots[9] && Word(e, 14 + 2 * 5) == slots[10];
    assert Word(e, 28 + 2 * 0) == slots[11] && Word(e, 28 + 2 * 1) == slots[12];
  }

  // ---- Reading a directory ----

  datatype DirEntry = DirEntry(name: seq<u16>, short: ShortName, attr: byte, cluster: u32, size: u32)

  /** The long-name entries collected so far: last sequence number seen, units from there on. */
  datatype Pending = NoLong | Long(seqNo: nat, units: seq<u16>, checksum: byte)

  function UpToNul(units: seq<u16>): seq<u16> {
    if units == [] || units[0] == 0 then [] else [units[0]] + UpToNul(units[1..])
  }

  /** One long entry continues the set: last-marked first, then counting down with the same checksum. */
  function Collect(pending: Pending, e: seq<byte>): Option<Pending>
    requires |e| == 32
  {
    var seqNo := e[0] % 0x40;
    if seqNo == 0 || e[12] != 0 || Word(e, 26) != 0 then None
    else if e[0] / 0x40 % 2 == 1 then
      if pending.NoLong? then Some(Long(seqNo, EntryUnits(e), e[13])) else None
    else if pending.Long? && pending.seqNo == seqNo + 1 && pending.checksum == e[13] then
      Some(Long(seqNo, EntryUnits(e) + pending.units, e[13]))
    else None
  }

  /** Behind the name stand a terminator, if there is room, and padding. */
  predicate Padded(units: seq<u16>) {
    var n := |UpToNul(units)|;
    forall i :: n <= i < |units| ==> units[i] == if i == n then 0 else 0xFFFF
  }

  /** Made, last read and last written at midnight of 1 January 2000, the reserved bytes zero. */
  predicate IsDated(e: seq<byte>)
    requires |e| == 32
  {
    var day := (2000 - 1980) * 512 + 1 * 32 + 1;
    e[12] == 0 && e[13] == 0 && Word(e, 14) == 0 && Word(e, 16) == day && Word(e, 18) == day && Word(e, 22) == 0 && Word(e, 24) == day
  }

  /** The name a short entry carries: its own, or a complete long name with a matching checksum. */
  function NameOf(pending: Pending, short: ShortName): Option<seq<u16>> {
    match pending
    case NoLong => Some(ShortUnits(short))
    case Long(seqNo, units, checksum) =>
      if seqNo == 1 && checksum == Checksum(short) && Padded(units) then Some(UpToNul(units)) else None
  }

  /** All entries up to the end marker; nothing when a long-name set is malformed or an entry not dated as it should be. */
  function ReadEntries(buf: seq<byte>, pending: Pending): Option<seq<DirEntry>>
    decreases |buf|
  {
    if |buf| < 32 || buf[0] == 0 then
      if pending.NoLong? then Some([]) else None
    else
      var e, rest := buf[..32], buf[32..];
      if e[0] == 0xE5 then
        if pending.NoLong? then ReadEntries(rest, NoLong) else None
      else if e[11] == 0x0F then
        var next := Collect(pending, e);
        if next.None? then None else ReadEntries(rest, next.value)
      else
        var name := NameOf(pending, e[..11]);
        if name.None? || !IsDated(e) then None
        else
          var more := ReadEntries(rest, NoLong);
          if more.None? then None
          else Some([DirEntry(name.value, e[..11], e[11], EntryCluster(e), DWord(e, 28))] + more.value)
  }

  /** The slots of long entries `k + 1` to `n`, in name order. */
  function Spread(units: seq<u16>, k: nat, n: nat): (r: seq<u16>)
    requires k <= n
    ensures |r| == 13 * (n - k)
    decreases n - k
  {
    if k == n then [] else Slots(units, k + 1) + Spread(units, k + 1, n)
  }

  lemma {:induction false} SpreadAt(units: seq<u16>, k: nat, n: nat, i: nat)
    requires k <= n && i < 13 * (n - k)
    ensures Spread(units, k, n)[i] == if 13 * k + i < |units| then units[13 * k + i] else if 13 * k + i == |units| then 0 else 0xFFFF
    decreases n - k
  {
    if i >= 13 {
      SpreadAt(units, k + 1, n, i - 13);
    }
  }

  lemma {:induction false} UpToNulOf(s: seq<u16>, n: nat)
    requires n <= |s| && (n < |s| ==> s[n] == 0) && forall i :: 0 <= i < n ==> s[i] != 0
    ensures UpToNul(s) == s[..n]
    decreases n
  {
    if n > 0 {
      UpToNulOf(s[1..], n - 1);
      assert s[..n] == [s[0]] + s[1..][..n - 1];
    }
  }

  /** Cutting the collected slots at the terminator gives the name back. */
  lemma SpreadIsName(units: seq<u16>)
    requires forall u :: u in units ==> u != 0
    ensures UpToNul(Spread(units, 0, LfnCount(units))) == units && Padded(Spread(units, 0, LfnCount(units)))
  {
    var n := LfnCount(units);
    var s := Spread(units, 0, n);
    forall i | 0 <= i < |units| ensures s[i] == units[i] != 0 {
      SpreadAt(units, 0, n, i);
      assert units[i] in units;
    }
    if |units| < |s| {
      SpreadAt(units, 0, n, |units|);
    }
    UpToNulOf(s, |units|);
    assert s[..|units|] == units;
    forall i | |units| <= i < |s| ensures s[i] == if i == |units| then 0 else 0xFFFF {
      SpreadAt(units, 0, n, i);
    }
  }

  /** One emitted long entry is collected. */
  lemma CollectLfn(pending: Pending, units: seq<u16>, k: nat, checksum: byte)
    requires 0 < k <= LfnCount(units) <= 20
    requires if k == LfnCount(units) then pending.NoLong? else pending == Long(k + 1, Spread(units, k, LfnCount(units)), checksum)
    ensures Collect(pending, LfnEntry(Slots(units, k), Ordinal(k, LfnCount(units)), checksum))
         == Some(Long(k, Spread(units, k - 1, LfnCount(units)), checksum))
  {
    var n := LfnCount(units);
    LfnEntryBack(Slots(units, k), Ordinal(k, n), checksum);
    OrdinalBack(k, n);
    SpreadStep(units, k, n);
    hide LfnEntry, Slots, EntryUnits, Spread, Ordinal, LfnCount;
  }

  lemma OrdinalBack(k: nat, n: nat)
    requires 0 < k <= 20
    ensures Ordinal(k, n) % 0x40 == k && (Ordinal(k, n) / 0x40 % 2 == 1 <==> k == n)
  {
  }

  lemma SpreadStep(units: seq<u16>, k: nat, n: nat)
    requires 0 < k <= n
    ensures Spread(units, k - 1, n) == Slots(units, k) + Spread(units, k, n)
    ensures k == n ==> Spread(units, k - 1, n) == Slots(units, k)
  {
  }

  /** A collected long entry is consumed; reading goes on with what it adds. */
  lemma ReadLong(e: seq<byte>, more: seq<byte>, pending: Pending, next: Pending)
    requires |e| == ENTRY && e[0] != 0 && e[0] != FREE && e[11] == ATTR_LONG_NAME && Collect(pending, e) == Some(next)
    ensures ReadEntries(e + more, pending) == ReadEntries(more, next)
  {
    var buf := e + more;
    assert buf[..ENTRY] == e && buf[ENTRY..] == more;
    hide Collect;
  }

  /** Reading past the remaining long entries of a name. */
  lemma {:induction false} ReadLfnRun(pending: Pending, units: seq<u16>, k: nat, checksum: byte, rest: seq<byte>)
    requires k <= LfnCount(units) <= 20
    requires if k == LfnCount(units) then pending.NoLong? else pending == Long(k + 1, Spread(units, k, LfnCount(units)), checksum)
    requires LfnCount(units) > 0
    ensures ReadEntries(LfnRun(units, k, checksum) + rest, pending)
         == ReadEntries(rest, Long(1, Spread(units, 0, LfnCount(units)), checksum))
    decreases k
  {
    hide ReadEntries, LfnEntry, EntryUnits, Spread, Slots, Collect;
    var n := LfnCount(units);
    if k == 0 {
      assert LfnRun(units, 0, checksum) + rest == rest;
    } else {
      var e := LfnEntry(Slots(units, k), Ordinal(k, n), checksum);
      var more := LfnRun(units, k - 1, checksum) + rest;
      assert LfnRun(units, k, checksum) + rest == e + more;
      CollectLfn(pending, units, k, checksum);
      LfnEntryBack(Slots(units, k), Ordinal(k, n), checksum);
      ReadLong(e, more, pending, Long(k, Spread(units, k - 1, n), checksum));
      ReadLfnRun(Long(k, Spread(units, k - 1, n), checksum), units, k - 1, checksum, rest);
    }
  }

  // ---- One child, written and read back ----

  /** A directory child as it is written: long entries if needed, then the short entry. */
  function ChildBytes(units: seq<u16>, short: ShortName, needsLfn: bool, attr: byte, cluster: u32, size: u32): seq<byte>
    requires LfnCount(units) <= 20
  {
    (if needsLfn then LfnRun(units, LfnCount(units), Checksum(short)) else []) + SfnEntry(short, attr, cluster, size)
  }

  lemma ReadSfn(pending: Pending, short: ShortName, attr: byte, cluster: u32, size: u32, name: seq<u16>, rest: seq<byte>)
    requires short[0] != 0 && short[0] != FREE && attr != ATTR_LONG_NAME && NameOf(pending, short) == Some(name)
    ensures ReadEntries(SfnEntry(short, attr, cluster, size) + rest, pending) ==
              var more := ReadEntries(rest, NoLong);
              if more.None? then None else Some([DirEntry(name, short, attr, cluster, size)] + more.value)
  {
    var e := SfnEntry(short, attr, cluster, size);
    SfnEntryBack(short, attr, cluster, size);
    var buf := e + rest;
    assert buf[..ENTRY] == e && buf[ENTRY..] == rest && e[0] == short[0];
  }

  /** Reading a written child gives its long name, attributes, cluster and size back. */
  lemma ReadChild(units: seq<u16>, short: ShortName, needsLfn: bool, attr: byte, cluster: u32, size: u32, rest: seq<byte>)
    requires units != [] && LfnCount(units) <= 20 && forall u :: u in units ==> u != 0
    requires short[0] != 0 && short[0] != FREE && attr != ATTR_LONG_NAME
    requires !needsLfn ==> ShortUnits(short) == units
    ensures ReadEntries(ChildBytes(units, short, needsLfn, attr, cluster, size) + rest, NoLong) ==
              var more := ReadEntries(rest, NoLong);
              if more.None? then None else Some([DirEntry(units, short, attr, cluster, size)] + more.value)
  {
    var e := SfnEntry(short, attr, cluster, size);
    if needsLfn {
      var n := LfnCount(units);
      var run := LfnRun(units, n, Checksum(short));
      assert ChildBytes(units, short, needsLfn, attr, cluster, size) + rest == run + (e + rest);
      ReadLfnRun(NoLong, units, n, Checksum(short), e + rest);
      SpreadIsName(units);
      ReadSfn(Long(1, Spread(units, 0, n), Checksum(short)), short, attr, cluster, size, units, rest);
    } else {
      assert ChildBytes(units, short, needsLfn, attr, cluster, size) + rest == e + rest;
      ReadSfn(NoLong, short, attr, cluster, size, units, rest);
    }
  }
}
