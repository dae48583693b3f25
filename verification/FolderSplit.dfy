/**
 The 7z member splitter (glue.c `split_*`): a folder's unpacked stream arrives in
 arbitrary pieces and each requested member's bytes go to its own sink.
 */
module FolderSplit {
  import opened Bytes
  import opened Wrappers

  // ---- Running CRC ----

  const CRC_INIT: bv32 := 0xFFFF_FFFF
  const CRC_POLY: bv32 := 0xEDB8_8320

  function CrcBits(c: bv32, n: nat): bv32
    decreases n
  {
    if n == 0 then c else CrcBits(if c & 1 == 1 then (c >> 1) ^ CRC_POLY else c >> 1, n - 1)
  }

  function CrcByte(c: bv32, b: byte): bv32 {
    CrcBits(c ^ (b as bv32), 8)
  }

  function CrcUpdate(c: bv32, s: seq<byte>): bv32 {
    if s == [] then c else CrcByte(CrcUpdate(c, s[..|s| - 1]), s[|s| - 1])
  }

  function Digest(c: bv32): bv32 {
    c ^ 0xFFFF_FFFF
  }

  function Crc(s: seq<byte>): bv32 {
    Digest(CrcUpdate(CRC_INIT, s))
  }

  /** The running value does not depend on how the bytes arrive. */
  lemma {:induction false} CrcAppend(c: bv32, a: seq<byte>, b: seq<byte>)
    ensures CrcUpdate(c, a + b) == CrcUpdate(CrcUpdate(c, a), b)
  {
    hide CrcByte;
    if b == [] {
      assert a + b == a;
    } else {
      var n := |b| - 1;
      assert (a + b)[..|a + b| - 1] == a + b[..n];
      CrcAppend(c, a, b[..n]);
    }
  }

  // ---- The archive's tables ----

  /** `positions[f]` is where file `f` starts in the concatenation of all unpacked folders. */
  datatype Db = Db(
    positions: seq<nat>, crcs: seq<Option<bv32>>, isDir: seq<bool>,
    fileToFolder: seq<Option<nat>>, folderToFile: seq<nat>, folderCrcs: seq<Option<bv32>>)

  function NumFiles(db: Db): nat {
    |db.crcs|
  }

  ghost predicate Ordered(db: Db) {
    |db.positions| == NumFiles(db) + 1 && forall i, j :: 0 <= i <= j < |db.positions| ==> db.positions[i] <= db.positions[j]
  }

  // ---- One folder's files ----

  /** The files of one folder and what is asked of them: file indices, ascending, with parallel sink slots. */
  datatype Job = Job(db: Db, first: nat, end: nat, wf: seq<nat>, ws: seq<nat>)

  ghost predicate JobOk(j: Job) {
    && Ordered(j.db) && j.first < j.end <= NumFiles(j.db) && |j.wf| == |j.ws|
    && forall a, b :: 0 <= a < b < |j.wf| ==> j.wf[a] < j.wf[b]
  }

  /** Where file `f` starts in the folder's own stream. */
  function Pos(j: Job, f: nat): nat
    requires JobOk(j) && j.first <= f <= j.end
  {
    j.db.positions[f] - j.db.positions[j.first]
  }

  lemma PosOrder(j: Job, a: nat, b: nat)
    requires JobOk(j) && j.first <= a <= b <= j.end
    ensures Pos(j, a) <= Pos(j, b)
  {
  }

  /** A file's own bytes of the folder stream. */
  function Member(j: Job, f: nat, s: seq<byte>): seq<byte>
    requires JobOk(j) && j.first <= f < j.end && Pos(j, f + 1) <= |s|
  {
    PosOrder(j, f, f + 1);
    s[Pos(j, f)..Pos(j, f + 1)]
  }

  predicate CrcFits(expected: Option<bv32>, s: seq<byte>) {
    expected.Some? ==> Crc(s) == expected.value
  }

  ghost predicate InFolder(j: Job, f: nat) {
    j.first <= f < j.end
  }

  /** The streams a job succeeds on: the right length, every request in the folder with its checksum, the folder's checksum. */
  ghost predicate Accepts(j: Job, folderCrc: Option<bv32>, s: seq<byte>)
    requires JobOk(j)
  {
    && |s| == Pos(j, j.end)
    && (forall k :: 0 <= k < |j.wf| ==> InFolder(j, j.wf[k]))
    && (forall k :: 0 <= k < |j.wf| ==> MemberFits(j, j.wf[k], s))
    && CrcFits(folderCrc, s)
  }

  ghost predicate MemberFits(j: Job, f: nat, s: seq<byte>)
    requires JobOk(j)
  {
    InFolder(j, f) && Pos(j, f + 1) <= |s| ==> CrcFits(j.db.crcs[f], Member(j, f, s))
  }

  /** The first `k` requests lie in the folder and `s` reaches past them. */
  ghost predicate Passed(j: Job, k: nat, s: seq<byte>)
    requires JobOk(j)
  {
    k <= |j.wf| && forall i :: 0 <= i < k ==> j.first <= j.wf[i] < j.end && Pos(j, j.wf[i] + 1) <= |s|
  }

  /** What slot `slot` gets from the first `k` requests, in file order. */
  function Served(j: Job, k: nat, slot: nat, s: seq<byte>): seq<byte>
    requires JobOk(j) && Passed(j, k, s)
  {
    if k == 0 then []
    else if j.ws[k - 1] == slot then Served(j, k - 1, slot, s) + Member(j, j.wf[k - 1], s)
    else Served(j, k - 1, slot, s)
  }

  /** Bytes already seen stay what they are. */
  lemma {:induction false} ServedGrows(j: Job, k: nat, slot: nat, s: seq<byte>, more: seq<byte>)
    requires JobOk(j) && Passed(j, k, s)
    ensures Served(j, k, slot, s + more) == Served(j, k, slot, s)
  {
    if k > 0 {
      ServedGrows(j, k - 1, slot, s, more);
      MemberGrows(j, j.wf[k - 1], s, more);
    }
  }

  lemma MemberGrows(j: Job, f: nat, s: seq<byte>, more: seq<byte>)
    requires JobOk(j) && InFolder(j, f) && Pos(j, f + 1) <= |s|
    ensures Member(j, f, s + more) == Member(j, f, s)
  {
    PosOrder(j, f, f + 1);
  }

  /** No stream that starts with `s` can succeed. */
  ghost predicate Hopeless(j: Job, s: seq<byte>)
    requires JobOk(j)
  {
    |s| > Pos(j, j.end) || exists k :: 0 <= k < |j.wf| && !MemberFits(j, j.wf[k], s)
  }

  lemma HopelessStays(j: Job, folderCrc: Option<bv32>, s: seq<byte>, more: seq<byte>)
    requires JobOk(j) && Hopeless(j, s)
    ensures Hopeless(j, s + more) && !Accepts(j, folderCrc, s + more)
  {
    if |s| <= Pos(j, j.end) {
      var k :| 0 <= k < |j.wf| && !MemberFits(j, j.wf[k], s);
      MemberGrows(j, j.wf[k], s, more);
      assert !MemberFits(j, j.wf[k], s + more);
    }
  }

  const SZ_OK: int := 0
  const SZ_ERROR_DATA: int := 1
  const SZ_ERROR_CRC: int := 3
  const EX7Z_ERR_MEMBER_CRC: int := 100
  const EX7Z_ERR_RANGE: int := 101

  function SinkOf(sinks: map<nat, seq<byte>>, slot: nat): seq<byte> {
    if slot in sinks then sinks[slot] else []
  }

  // ---- The splitter's state after some bytes ----

  /** Requests before `wc` are done; the next one, if it is in the folder at all, is still ahead. */
  ghost predicate Cursor(j: Job, fed: seq<byte>, file: nat, wc: nat)
    requires JobOk(j)
  {
    && Passed(j, wc, fed) && (forall i :: 0 <= i < wc ==> j.wf[i] < file)
    && (wc < |j.wf| ==> j.wf[wc] >= file || j.wf[wc] < j.first)
    && forall i :: 0 <= i < wc ==> MemberFits(j, j.wf[i], fed)
  }

  /** The sinks hold what is served so far, plus `extra` for the open request. */
  ghost predicate Filled(j: Job, fed: seq<byte>, wc: nat, base: map<nat, seq<byte>>, sinks: map<nat, seq<byte>>, slot: nat, extra: seq<byte>)
    requires JobOk(j) && Passed(j, wc, fed)
  {
    forall s :: SinkOf(sinks, s) == SinkOf(base, s) + Served(j, wc, s, fed) + if s == slot then extra else []
  }

  /** Between files: `file` would start at the next byte. */
  ghost predicate AtEdge(j: Job, fed: seq<byte>, base: map<nat, seq<byte>>, file: nat, wc: nat, sinks: map<nat, seq<byte>>) {
    && JobOk(j) && j.first <= file <= j.end && |fed| == Pos(j, file)
    && Cursor(j, fed, file, wc) && Filled(j, fed, wc, base, sinks, 0, [])
  }

  /** Inside file `file`, `remain` bytes before its end. */
  ghost predicate Open(j: Job, fed: seq<byte>, base: map<nat, seq<byte>>, file: nat, remain: nat, wc: nat, wanted: bool, slot: nat, crc: bv32,
                       sinks: map<nat, seq<byte>>)
  {
    && JobOk(j) && j.first <= file < j.end && Pos(j, file) <= |fed| && |fed| + remain == Pos(j, file + 1)
    && Cursor(j, fed, file, wc)
    && (wanted <==> wc < |j.wf| && j.wf[wc] == file)
    && (wanted ==> slot == j.ws[wc] && crc == CrcUpdate(CRC_INIT, fed[Pos(j, file)..]))
    && Filled(j, fed, wc, base, sinks, slot, if wanted then fed[Pos(j, file)..] else [])
  }

  lemma OpenFromEdge(j: Job, fed: seq<byte>, base: map<nat, seq<byte>>, file: nat, wc: nat, slot: nat, crc: bv32, sinks: map<nat, seq<byte>>)
    requires AtEdge(j, fed, base, file, wc, sinks) && file < j.end
    requires wc < |j.wf| && j.wf[wc] == file ==> slot == j.ws[wc] && crc == CRC_INIT
    ensures Pos(j, file) <= Pos(j, file + 1)
    ensures Open(j, fed, base, file, Pos(j, file + 1) - Pos(j, file), wc, wc < |j.wf| && j.wf[wc] == file, slot, crc, sinks)
  {
    hide Served, MemberFits, CrcUpdate;
    PosOrder(j, file, file + 1);
    assert fed[Pos(j, file)..] == [];
    assert CrcUpdate(CRC_INIT, []) == CRC_INIT by {
      CrcOfNothing();
    }
  }

  lemma CrcOfNothing()
    ensures CrcUpdate(CRC_INIT, []) == CRC_INIT
  {
  }

  /** The open request at its end: its bytes are its own range, complete. */
  lemma ClosedMember(j: Job, fed: seq<byte>, file: nat)
    requires JobOk(j) && j.first <= file < j.end && |fed| == Pos(j, file + 1)
    ensures Pos(j, file) <= |fed| && Member(j, file, fed) == fed[Pos(j, file)..]
  {
    PosOrder(j, file, file + 1);
  }

  lemma CloseKeeps(j: Job, fed: seq<byte>, base: map<nat, seq<byte>>, file: nat, wc: nat, wanted: bool, slot: nat, crc: bv32, sinks: map<nat, seq<byte>>)
    requires Open(j, fed, base, file, 0, wc, wanted, slot, crc, sinks)
    requires wanted && j.db.crcs[file].Some? ==> Digest(crc) == j.db.crcs[file].value
    ensures AtEdge(j, fed, base, file + 1, if wanted then wc + 1 else wc, sinks)
  {
    hide CrcUpdate, Digest, Served, Filled, MemberFits, JobOk, Passed;
    if wanted {
      ServeClosed(j, fed, base, file, wc, slot, crc, sinks);
    } else {
      NoExtra(j, fed, wc, base, sinks, slot);
    }
  }

  lemma NoExtra(j: Job, fed: seq<byte>, wc: nat, base: map<nat, seq<byte>>, sinks: map<nat, seq<byte>>, slot: nat)
    requires JobOk(j) && Passed(j, wc, fed) && Filled(j, fed, wc, base, sinks, slot, [])
    ensures Filled(j, fed, wc, base, sinks, 0, [])
  {
    hide Served;
  }

  /** The request just closed: its checksum fits and its sink holds it in full. */
  lemma ServeClosed(j: Job, fed: seq<byte>, base: map<nat, seq<byte>>, file: nat, wc: nat, slot: nat, crc: bv32, sinks: map<nat, seq<byte>>)
    requires Open(j, fed, base, file, 0, wc, true, slot, crc, sinks)
    requires j.db.crcs[file].Some? ==> Digest(crc) == j.db.crcs[file].value
    ensures Cursor(j, fed, file + 1, wc + 1) && Filled(j, fed, wc + 1, base, sinks, 0, [])
  {
    hide CrcUpdate, Digest;
    ClosedMember(j, fed, file);
    assert MemberFits(j, file, fed) by {
      CrcIs(fed[Pos(j, file)..]);
    }
    assert Passed(j, wc + 1, fed);
    hide MemberFits, Passed, JobOk;
    ServeOne(j, fed, base, wc, slot, fed[Pos(j, file)..], sinks);
  }

  lemma ServeOne(j: Job, fed: seq<byte>, base: map<nat, seq<byte>>, wc: nat, slot: nat, extra: seq<byte>, sinks: map<nat, seq<byte>>)
    requires JobOk(j) && Passed(j, wc, fed) && Passed(j, wc + 1, fed) && Filled(j, fed, wc, base, sinks, slot, extra)
    requires j.ws[wc] == slot && Member(j, j.wf[wc], fed) == extra
    ensures Filled(j, fed, wc + 1, base, sinks, 0, [])
  {
    hide Served, Member, Passed, JobOk;
    forall s ensures SinkOf(sinks, s) == SinkOf(base, s) + Served(j, wc + 1, s, fed) + if s == 0 then [] else [] {
      var more := if s == slot then extra else [];
      ServedOne(j, wc, s, fed);
      Joined(SinkOf(base, s), Served(j, wc, s, fed), more);
      assert SinkOf(sinks, s) == SinkOf(base, s) + Served(j, wc, s, fed) + more;
    }
  }

  /** One more request adds its member to its own slot. */
  lemma ServedOne(j: Job, k: nat, slot: nat, s: seq<byte>)
    requires JobOk(j) && Passed(j, k, s) && Passed(j, k + 1, s)
    ensures k < |j.wf| == |j.ws| && InFolder(j, j.wf[k]) && Pos(j, j.wf[k] + 1) <= |s|
    ensures Served(j, k + 1, slot, s) == Served(j, k, slot, s) + if j.ws[k] == slot then Member(j, j.wf[k], s) else []
  {
  }

  lemma Joined(a: seq<byte>, b: seq<byte>, c: seq<byte>)
    ensures a + b + c == a + (b + c) && a + b + c + [] == a + (b + c) + []
  {
  }

  lemma CrcIs(s: seq<byte>)
    ensures Crc(s) == Digest(CrcUpdate(CRC_INIT, s))
  {
  }

  lemma CloseHopeless(j: Job, fed: seq<byte>, base: map<nat, seq<byte>>, file: nat, wc: nat, slot: nat, crc: bv32, sinks: map<nat, seq<byte>>)
    requires Open(j, fed, base, file, 0, wc, true, slot, crc, sinks)
    requires j.db.crcs[file].Some? && Digest(crc) != j.db.crcs[file].value
    ensures Hopeless(j, fed)
  {
    hide CrcUpdate, Digest;
    ClosedMember(j, fed, file);
    CrcIs(fed[Pos(j, file)..]);
    assert !MemberFits(j, j.wf[wc], fed);
  }

  lemma CursorGrows(j: Job, fed: seq<byte>, file: nat, wc: nat, more: seq<byte>)
    requires JobOk(j) && Cursor(j, fed, file, wc)
    ensures Cursor(j, fed + more, file, wc)
  {
    hide CrcFits;
    forall i | 0 <= i < wc ensures MemberFits(j, j.wf[i], fed + more) {
      assert MemberFits(j, j.wf[i], fed);
      MemberGrows(j, j.wf[i], fed, more);
    }
  }

  /** Bytes of the open file: they go to its sink if it is wanted. */
  lemma TakeKeeps(j: Job, fed: seq<byte>, base: map<nat, seq<byte>>, file: nat, remain: nat, wc: nat, wanted: bool, slot: nat, crc: bv32,
                  sinks: map<nat, seq<byte>>, chunk: seq<byte>)
    requires Open(j, fed, base, file, remain, wc, wanted, slot, crc, sinks) && |chunk| <= remain
    ensures Open(j, fed + chunk, base, file, remain - |chunk|, wc, wanted, slot, if wanted then CrcUpdate(crc, chunk) else crc,
                 if wanted then sinks[slot := SinkOf(sinks, slot) + chunk] else sinks)
  {
    hide CrcUpdate, MemberFits, Served, Filled, Cursor;
    CursorGrows(j, fed, file, wc, chunk);
    CursorPassed(j, fed, file, wc);
    CursorPassed(j, fed + chunk, file, wc);
    var from := fed[Pos(j, file)..];
    assert (fed + chunk)[Pos(j, file)..] == from + chunk;
    CrcAppend(CRC_INIT, from, chunk);
    TakeFills(j, fed, wc, base, sinks, slot, if wanted then from else [], chunk, if wanted then chunk else []);
    if !wanted {
      SameSinks(j, fed + chunk, wc, base, sinks, sinks[slot := SinkOf(sinks, slot) + []], slot);
    }
  }

  lemma CursorPassed(j: Job, fed: seq<byte>, file: nat, wc: nat)
    requires JobOk(j) && Cursor(j, fed, file, wc)
    ensures Passed(j, wc, fed)
  {
  }

  lemma PassedGrows(j: Job, k: nat, s: seq<byte>, more: seq<byte>)
    requires JobOk(j) && Passed(j, k, s)
    ensures Passed(j, k, s + more)
  {
  }

  lemma TakeFills(j: Job, fed: seq<byte>, wc: nat, base: map<nat, seq<byte>>, sinks: map<nat, seq<byte>>, slot: nat,
                  extra: seq<byte>, chunk: seq<byte>, written: seq<byte>)
    requires JobOk(j) && Passed(j, wc, fed) && Filled(j, fed, wc, base, sinks, slot, extra)
    ensures Passed(j, wc, fed + chunk)
    ensures Filled(j, fed + chunk, wc, base, sinks[slot := SinkOf(sinks, slot) + written], slot, extra + written)
  {
    PassedGrows(j, wc, fed, chunk);
    hide Served, Passed, JobOk;
    var after := sinks[slot := SinkOf(sinks, slot) + written];
    forall s ensures SinkOf(after, s) == SinkOf(base, s) + Served(j, wc, s, fed + chunk) + if s == slot then extra + written else [] {
      ServedGrows(j, wc, s, fed, chunk);
      assert SinkOf(sinks, s) == SinkOf(base, s) + Served(j, wc, s, fed) + if s == slot then extra else [];
      if s == slot {
        Joined(SinkOf(base, s) + Served(j, wc, s, fed), extra, written);
      }
    }
  }

  lemma SameSinks(j: Job, fed: seq<byte>, wc: nat, base: map<nat, seq<byte>>, a: map<nat, seq<byte>>, b: map<nat, seq<byte>>, slot: nat)
    requires JobOk(j) && Passed(j, wc, fed) && b == a[slot := SinkOf(a, slot) + []] && Filled(j, fed, wc, base, b, slot, [] + [])
    ensures Filled(j, fed, wc, base, a, slot, [])
  {
    forall s ensures SinkOf(a, s) == SinkOf(b, s) {
    }
  }

  class Split {
    const job: Job
    var file: nat
    var remain: nat
    var wc: nat
    var curWanted: bool
    var curSlot: nat
    var crc: bv32
    var folderCrc: bv32
    var sinks: map<nat, seq<byte>>

    ghost predicate Reading(fed: seq<byte>, base: map<nat, seq<byte>>)
      reads this
    {
      Open(job, fed, base, file, remain, wc, curWanted, curSlot, crc, sinks)
    }

    /** The state after the bytes `fed`, with the sinks starting from `base`. */
    ghost predicate Valid(fed: seq<byte>, base: map<nat, seq<byte>>)
      reads this
    {
      Reading(fed, base) && folderCrc == CrcUpdate(CRC_INIT, fed)
    }

    constructor (j: Job, sinks: map<nat, seq<byte>>)
      requires JobOk(j)
      ensures job == j && Valid([], sinks)
    {
      job := j;
      file, wc, folderCrc := j.first, 0, CRC_INIT;
      remain, curWanted, curSlot, crc := 0, false, 0, CRC_INIT;
      this.sinks := sinks;
      new;
      CrcOfNothing();
      assert AtEdge(job, [], sinks, file, wc, this.sinks);
      OpenFile([], sinks);
    }

    method OpenFile(ghost fed: seq<byte>, ghost base: map<nat, seq<byte>>)
      requires AtEdge(job, fed, base, file, wc, sinks) && file < job.end
      modifies this
      ensures Reading(fed, base) && file == old(file) && folderCrc == old(folderCrc) && sinks == old(sinks)
    {
      hide AtEdge, Open, CrcUpdate;
      OrderOf(job, fed, base, file, wc, sinks);
      remain := job.db.positions[file + 1] - job.db.positions[file];
      curWanted := wc < |job.wf| && job.wf[wc] == file;
      if curWanted {
        curSlot := job.ws[wc];
        crc := CRC_INIT;
      }
      OpenFromEdge(job, fed, base, file, wc, curSlot, crc, sinks);
    }

    /** Close the file at its end: check a wanted member's checksum, step to the next file. */
    method CloseFile(ghost fed: seq<byte>, ghost base: map<nat, seq<byte>>) returns (code: int)
      requires Reading(fed, base) && remain == 0
      modifies this
      ensures code == SZ_OK ==> AtEdge(job, fed, base, file, wc, sinks) && file == old(file) + 1
      ensures code != SZ_OK ==> code == EX7Z_ERR_MEMBER_CRC && JobOk(job) && Hopeless(job, fed)
      ensures folderCrc == old(folderCrc)
    {
      hide AtEdge, Cursor, Filled, CrcUpdate, Digest, Hopeless, JobOk;
      OpenOrder(job, fed, base, file, remain, wc, curWanted, curSlot, crc, sinks);
      if curWanted {
        if job.db.crcs[file].Some? && Digest(crc) != job.db.crcs[file].value {
          CloseHopeless(job, fed, base, file, wc, curSlot, crc, sinks);
          return EX7Z_ERR_MEMBER_CRC;
        }
      }
      CloseKeeps(job, fed, base, file, wc, curWanted, curSlot, crc, sinks);
      if curWanted {
        wc := wc + 1;
      }
      file := file + 1;
      return SZ_OK;
    }

    /** Step over files that are full until one has room for the next byte. */
    method Advance(ghost fed: seq<byte>, ghost next: seq<byte>, ghost base: map<nat, seq<byte>>) returns (code: int)
      requires Reading(fed, base) && next != []
      modifies this
      ensures code == SZ_OK ==> Reading(fed, base) && remain > 0
      ensures code != SZ_OK ==> JobOk(job) && Hopeless(job, fed + next)
      ensures folderCrc == old(folderCrc)
    {
      hide AtEdge, Open, CrcUpdate, Hopeless, JobOk;
      OpenOrder(job, fed, base, file, remain, wc, curWanted, curSlot, crc, sinks);
      while remain == 0
        invariant Reading(fed, base) && folderCrc == old(folderCrc)
        decreases job.end - file
      {
        OpenOrder(job, fed, base, file, remain, wc, curWanted, curSlot, crc, sinks);
        code := CloseFile(fed, base);
        if code != SZ_OK {
          HopelessStays(job, None, fed, next);
          return;
        }
        if file >= job.end {
          TooLong(job, fed, base, file, wc, sinks, next);
          return SZ_ERROR_DATA;
        }
        OpenFile(fed, base);
      }
      return SZ_OK;
    }

    /** `split_feed`: any next piece of the folder stream. */
    method Feed(buf: seq<byte>, ghost fed: seq<byte>, ghost base: map<nat, seq<byte>>) returns (code: int)
      requires Valid(fed, base)
      modifies this
      ensures JobOk(job)
      ensures code == SZ_OK ==> Valid(fed + buf, base)
      ensures code != SZ_OK ==> Hopeless(job, fed + buf)
    {
      hide AtEdge, Open, CrcUpdate, Hopeless, JobOk;
      OpenOrder(job, fed, base, file, remain, wc, curWanted, curSlot, crc, sinks);
      CrcAppend(CRC_INIT, fed, buf);
      folderCrc := CrcUpdate(folderCrc, buf);
      var at := 0;
      assert fed + buf[..0] == fed;
      while at < |buf|
        invariant at <= |buf| && Reading(fed + buf[..at], base)
        invariant folderCrc == CrcUpdate(CRC_INIT, fed + buf)
      {
        ghost var now := fed + buf[..at];
        assert now + buf[at..] == fed + buf;
        code := Advance(now, buf[at..], base);
        if code != SZ_OK {
          return;
        }
        var take := if |buf| - at > remain then remain else |buf| - at;
        var piece := buf[at..at + take];
        TakeKeeps(job, now, base, file, remain, wc, curWanted, curSlot, crc, sinks, piece);
        if curWanted {
          sinks := sinks[curSlot := SinkOf(sinks, curSlot) + piece];
          crc := CrcUpdate(crc, piece);
        }
        remain := remain - take;
        assert now + piece == fed + buf[..at + take];
        at := at + take;
      }
      assert buf[..at] == buf;
      return SZ_OK;
    }

    /** `split_finish`: close the trailing files, then check that every request was served and the folder's checksum. */
    method Finish(expected: Option<bv32>, ghost fed: seq<byte>, ghost base: map<nat, seq<byte>>) returns (code: int)
      requires Valid(fed, base)
      modifies this
      ensures JobOk(job)
      ensures code == SZ_OK <==> Accepts(job, expected, fed)
      ensures code == SZ_OK ==> Delivered(job, fed, base, sinks)
    {
      hide AtEdge, Open, CrcUpdate, Hopeless, JobOk, Digest, Accepts, Delivered, CrcFits;
      OpenOrder(job, fed, base, file, remain, wc, curWanted, curSlot, crc, sinks);
      assert fed + [] == fed;
      while file < job.end
        invariant if file < job.end then Reading(fed, base) else AtEdge(job, fed, base, file, wc, sinks) && file == job.end
        invariant folderCrc == CrcUpdate(CRC_INIT, fed)
        decreases job.end - file
      {
        OpenOrder(job, fed, base, file, remain, wc, curWanted, curSlot, crc, sinks);
        if remain != 0 {
          TooShort(job, expected, fed, base, file, remain, wc, curWanted, curSlot, crc, sinks);
          return SZ_ERROR_DATA;
        }
        code := CloseFile(fed, base);
        if code != SZ_OK {
          HopelessStays(job, expected, fed, []);
          return;
        }
        if file < job.end {
          OpenFile(fed, base);
        }
      }
      AtEnd(job, expected, fed, base, wc, sinks);
      CrcIs(fed);
      if wc != |job.wf| {
        return EX7Z_ERR_RANGE;
      }
      if expected.Some? && Digest(folderCrc) != expected.value {
        return SZ_ERROR_CRC;
      }
      return SZ_OK;
    }
  }

  lemma TooLong(j: Job, fed: seq<byte>, base: map<nat, seq<byte>>, file: nat, wc: nat, sinks: map<nat, seq<byte>>, next: seq<byte>)
    requires AtEdge(j, fed, base, file, wc, sinks) && file >= j.end && next != []
    ensures JobOk(j) && Hopeless(j, fed + next)
  {
  }

  lemma TooShort(j: Job, expected: Option<bv32>, fed: seq<byte>, base: map<nat, seq<byte>>, file: nat, remain: nat, wc: nat, wanted: bool, slot: nat,
                 crc: bv32, sinks: map<nat, seq<byte>>)
    requires Open(j, fed, base, file, remain, wc, wanted, slot, crc, sinks) && remain > 0
    ensures JobOk(j) && !Accepts(j, expected, fed)
  {
    PosOrder(j, file + 1, j.end);
  }

  /** Every request's sink holds exactly its own bytes, in request order where requests share a sink. */
  ghost predicate Delivered(j: Job, s: seq<byte>, base: map<nat, seq<byte>>, sinks: map<nat, seq<byte>>)
    requires JobOk(j)
  {
    Passed(j, |j.wf|, s) && forall slot :: SinkOf(sinks, slot) == SinkOf(base, slot) + Served(j, |j.wf|, slot, s)
  }

  /** At the end of the folder all that is left to decide is the count of requests and the folder checksum. */
  lemma AtEnd(j: Job, expected: Option<bv32>, fed: seq<byte>, base: map<nat, seq<byte>>, wc: nat, sinks: map<nat, seq<byte>>)
    requires AtEdge(j, fed, base, j.end, wc, sinks)
    ensures JobOk(j) && (Accepts(j, expected, fed) <==> wc == |j.wf| && CrcFits(expected, fed))
    ensures (CrcFits(expected, fed) <==> expected.None? || Crc(fed) == expected.value)
    ensures wc == |j.wf| ==> Delivered(j, fed, base, sinks)
  {
    hide Crc, MemberFits, Served;
    if wc == |j.wf| {
      forall slot ensures SinkOf(sinks, slot) == SinkOf(base, slot) + Served(j, wc, slot, fed) {
        assert SinkOf(sinks, slot) == SinkOf(base, slot) + Served(j, wc, slot, fed) + [];
      }
    } else {
      assert !InFolder(j, j.wf[wc]);
    }
  }

  function Concat(pieces: seq<seq<byte>>): seq<byte> {
    if pieces == [] then [] else Concat(pieces[..|pieces| - 1]) + pieces[|pieces| - 1]
  }

  lemma {:induction false} ConcatPrefix(pieces: seq<seq<byte>>, n: nat) returns (rest: seq<byte>)
    requires n <= |pieces|
    ensures Concat(pieces) == Concat(pieces[..n]) + rest
    decreases |pieces| - n
  {
    if n == |pieces| {
      assert pieces[..n] == pieces;
      rest := [];
    } else {
      var more := ConcatPrefix(pieces, n + 1);
      assert pieces[..n + 1][..n] == pieces[..n];
      rest := pieces[n] + more;
      assert Concat(pieces[..n]) + pieces[n] + more == Concat(pieces[..n]) + rest;
    }
  }

  /**
   One folder's stream through the splitter, however it is cut into pieces: it
   succeeds exactly on the streams the job accepts, and then every sink holds
   exactly what was asked for. Only the concatenation of the pieces matters.
   */
  method RunSplit(j: Job, folderCrc: Option<bv32>, pieces: seq<seq<byte>>, sinks: map<nat, seq<byte>>)
    returns (code: int, after: map<nat, seq<byte>>)
    requires JobOk(j)
    ensures code == SZ_OK <==> Accepts(j, folderCrc, Concat(pieces))
    ensures code == SZ_OK ==> Delivered(j, Concat(pieces), sinks, after)
  {
    hide JobOk, Accepts, Delivered, Hopeless, Open, AtEdge, CrcUpdate;
    var sp := new Split(j, sinks);
    for n := 0 to |pieces|
      invariant sp.job == j && sp.Valid(Concat(pieces[..n]), sinks)
    {
      assert pieces[..n + 1][..n] == pieces[..n];
      code := sp.Feed(pieces[n], Concat(pieces[..n]), sinks);
      if code != SZ_OK {
        ghost var rest := ConcatPrefix(pieces, n + 1);
        HopelessStays(j, folderCrc, Concat(pieces[..n + 1]), rest);
        return code, sp.sinks;
      }
    }
    assert pieces[..|pieces|] == pieces;
    code := sp.Finish(folderCrc, Concat(pieces), sinks);
    after := sp.sinks;
  }

  lemma OrderOf(j: Job, fed: seq<byte>, base: map<nat, seq<byte>>, file: nat, wc: nat, sinks: map<nat, seq<byte>>)
    requires AtEdge(j, fed, base, file, wc, sinks)
    ensures JobOk(j) && |fed| == Pos(j, file)
    ensures file < j.end ==> file + 1 < |j.db.positions| && j.db.positions[file] <= j.db.positions[file + 1] && |j.ws| == |j.wf|
    ensures file < j.end ==> Pos(j, file + 1) - Pos(j, file) == j.db.positions[file + 1] - j.db.positions[file]
  {
  }

  lemma OpenOrder(j: Job, fed: seq<byte>, base: map<nat, seq<byte>>, file: nat, remain: nat, wc: nat, wanted: bool, slot: nat, crc: bv32,
                  sinks: map<nat, seq<byte>>)
    requires Open(j, fed, base, file, remain, wc, wanted, slot, crc, sinks)
    ensures JobOk(j) && file < |j.db.crcs| && j.first <= file < j.end && |fed| + remain == Pos(j, file + 1)
  {
  }
}
