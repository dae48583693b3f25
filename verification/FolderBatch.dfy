/**
 The 7z batch entry point (glue.c `ex7z_extract`): requests are sorted in place by
 file index, checked, grouped by folder, and each folder is decoded once.
 */
module FolderBatch {
  import opened Bytes
  import opened Wrappers
  import opened FolderSplit

  type Request = (nat, nat)

  function Zip(files: seq<nat>, slots: seq<nat>): (r: seq<Request>)
    requires |files| == |slots|
    ensures |r| == |files|
  {
    seq(|files|, i requires 0 <= i < |files| => (files[i], slots[i]))
  }

  // ---- Sorting ----

  ghost predicate Ascending(files: seq<nat>) {
    forall i, j :: 0 <= i < j < |files| ==> files[i] <= files[j]
  }

  /** The array while `x` is lifted out of position `i` and everything from `j` on has moved up one. */
  ghost predicate Shifted(now: seq<nat>, before: seq<nat>, j: nat, i: nat)
    requires j <= i < |before| == |now|
  {
    && (forall k :: 0 <= k < j ==> now[k] == before[k])
    && (forall k :: j < k <= i ==> now[k] == before[k - 1])
    && forall k :: i < k < |now| ==> now[k] == before[k]
  }

  function MovedDown<T>(s: seq<T>, j: nat, i: nat): seq<T>
    requires j <= i < |s|
  {
    s[..j] + [s[i]] + s[j..i] + s[i + 1..]
  }

  lemma MovedDownSame<T>(s: seq<T>, j: nat, i: nat)
    requires j <= i < |s|
    ensures multiset(MovedDown(s, j, i)) == multiset(s)
  {
    assert s == s[..j] + s[j..i] + [s[i]] + s[i + 1..];
  }

  lemma ShiftedIsMovedDown(now: seq<nat>, before: seq<nat>, j: nat, i: nat)
    requires j <= i < |before| == |now| && Shifted(now, before, j, i) && now[j] == before[i]
    ensures now == MovedDown(before, j, i)
  {
  }

  lemma ZipMovedDown(files: seq<nat>, slots: seq<nat>, j: nat, i: nat)
    requires |files| == |slots| && j <= i < |files|
    ensures |MovedDown(files, j, i)| == |MovedDown(slots, j, i)| == |files|
    ensures Zip(MovedDown(files, j, i), MovedDown(slots, j, i)) == MovedDown(Zip(files, slots), j, i)
  {
  }

  lemma MovedDownAscends(files: seq<nat>, j: nat, i: nat)
    requires j <= i < |files| && Ascending(files[..i])
    requires (forall k :: j <= k < i ==> files[k] > files[i]) && (j > 0 ==> files[j - 1] <= files[i])
    ensures Ascending(MovedDown(files, j, i)[..i + 1])
  {
    var r := MovedDown(files, j, i);
    forall a, b | 0 <= a < b <= i ensures r[a] <= r[b] {
      assert forall k :: 0 <= k < j ==> r[k] == files[..i][k];
      assert forall k :: j < k <= i ==> r[k] == files[..i][k - 1];
    }
  }

  /** Insertion sort of both arrays by file index. */
  method SortRequests(files: array<nat>, slots: array<nat>)
    requires files != slots && files.Length == slots.Length
    modifies files, slots
    ensures Ascending(files[..])
    ensures multiset(Zip(files[..], slots[..])) == multiset(Zip(old(files[..]), old(slots[..])))
  {
    hide MovedDown;
    var i := 1;
    while i < files.Length
      invariant 1 <= i && (i <= files.Length || files.Length == 0)
      invariant Ascending(if i <= files.Length then files[..i] else files[..])
      invariant multiset(Zip(files[..], slots[..])) == multiset(Zip(old(files[..]), old(slots[..])))
    {
      InsertAt(files, slots, i);
      i := i + 1;
    }
    assert files.Length > 0 ==> files[..i] == files[..];
  }

  /** Move request `i` down to its place among the sorted ones before it. */
  method InsertAt(files: array<nat>, slots: array<nat>, i: nat)
    requires files != slots && files.Length == slots.Length && i < files.Length && Ascending(files[..i])
    modifies files, slots
    ensures Ascending(files[..i + 1])
    ensures multiset(Zip(files[..], slots[..])) == multiset(Zip(old(files[..]), old(slots[..])))
  {
    hide Ascending, Zip;
    ghost var fs, ss := files[..], slots[..];
    assert fs[..i] == files[..i];
    var f, s := files[i], slots[i];
    var j := i;
    while j > 0 && files[j - 1] > f
      invariant j <= i && Shifted(files[..], fs, j, i) && Shifted(slots[..], ss, j, i)
      invariant forall k :: j <= k < i ==> fs[k] > f
    {
      files[j] := files[j - 1];
      slots[j] := slots[j - 1];
      j := j - 1;
    }
    files[j] := f;
    slots[j] := s;
    Inserted(files[..], slots[..], fs, ss, j, i);
    assert files[..i + 1] == files[..][..i + 1];
  }

  /** Putting the lifted request down at `j` keeps all requests and sorts one more. */
  lemma Inserted(files: seq<nat>, slots: seq<nat>, fs: seq<nat>, ss: seq<nat>, j: nat, i: nat)
    requires |fs| == |ss| == |files| == |slots| && j <= i < |fs| && Ascending(fs[..i])
    requires Shifted(files, fs, j, i) && files[j] == fs[i] && Shifted(slots, ss, j, i) && slots[j] == ss[i]
    requires (forall k :: j <= k < i ==> fs[k] > fs[i]) && (j > 0 ==> fs[j - 1] <= fs[i])
    ensures Ascending(files[..i + 1]) && multiset(Zip(files, slots)) == multiset(Zip(fs, ss))
  {
    ShiftedIsMovedDown(files, fs, j, i);
    ShiftedIsMovedDown(slots, ss, j, i);
    ZipMovedDown(fs, ss, j, i);
    MovedDownSame(Zip(fs, ss), j, i);
    MovedDownAscends(fs, j, i);
    hide MovedDown, Shifted;
  }

  // ---- The archive ----

  /** What decoding a folder yields: the pieces handed to the splitter, and the decoder's verdict. */
  datatype Decoded = Decoded(code: int, pieces: seq<seq<byte>>)

  /** What opening an archive establishes about its tables. */
  ghost predicate DbOk(db: Db) {
    && Ordered(db) && |db.isDir| == |db.fileToFolder| == NumFiles(db)
    && |db.folderToFile| == |db.folderCrcs| + 1
    && (forall a, b :: 0 <= a <= b < |db.folderToFile| ==> db.folderToFile[a] <= db.folderToFile[b] <= NumFiles(db))
    && forall f :: 0 <= f < NumFiles(db) ==> FilePlaced(db, f)
  }

  /** A file lies in its folder's range; one without a folder is empty. */
  ghost predicate FilePlaced(db: Db, f: nat)
    requires f < |db.fileToFolder| && f + 1 < |db.positions|
  {
    match db.fileToFolder[f]
    case None => db.positions[f + 1] == db.positions[f]
    case Some(fo) => fo + 1 < |db.folderToFile| && db.folderToFile[fo] <= f < db.folderToFile[fo + 1]
  }

  predicate IsEmpty(db: Db, f: nat)
    requires f < |db.fileToFolder| && f + 1 < |db.positions|
  {
    db.fileToFolder[f].None? || db.positions[f + 1] == db.positions[f]
  }

  ghost predicate RangeIn(db: Db, fo: nat, f: nat) {
    fo + 1 < |db.folderToFile| && db.folderToFile[fo] <= f < db.folderToFile[fo + 1]
  }

  /** A non-empty file belongs to the one folder whose range it lies in. */
  lemma OneFolder(db: Db, fo: nat, f: nat)
    requires DbOk(db) && RangeIn(db, fo, f) && f < NumFiles(db) && !IsEmpty(db, f)
    ensures db.fileToFolder[f] == Some(fo)
  {
    assert FilePlaced(db, f);
    var g := db.fileToFolder[f].value;
    FoldersOrdered(db, g, fo);
    FoldersOrdered(db, fo, g);
  }

  lemma FoldersOrdered(db: Db, a: nat, b: nat)
    requires DbOk(db) && a + 1 < |db.folderToFile| && b < |db.folderToFile|
    ensures a < b ==> db.folderToFile[a + 1] <= db.folderToFile[b]
  {
  }

  /** A file's bytes: its own span of its folder's stream, whoever else is asked for. */
  function Content(db: Db, decode: nat -> Decoded, f: nat): seq<byte>
    requires DbOk(db) && f < NumFiles(db)
  {
    if IsEmpty(db, f) then []
    else
      var fo := db.fileToFolder[f].value;
      assert FilePlaced(db, f);
      var s := Concat(decode(fo).pieces);
      var base := db.positions[db.folderToFile[fo]];
      if db.positions[f + 1] - base <= |s| then s[db.positions[f] - base..db.positions[f + 1] - base] else []
  }

  /** What a slot gets from the first `k` requests in file order. */
  function ServedAll(db: Db, decode: nat -> Decoded, fs: seq<nat>, ss: seq<nat>, k: nat, slot: nat): seq<byte>
    requires DbOk(db) && RequestsOk(db, fs) && k <= |fs| == |ss|
  {
    if k == 0 then []
    else if ss[k - 1] == slot then ServedAll(db, decode, fs, ss, k - 1, slot) + Content(db, decode, fs[k - 1])
    else ServedAll(db, decode, fs, ss, k - 1, slot)
  }

  // ---- One folder ----

  function JobFor(db: Db, fo: nat, wf: seq<nat>, ws: seq<nat>): Job
    requires fo + 1 < |db.folderToFile|
  {
    Job(db, db.folderToFile[fo], db.folderToFile[fo + 1], wf, ws)
  }

  /** The folder decodes, fills its files exactly, and every checksum it carries is right. */
  ghost predicate FolderSound(db: Db, decode: nat -> Decoded, fo: nat) {
    && DbOk(db) && fo + 1 < |db.folderToFile| && decode(fo).code == SZ_OK
    && var j := JobFor(db, fo, [], []);
       var s := Concat(decode(fo).pieces);
       && JobOk(j) && |s| == Pos(j, j.end) && CrcFits(db.folderCrcs[fo], s)
       && forall f :: j.first <= f < j.end ==> MemberFits(j, f, s)
  }

  lemma SoundAccepts(db: Db, decode: nat -> Decoded, fo: nat, wf: seq<nat>, ws: seq<nat>)
    requires FolderSound(db, decode, fo) && JobOk(JobFor(db, fo, wf, ws))
    requires forall k :: 0 <= k < |wf| ==> RangeIn(db, fo, wf[k])
    ensures Accepts(JobFor(db, fo, wf, ws), db.folderCrcs[fo], Concat(decode(fo).pieces))
  {
    hide CrcFits;
    var j, s := JobFor(db, fo, wf, ws), Concat(decode(fo).pieces);
    var j0 := JobFor(db, fo, [], []);
    forall k | 0 <= k < |wf| ensures MemberFits(j, wf[k], s) {
      assert MemberFits(j0, wf[k], s);
      assert Pos(j, wf[k] + 1) <= |s| ==> Member(j, wf[k], s) == Member(j0, wf[k], s);
    }
  }

  /** `decode_folder`: the decoder's pieces through the splitter, then the closing checks. */
  method DecodeFolder(db: Db, fo: nat, wf: seq<nat>, ws: seq<nat>, d: Decoded, sinks: map<nat, seq<byte>>)
    returns (code: int, after: map<nat, seq<byte>>)
    requires fo < |db.folderCrcs| && fo + 1 < |db.folderToFile| && JobOk(JobFor(db, fo, wf, ws))
    ensures code == SZ_OK <==> d.code == SZ_OK && Accepts(JobFor(db, fo, wf, ws), db.folderCrcs[fo], Concat(d.pieces))
    ensures code == SZ_OK ==> Delivered(JobFor(db, fo, wf, ws), Concat(d.pieces), sinks, after)
  {
    if d.code != SZ_OK {
      return d.code, sinks;
    }
    code, after := RunSplit(JobFor(db, fo, wf, ws), db.folderCrcs[fo], d.pieces, sinks);
  }

  // ---- Requests ----

  ghost predicate RequestsOk(db: Db, fs: seq<nat>) {
    && |db.isDir| == NumFiles(db)
    && (forall i :: 0 <= i < |fs| ==> fs[i] < NumFiles(db) && !db.isDir[fs[i]])
    && forall i, j :: 0 <= i < j < |fs| ==> fs[i] < fs[j]
  }

  /** Requests name files that exist, no directories, and no file twice. */
  method CheckRequests(db: Db, fs: seq<nat>) returns (code: int)
    requires |db.isDir| == NumFiles(db) && Ascending(fs)
    ensures code == SZ_OK <==> RequestsOk(db, fs)
  {
    for i := 0 to |fs|
      invariant forall k :: 0 <= k < i ==> fs[k] < NumFiles(db) && !db.isDir[fs[k]]
      invariant forall a, b :: 0 <= a < b < i ==> fs[a] < fs[b]
    {
      if fs[i] >= NumFiles(db) || db.isDir[fs[i]] || (i > 0 && fs[i] == fs[i - 1]) {
        return EX7Z_ERR_RANGE;
      }
    }
    return SZ_OK;
  }

  ghost predicate Group(db: Db, fs: seq<nat>, fo: nat, i: nat, j: nat) {
    fo + 1 < |db.folderToFile| && i <= j <= |fs| && forall k :: i <= k < j ==> RangeIn(db, fo, fs[k])
  }

  /** What the splitter serves a group is what each of its requests is due. */
  lemma {:induction false} GroupServed(db: Db, decode: nat -> Decoded, fs: seq<nat>, ss: seq<nat>, fo: nat, i: nat, j: nat, k: nat, slot: nat)
    requires DbOk(db) && RequestsOk(db, fs) && |ss| == |fs| && Group(db, fs, fo, i, j) && i <= k <= j
    requires JobOk(JobFor(db, fo, fs[i..j], ss[i..j])) && Passed(JobFor(db, fo, fs[i..j], ss[i..j]), j - i, Concat(decode(fo).pieces))
    ensures Passed(JobFor(db, fo, fs[i..j], ss[i..j]), k - i, Concat(decode(fo).pieces))
    ensures ServedAll(db, decode, fs, ss, k, slot)
         == ServedAll(db, decode, fs, ss, i, slot) + Served(JobFor(db, fo, fs[i..j], ss[i..j]), k - i, slot, Concat(decode(fo).pieces))
    decreases k
  {
    hide Content, Member, Concat, DbOk;
    var job, s := JobFor(db, fo, fs[i..j], ss[i..j]), Concat(decode(fo).pieces);
    if i < k {
      GroupServed(db, decode, fs, ss, fo, i, j, k - 1, slot);
      var f := fs[k - 1];
      assert job.wf[k - 1 - i] == f && job.ws[k - 1 - i] == ss[k - 1];
      assert RangeIn(db, fo, f);
      MemberIsContent(db, decode, fo, job, f);
      assert ServedAll(db, decode, fs, ss, i, slot) + (Served(job, k - 1 - i, slot, s) + Member(job, f, s))
          == ServedAll(db, decode, fs, ss, i, slot) + Served(job, k - 1 - i, slot, s) + Member(job, f, s);
    }
  }

  lemma MemberIsContent(db: Db, decode: nat -> Decoded, fo: nat, job: Job, f: nat)
    requires DbOk(db) && RangeIn(db, fo, f) && f < NumFiles(db)
    requires job.db == db && job.first == db.folderToFile[fo] && job.end == db.folderToFile[fo + 1] && JobOk(job)
    requires Pos(job, f + 1) <= |Concat(decode(fo).pieces)|
    ensures Member(job, f, Concat(decode(fo).pieces)) == Content(db, decode, f)
  {
    hide Concat;
    assert FilePlaced(db, f);
    if !IsEmpty(db, f) {
      OneFolder(db, fo, f);
    }
  }

  lemma GroupJob(db: Db, fs: seq<nat>, ss: seq<nat>, fo: nat, i: nat, j: nat)
    requires DbOk(db) && RequestsOk(db, fs) && |ss| == |fs| && Group(db, fs, fo, i, j) && i < j
    ensures JobOk(JobFor(db, fo, fs[i..j], ss[i..j]))
  {
    assert RangeIn(db, fo, fs[i]);
  }

  // ---- The driver ----

  ghost predicate AscendStrictly(s: seq<nat>) {
    forall i, j :: 0 <= i < j < |s| ==> s[i] < s[j]
  }

  /** Folders decoded so far: each once, in order, all before request `i`. */
  ghost predicate DecodedBefore(db: Db, fs: seq<nat>, i: nat, decoded: seq<nat>) {
    && AscendStrictly(decoded)
    && forall k :: 0 <= k < |decoded| ==> decoded[k] + 1 < |db.folderToFile| && (i < |fs| ==> db.folderToFile[decoded[k] + 1] <= fs[i])
  }

  ghost predicate AllServed(db: Db, decode: nat -> Decoded, fs: seq<nat>, ss: seq<nat>, i: nat, base: map<nat, seq<byte>>, sinks: map<nat, seq<byte>>)
    requires DbOk(db) && RequestsOk(db, fs) && i <= |fs| == |ss|
  {
    forall slot :: SinkOf(sinks, slot) == SinkOf(base, slot) + ServedAll(db, decode, fs, ss, i, slot)
  }

  lemma SkipEmpty(db: Db, decode: nat -> Decoded, fs: seq<nat>, ss: seq<nat>, i: nat, base: map<nat, seq<byte>>, sinks: map<nat, seq<byte>>)
    requires DbOk(db) && RequestsOk(db, fs) && i < |fs| == |ss| && IsEmpty(db, fs[i]) && AllServed(db, decode, fs, ss, i, base, sinks)
    ensures AllServed(db, decode, fs, ss, i + 1, base, sinks)
  {
    forall slot ensures ServedAll(db, decode, fs, ss, i + 1, slot) == ServedAll(db, decode, fs, ss, i, slot) {
      assert ServedAll(db, decode, fs, ss, i, slot) + [] == ServedAll(db, decode, fs, ss, i, slot);
    }
  }

  lemma GroupDone(db: Db, decode: nat -> Decoded, fs: seq<nat>, ss: seq<nat>, fo: nat, i: nat, j: nat,
                  base: map<nat, seq<byte>>, before: map<nat, seq<byte>>, after: map<nat, seq<byte>>)
    requires DbOk(db) && RequestsOk(db, fs) && |ss| == |fs| && Group(db, fs, fo, i, j) && i < j
    requires JobOk(JobFor(db, fo, fs[i..j], ss[i..j])) && AllServed(db, decode, fs, ss, i, base, before)
    requires Delivered(JobFor(db, fo, fs[i..j], ss[i..j]), Concat(decode(fo).pieces), before, after)
    ensures AllServed(db, decode, fs, ss, j, base, after)
  {
    hide ServedAll, Served, Concat, DbOk, RequestsOk, JobOk, Passed, Group;
    SameJob(db, fs, ss, fo, i, j);
    var job, s := JobFor(db, fo, fs[i..j], ss[i..j]), Concat(decode(fo).pieces);
    forall slot ensures SinkOf(after, slot) == SinkOf(base, slot) + ServedAll(db, decode, fs, ss, j, slot) {
      DeliveredPassed(job, s, before, after);
      GroupServed(db, decode, fs, ss, fo, i, j, j, slot);
      assert SinkOf(after, slot) == SinkOf(before, slot) + Served(job, j - i, slot, s);
      assert SinkOf(base, slot) + ServedAll(db, decode, fs, ss, i, slot) + Served(job, j - i, slot, s)
          == SinkOf(base, slot) + (ServedAll(db, decode, fs, ss, i, slot) + Served(job, j - i, slot, s));
    }
  }

  lemma SameJob(db: Db, fs: seq<nat>, ss: seq<nat>, fo: nat, i: nat, j: nat)
    requires Group(db, fs, fo, i, j) && |ss| == |fs|
    ensures fo + 1 < |db.folderToFile| && j <= |fs| && |JobFor(db, fo, fs[i..j], ss[i..j]).wf| == j - i
  {
  }

  lemma DeliveredPassed(j: Job, s: seq<byte>, base: map<nat, seq<byte>>, sinks: map<nat, seq<byte>>)
    requires JobOk(j) && Delivered(j, s, base, sinks)
    ensures Passed(j, |j.wf|, s)
  {
  }

  /** The folders a batch has to decode. */
  ghost predicate Needed(db: Db, fs: seq<nat>, fo: nat)
    requires DbOk(db) && RequestsOk(db, fs)
  {
    exists k :: 0 <= k < |fs| && !IsEmpty(db, fs[k]) && db.fileToFolder[fs[k]] == Some(fo)
  }

  ghost predicate AllSound(db: Db, decode: nat -> Decoded, fs: seq<nat>)
    requires DbOk(db) && RequestsOk(db, fs)
  {
    forall fo :: Needed(db, fs, fo) ==> FolderSound(db, decode, fo)
  }

  /** End of the group that starts at request `i`. */
  method GroupEnd(db: Db, fs: seq<nat>, fo: nat, i: nat) returns (j: nat)
    requires DbOk(db) && RequestsOk(db, fs) && i < |fs| && RangeIn(db, fo, fs[i])
    ensures i < j <= |fs| && Group(db, fs, fo, i, j) && (j < |fs| ==> db.folderToFile[fo + 1] <= fs[j])
  {
    j := i + 1;
    while j < |fs| && fs[j] < db.folderToFile[fo + 1]
      invariant i < j <= |fs| && Group(db, fs, fo, i, j)
    {
      j := j + 1;
    }
  }

  /** Sorted requests: empty members are skipped, every other folder is decoded once for all its requests. */
  method ServeSorted(db: Db, decode: nat -> Decoded, fs: seq<nat>, ss: seq<nat>, sinks: map<nat, seq<byte>>)
    returns (code: int, after: map<nat, seq<byte>>, decoded: seq<nat>)
    requires DbOk(db) && RequestsOk(db, fs) && |ss| == |fs|
    ensures AscendStrictly(decoded)
    ensures code == SZ_OK ==> AllServed(db, decode, fs, ss, |fs|, sinks, after)
    ensures AllSound(db, decode, fs) ==> code == SZ_OK
  {
    hide DbOk, RequestsOk, AllServed, ServedAll, Group, FolderSound, JobOk, Delivered, Accepts, FilePlaced;
    var i := 0;
    after, decoded := sinks, [];
    NothingServed(db, decode, fs, ss, sinks);
    while i < |fs|
      invariant i <= |fs| && DecodedBefore(db, fs, i, decoded) && AllServed(db, decode, fs, ss, i, sinks, after)
    {
      var fi := fs[i];
      FileKnown(db, fs, i);
      if IsEmpty(db, fi) {
        SkipEmpty(db, decode, fs, ss, i, sinks, after);
        NextRequest(db, fs, i, decoded);
        i := i + 1;
      } else {
        var fo := db.fileToFolder[fi].value;
        var j := GroupEnd(db, fs, fo, i);
        GroupJob(db, fs, ss, fo, i, j);
        ghost var before := after;
        decoded := NewFolder(db, fs, fo, i, j, decoded);
        code, after := DecodeFolder(db, fo, fs[i..j], ss[i..j], decode(fo), after);
        if code != SZ_OK {
          GroupFails(db, decode, fs, ss, fo, i, j);
          return;
        }
        GroupDone(db, decode, fs, ss, fo, i, j, sinks, before, after);
        i := j;
      }
    }
    code := SZ_OK;
  }

  lemma NothingServed(db: Db, decode: nat -> Decoded, fs: seq<nat>, ss: seq<nat>, sinks: map<nat, seq<byte>>)
    requires DbOk(db) && RequestsOk(db, fs) && |ss| == |fs|
    ensures AllServed(db, decode, fs, ss, 0, sinks, sinks)
  {
  }

  lemma FileKnown(db: Db, fs: seq<nat>, i: nat)
    requires DbOk(db) && RequestsOk(db, fs) && i < |fs|
    ensures fs[i] < |db.fileToFolder| && fs[i] + 1 < |db.positions|
    ensures !IsEmpty(db, fs[i]) ==> RangeIn(db, db.fileToFolder[fs[i]].value, fs[i]) && db.fileToFolder[fs[i]].value < |db.folderCrcs|
  {
    assert FilePlaced(db, fs[i]);
  }

  lemma NextRequest(db: Db, fs: seq<nat>, i: nat, decoded: seq<nat>)
    requires RequestsOk(db, fs) && i < |fs| && DecodedBefore(db, fs, i, decoded)
    ensures DecodedBefore(db, fs, i + 1, decoded)
  {
  }

  /** A folder comes up only after all its predecessors are behind, so it is new. */
  method NewFolder(db: Db, fs: seq<nat>, fo: nat, i: nat, j: nat, decoded: seq<nat>) returns (r: seq<nat>)
    requires DbOk(db) && RequestsOk(db, fs) && Group(db, fs, fo, i, j) && i < j && DecodedBefore(db, fs, i, decoded)
    requires j < |fs| ==> db.folderToFile[fo + 1] <= fs[j]
    ensures r == decoded + [fo] && DecodedBefore(db, fs, j, r)
  {
    assert RangeIn(db, fo, fs[i]);
    forall k | 0 <= k < |decoded| ensures decoded[k] < fo {
      FoldersOrdered(db, fo, decoded[k]);
    }
    return decoded + [fo];
  }

  lemma GroupFails(db: Db, decode: nat -> Decoded, fs: seq<nat>, ss: seq<nat>, fo: nat, i: nat, j: nat)
    requires DbOk(db) && RequestsOk(db, fs) && |ss| == |fs| && Group(db, fs, fo, i, j) && i < j && fo < |db.folderCrcs|
    requires !IsEmpty(db, fs[i]) && db.fileToFolder[fs[i]] == Some(fo) && JobOk(JobFor(db, fo, fs[i..j], ss[i..j]))
    requires !(decode(fo).code == SZ_OK && Accepts(JobFor(db, fo, fs[i..j], ss[i..j]), db.folderCrcs[fo], Concat(decode(fo).pieces)))
    ensures !AllSound(db, decode, fs)
  {
    hide Accepts, JobOk, Concat;
    assert Needed(db, fs, fo);
    if FolderSound(db, decode, fo) {
      SoundAccepts(db, decode, fo, fs[i..j], ss[i..j]);
    }
  }

  /** The requests in the order the driver serves them. */
  ghost predicate SortedFrom(filesIn: seq<nat>, slotsIn: seq<nat>, fs: seq<nat>, ss: seq<nat>)
    requires |filesIn| == |slotsIn|
  {
    |fs| == |ss| && Ascending(fs) && multiset(Zip(fs, ss)) == multiset(Zip(filesIn, slotsIn))
  }

  /**
   `ex7z_extract`: whatever order the requests come in. `fs` and `ss` show the
   sorted requests, `decoded` the folders decoded.
   */
  method Extract(db: Db, decode: nat -> Decoded, filesIn: seq<nat>, slotsIn: seq<nat>, sinks: map<nat, seq<byte>>)
    returns (code: int, after: map<nat, seq<byte>>, decoded: seq<nat>, fs: seq<nat>, ss: seq<nat>)
    requires DbOk(db) && |filesIn| == |slotsIn|
    ensures SortedFrom(filesIn, slotsIn, fs, ss) && AscendStrictly(decoded)
    ensures code == SZ_OK ==> RequestsOk(db, fs) && AllServed(db, decode, fs, ss, |fs|, sinks, after)
    ensures RequestsOk(db, fs) && AllSound(db, decode, fs) ==> code == SZ_OK
  {
    var files := new nat[|filesIn|](k requires 0 <= k < |filesIn| => filesIn[k]);
    var slots := new nat[|slotsIn|](k requires 0 <= k < |slotsIn| => slotsIn[k]);
    assert files[..] == filesIn && slots[..] == slotsIn;
    SortRequests(files, slots);
    fs, ss := files[..], slots[..];
    code, after, decoded := SZ_OK, sinks, [];
    code := CheckRequests(db, fs);
    if code == SZ_OK {
      code, after, decoded := ServeSorted(db, decode, fs, ss, sinks);
    }
  }

  // ---- What a caller sees ----

  lemma {:induction false} ServedNothing(db: Db, decode: nat -> Decoded, fs: seq<nat>, ss: seq<nat>, k: nat, slot: nat)
    requires DbOk(db) && RequestsOk(db, fs) && k <= |fs| == |ss| && forall i :: 0 <= i < k ==> ss[i] != slot
    ensures ServedAll(db, decode, fs, ss, k, slot) == []
  {
    if k > 0 {
      ServedNothing(db, decode, fs, ss, k - 1, slot);
    }
  }

  lemma {:induction false} ServedOnce(db: Db, decode: nat -> Decoded, fs: seq<nat>, ss: seq<nat>, k: nat, i: nat)
    requires DbOk(db) && RequestsOk(db, fs) && i < k <= |fs| == |ss| && forall a, b :: 0 <= a < b < |ss| ==> ss[a] != ss[b]
    ensures ServedAll(db, decode, fs, ss, k, ss[i]) == Content(db, decode, fs[i])
  {
    hide Content, DbOk;
    if i < k - 1 {
      ServedOnce(db, decode, fs, ss, k - 1, i);
      assert ss[k - 1] != ss[i];
    } else {
      ServedNothing(db, decode, fs, ss, k - 1, ss[i]);
      assert [] + Content(db, decode, fs[i]) == Content(db, decode, fs[i]);
    }
  }

  /** Where a request of one list stands in the other. */
  lemma Where(fs: seq<nat>, ss: seq<nat>, filesIn: seq<nat>, slotsIn: seq<nat>, k: nat) returns (i: nat)
    requires |fs| == |ss| && |filesIn| == |slotsIn| && multiset(Zip(fs, ss)) == multiset(Zip(filesIn, slotsIn)) && k < |filesIn|
    ensures i < |fs| && fs[i] == filesIn[k] && ss[i] == slotsIn[k]
  {
    assert Zip(filesIn, slotsIn)[k] in multiset(Zip(filesIn, slotsIn));
    assert (filesIn[k], slotsIn[k]) in Zip(fs, ss);
    i :| 0 <= i < |fs| && Zip(fs, ss)[i] == (filesIn[k], slotsIn[k]);
  }

  /**
   With sinks of their own, each request of a successful batch receives its file's
   bytes and nothing else, whatever is requested beside it.
   */
  lemma EachRequestServed(db: Db, decode: nat -> Decoded, filesIn: seq<nat>, slotsIn: seq<nat>, fs: seq<nat>, ss: seq<nat>,
                          sinks: map<nat, seq<byte>>, after: map<nat, seq<byte>>, k: nat)
    requires DbOk(db) && |filesIn| == |slotsIn| && SortedFrom(filesIn, slotsIn, fs, ss) && k < |filesIn|
    requires RequestsOk(db, fs) && AllServed(db, decode, fs, ss, |fs|, sinks, after)
    requires forall a, b :: 0 <= a < b < |slotsIn| ==> slotsIn[a] != slotsIn[b]
    ensures filesIn[k] < NumFiles(db)
    ensures SinkOf(after, slotsIn[k]) == SinkOf(sinks, slotsIn[k]) + Content(db, decode, filesIn[k])
  {
    var i := Where(fs, ss, filesIn, slotsIn, k);
    forall a, b | 0 <= a < b < |ss| ensures ss[a] != ss[b] {
      var p := Where(filesIn, slotsIn, fs, ss, a);
      var q := Where(filesIn, slotsIn, fs, ss, b);
      assert fs[a] < fs[b];
    }
    ServedOnce(db, decode, fs, ss, |fs|, i);
  }
}
