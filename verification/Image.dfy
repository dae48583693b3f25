/**
 Minting a FAT32 image recipe (`mint_image`): the deduplicated input table and
 the mapping of layout segments to `assemble` segments, proved to materialise the
 very bytes the layout renders to.
 */
module Image {
  import opened Wrappers
  import opened Bytes
  import opened FatNames
  import opened FatTree
  import FatLayout
  import FatCapacity
  import FatImage
  import FatRead
  import A = Assemble

  /** Content hashes, kept abstract. */
  type Hash = nat

  datatype Row = Row(path: string, hash: Hash, size: u64)

  datatype ImageError =
    | Fat32(error: Fat32Error)
    | SizeMismatch(hash: Hash, onDisk: nat)
    | NotResident(missing: nat)
    | BadParams(why: A.AssembleError)

  function FilesOf(rows: seq<Row>): (r: seq<FileEntry>)
    ensures |r| == |rows|
  {
    seq(|rows|, i requires 0 <= i < |rows| => FileEntry(rows[i].path, rows[i].size))
  }

  // ---- The input table ----

  ghost predicate Mentions(rows: seq<Row>, h: Hash) {
    exists i :: 0 <= i < |rows| && rows[i].hash == h
  }

  lemma MentionsLast(rows: seq<Row>, n: nat)
    requires |rows| == n + 1
    ensures forall h :: Mentions(rows, h) <==> h == rows[n].hash || Mentions(rows[..n], h)
  {
    forall h ensures Mentions(rows, h) <==> h == rows[n].hash || Mentions(rows[..n], h) {
      if Mentions(rows[..n], h) {
        var i :| 0 <= i < n && rows[..n][i].hash == h;
        assert rows[i].hash == h;
      }
      if Mentions(rows, h) && h != rows[n].hash {
        var i :| 0 <= i < |rows| && rows[i].hash == h;
        assert rows[..n][i].hash == h;
      }
    }
  }

  /** Content hashes in order of first appearance. */
  function Distinct(rows: seq<Row>): (r: seq<Hash>)
    ensures forall h :: h in r <==> Mentions(rows, h)
    ensures forall i, j :: 0 <= i < j < |r| ==> r[i] != r[j]
  {
    if rows == [] then []
    else
      var n := |rows| - 1;
      var d := Distinct(rows[..n]);
      MentionsLast(rows, n);
      if rows[n].hash in d then d else d + [rows[n].hash]
  }

  /** The index names each content hash's place in the table, and nothing else. */
  ghost predicate Indexes(ix: map<Hash, nat>, inputs: seq<Hash>) {
    && (forall h :: h in ix ==> 2 <= ix[h] < |inputs| && inputs[ix[h]] == h)
    && forall k :: 2 <= k < |inputs| ==> inputs[k] in ix
  }

  lemma NoneIndexed(inputs: seq<Hash>)
    requires |inputs| == 2
    ensures Indexes(map[], inputs)
  {
  }

  lemma IndexStep(ix: map<Hash, nat>, inputs: seq<Hash>, h: Hash)
    requires |inputs| >= 2 && Indexes(ix, inputs) && h !in ix
    ensures Indexes(ix[h := |inputs|], inputs + [h])
  {
  }

  lemma InIndex(ix: map<Hash, nat>, inputs: seq<Hash>, d: seq<Hash>, h: Hash)
    requires Indexes(ix, inputs) && |inputs| == |d| + 2 && inputs[2..] == d
    ensures h in ix <==> h in d
  {
    if h in ix {
      assert inputs[ix[h]] == d[ix[h] - 2];
    }
    if h in d {
      var k :| 0 <= k < |d| && d[k] == h;
      assert inputs[k + 2] == h;
    }
  }

  /** One input per distinct content hash, after the table and directory skeletons. */
  method InputTable(rows: seq<Row>, fatHash: Hash, dirsHash: Hash) returns (inputs: seq<Hash>, ix: map<Hash, nat>)
    ensures inputs == [fatHash, dirsHash] + Distinct(rows) && Indexes(ix, inputs)
    ensures forall i :: 0 <= i < |rows| ==> rows[i].hash in ix
  {
    hide Indexes, Mentions;
    inputs, ix := [fatHash, dirsHash], map[];
    NoneIndexed(inputs);
    for n := 0 to |rows|
      invariant inputs == [fatHash, dirsHash] + Distinct(rows[..n]) && Indexes(ix, inputs)
      invariant forall i :: 0 <= i < n ==> rows[i].hash in ix
    {
      var h := rows[n].hash;
      assert rows[..n + 1][..n] == rows[..n];
      InIndex(ix, inputs, Distinct(rows[..n]), h);
      if h !in ix {
        IndexStep(ix, inputs, h);
        ix := ix[h := |inputs|];
        inputs := inputs + [h];
      }
    }
    assert rows[..|rows|] == rows;
  }

  // ---- Segments ----

  /** One layout segment as an `assemble` segment. */
  function MapSegment(s: FatImage.Segment, rows: seq<Row>, ix: map<Hash, nat>): A.Segment
    requires Mappable(s, rows, ix)
  {
    match s
    case Literal(bytes) => A.Literal(bytes)
    case FatWindow(offset, len) => A.BlobRange(0, offset, len)
    case DirsWindow(offset, len) => A.BlobRange(1, offset, len)
    case FileWindow(f, len) => A.BlobRange(ix[rows[f].hash], 0, len)
    case Fill(len) => A.Fill(0, len)
  }

  /** Indices and lengths fit the fields of an `assemble` segment. */
  ghost predicate Mappable(s: FatImage.Segment, rows: seq<Row>, ix: map<Hash, nat>) {
    match s
    case Literal(_) => true
    case FatWindow(offset, len) => offset < TWO_64 && len < TWO_64
    case DirsWindow(offset, len) => offset < TWO_64 && len < TWO_64
    case FileWindow(f, len) => f < |rows| && rows[f].hash in ix && ix[rows[f].hash] < 0x1_0000_0000 && len < TWO_64
    case Fill(len) => len < TWO_64
  }

  function MapSegments(segments: seq<FatImage.Segment>, rows: seq<Row>, ix: map<Hash, nat>): (r: seq<A.Segment>)
    requires forall k :: 0 <= k < |segments| ==> Mappable(segments[k], rows, ix)
    ensures |r| == |segments|
  {
    seq(|segments|, k requires 0 <= k < |segments| => MapSegment(segments[k], rows, ix))
  }

  /** What the sources of the table hold: the two skeletons, then each blob. */
  function Sources(l: FatImage.Fat32Layout, inputs: seq<Hash>, blobs: map<Hash, seq<byte>>): (r: seq<seq<byte>>)
    requires |inputs| >= 2 && forall k :: 2 <= k < |inputs| ==> inputs[k] in blobs
    ensures |r| == |inputs|
  {
    seq(|inputs|, k requires 0 <= k < |inputs| => if k == 0 then l.fat else if k == 1 then l.dirs else blobs[inputs[k]])
  }

  /** Each row's own content: the first `size` bytes of its blob. */
  function ContentsOf(rows: seq<Row>, blobs: map<Hash, seq<byte>>): (r: seq<seq<byte>>)
    requires forall i :: 0 <= i < |rows| ==> rows[i].hash in blobs && rows[i].size <= |blobs[rows[i].hash]|
    ensures |r| == |rows|
  {
    seq(|rows|, i requires 0 <= i < |rows| => blobs[rows[i].hash][..rows[i].size])
  }

  /** One mapped segment denotes what the layout segment renders to, whichever row shares the blob. */
  lemma SegmentAgrees(s: FatImage.Segment, l: FatImage.Fat32Layout, rows: seq<Row>, inputs: seq<Hash>, ix: map<Hash, nat>, blobs: map<Hash, seq<byte>>)
    requires |inputs| >= 2 && Indexes(ix, inputs) && Mappable(s, rows, ix) && forall k :: 2 <= k < |inputs| ==> inputs[k] in blobs
    requires forall i :: 0 <= i < |rows| ==> rows[i].hash in blobs && rows[i].size <= |blobs[rows[i].hash]|
    requires FatImage.InRange(s, l, ContentsOf(rows, blobs))
    ensures A.InRange(MapSegment(s, rows, ix), Sources(l, inputs, blobs))
    ensures A.SegmentBytes(MapSegment(s, rows, ix), Sources(l, inputs, blobs)) == FatImage.Render(s, l, ContentsOf(rows, blobs))
  {
  }

  lemma {:induction false} OutputAgrees(segments: seq<FatImage.Segment>, l: FatImage.Fat32Layout, rows: seq<Row>, inputs: seq<Hash>, ix: map<Hash, nat>,
                                        blobs: map<Hash, seq<byte>>)
    requires |inputs| >= 2 && Indexes(ix, inputs) && forall k :: 2 <= k < |inputs| ==> inputs[k] in blobs
    requires forall k :: 0 <= k < |segments| ==> Mappable(segments[k], rows, ix)
    requires forall i :: 0 <= i < |rows| ==> rows[i].hash in blobs && rows[i].size <= |blobs[rows[i].hash]|
    requires FatImage.AllInRange(segments, l, ContentsOf(rows, blobs))
    ensures A.AllInRange(MapSegments(segments, rows, ix), Sources(l, inputs, blobs))
    ensures A.Output(MapSegments(segments, rows, ix), Sources(l, inputs, blobs)) == FatImage.RenderAll(segments, l, ContentsOf(rows, blobs))
    decreases |segments|
  {
    hide A.InRange, FatImage.InRange, A.SegmentBytes, FatImage.Render, Mappable, MapSegment, ContentsOf, Sources, Indexes;
    if segments != [] {
      var n := |segments| - 1;
      OutputAgrees(segments[..n], l, rows, inputs, ix, blobs);
      SegmentAgrees(segments[n], l, rows, inputs, ix, blobs);
      assert MapSegments(segments, rows, ix)[..n] == MapSegments(segments[..n], rows, ix);
      forall k | 0 <= k <= n ensures A.InRange(MapSegments(segments, rows, ix)[k], Sources(l, inputs, blobs)) {
        if k < n {
          assert A.InRange(MapSegments(segments[..n], rows, ix)[k], Sources(l, inputs, blobs));
        }
      }
    }
  }

  // ---- The mapped parameters are valid ----

  /** What `assemble` asks of a segment: not empty, literals within the cap. */
  ghost predicate Sized(s: FatImage.Segment) {
    FatImage.SegmentLen(s) > 0 && (s.Literal? ==> |s.bytes| <= A.LITERAL_CAP)
  }

  ghost predicate AllSized(segments: seq<FatImage.Segment>) {
    forall k :: 0 <= k < |segments| ==> Sized(segments[k])
  }

  lemma {:induction false} FilesSized(p: FatLayout.Plan, n: nat)
    requires FatLayout.Shaped(p) && n <= |p.files|
    ensures AllSized(FatImage.FileSegments(p, n))
  {
    hide FatImage.Slack;
    if n > 0 {
      FilesSized(p, n - 1);
    }
  }

  /** No segment of a layout is empty and every literal is one sector. */
  lemma LayoutSized(p: FatLayout.Plan)
    requires FatLayout.Fits(p)
    ensures AllSized(FatImage.Segments(p)) && FatImage.Segments(p) != []
  {
    hide FatImage.FileSegments, FatImage.Boot, FatImage.Info, FatImage.Mbr, FatLayout.Used, FatLayout.IsPowerOfTwo, FatLayout.DirCounts, FatLayout.Total;
    FilesSized(p, |p.files|);
    assert FatLayout.TableSectors(FatLayout.Clusters(FatLayout.Used(p))) > 0;
    assert AllSized(FatImage.LeadSegments(p)) && AllSized(FatImage.ReservedSegments(p)) && AllSized(FatImage.TableSegments(p));
    assert AllSized(FatImage.DirsSegments(p)) && AllSized(FatImage.FreeSegments(p));
  }

  lemma {:induction false} LengthWithin(segments: seq<FatImage.Segment>, k: nat)
    requires k < |segments|
    ensures FatImage.SegmentLen(segments[k]) <= FatImage.LengthSum(segments)
  {
    if k < |segments| - 1 {
      LengthWithin(segments[..|segments| - 1], k);
    }
  }

  /** Every window a layout emits starts at the front of its buffer. */
  ghost predicate FromFront(s: FatImage.Segment) {
    match s
    case FatWindow(offset, _) => offset == 0
    case DirsWindow(offset, _) => offset == 0
    case _ => true
  }

  ghost predicate AllFromFront(segments: seq<FatImage.Segment>) {
    forall k :: 0 <= k < |segments| ==> FromFront(segments[k])
  }

  lemma {:induction false} FilesFromFront(p: FatLayout.Plan, n: nat)
    requires FatLayout.Shaped(p) && n <= |p.files|
    ensures AllFromFront(FatImage.FileSegments(p, n))
  {
    hide FatImage.Slack;
    if n > 0 {
      FilesFromFront(p, n - 1);
    }
  }

  lemma LayoutFromFront(p: FatLayout.Plan)
    requires FatLayout.Fits(p)
    ensures AllFromFront(FatImage.Segments(p))
  {
    hide FatImage.FileSegments, FatImage.Boot, FatImage.Info, FatImage.Mbr, FatLayout.Used, FatLayout.IsPowerOfTwo, FatLayout.DirCounts, FatLayout.Total;
    FilesFromFront(p, |p.files|);
    assert AllFromFront(FatImage.LeadSegments(p)) && AllFromFront(FatImage.ReservedSegments(p)) && AllFromFront(FatImage.TableSegments(p));
    assert AllFromFront(FatImage.DirsSegments(p)) && AllFromFront(FatImage.FreeSegments(p));
  }

  /** File windows name files of the input, at their full size. */
  ghost predicate NamesFile(s: FatImage.Segment, files: seq<FileEntry>) {
    s.FileWindow? ==> s.file < |files| && s.len == files[s.file].size
  }

  ghost predicate AllNameFiles(segments: seq<FatImage.Segment>, files: seq<FileEntry>) {
    forall k :: 0 <= k < |segments| ==> NamesFile(segments[k], files)
  }

  lemma {:induction false} FilesNamed(p: FatLayout.Plan, n: nat)
    requires FatLayout.Shaped(p) && n <= |p.files|
    ensures AllNameFiles(FatImage.FileSegments(p, n), p.files)
  {
    hide FatImage.Slack;
    if n > 0 {
      FilesNamed(p, n - 1);
    }
  }

  lemma LayoutNamesFiles(p: FatLayout.Plan)
    requires FatLayout.Fits(p)
    ensures AllNameFiles(FatImage.Segments(p), p.files)
  {
    hide FatImage.FileSegments, FatImage.Boot, FatImage.Info, FatImage.Mbr, FatLayout.Used, FatLayout.IsPowerOfTwo, FatLayout.DirCounts, FatLayout.Total;
    FilesNamed(p, |p.files|);
    assert AllNameFiles(FatImage.LeadSegments(p), p.files) && AllNameFiles(FatImage.ReservedSegments(p), p.files);
    assert AllNameFiles(FatImage.TableSegments(p), p.files) && AllNameFiles(FatImage.DirsSegments(p), p.files) && AllNameFiles(FatImage.FreeSegments(p), p.files);
  }

  lemma SizeWithin64(p: FatLayout.Plan, l: FatImage.Fat32Layout)
    requires FatImage.IsLayout(l, p)
    ensures FatImage.LengthSum(l.segments) == l.geometry.totalSize < TWO_64
  {
    hide FatImage.Segments, FatLayout.IsPowerOfTwo, FatLayout.Used, FatLayout.Placeable, FatLayout.IsFat, FatLayout.DirBlocks, FatLayout.DirCounts;
    FatImage.LengthsSum(p, l);
  }

  /** Every segment of a layout maps to an `assemble` segment. */
  lemma LayoutMaps(p: FatLayout.Plan, l: FatImage.Fat32Layout, rows: seq<Row>, inputs: seq<Hash>, ix: map<Hash, nat>)
    requires FatImage.IsLayout(l, p) && p.files == FilesOf(rows) && Indexes(ix, inputs) && |inputs| <= 0x1_0000_0000
    requires forall i :: 0 <= i < |rows| ==> rows[i].hash in ix
    ensures forall k :: 0 <= k < |l.segments| ==> Mappable(l.segments[k], rows, ix)
  {
    var segments := l.segments;
    assert segments == FatImage.Segments(p) && FatLayout.Fits(p);
    LayoutFromFront(p);
    LayoutNamesFiles(p);
    SizeWithin64(p, l);
    hide *;
    forall k | 0 <= k < |segments| ensures Mappable(segments[k], rows, ix) {
      LengthWithin(segments, k);
      OneMaps(segments, k, rows, inputs, ix);
    }
  }

  lemma OneMaps(segments: seq<FatImage.Segment>, k: nat, rows: seq<Row>, inputs: seq<Hash>, ix: map<Hash, nat>)
    requires k < |segments| && AllFromFront(segments) && AllNameFiles(segments, FilesOf(rows))
    requires Indexes(ix, inputs) && |inputs| <= 0x1_0000_0000 && forall i :: 0 <= i < |rows| ==> rows[i].hash in ix
    requires FatImage.SegmentLen(segments[k]) < TWO_64
    ensures Mappable(segments[k], rows, ix)
  {
    assert FromFront(segments[k]) && NamesFile(segments[k], FilesOf(rows));
  }

  lemma MappedValid(segments: seq<FatImage.Segment>, rows: seq<Row>, ix: map<Hash, nat>)
    requires AllSized(segments) && segments != [] && forall k :: 0 <= k < |segments| ==> Mappable(segments[k], rows, ix)
    ensures A.ValidParams(MapSegments(segments, rows, ix))
  {
    var mapped := MapSegments(segments, rows, ix);
    forall s | s in mapped ensures A.SegmentFault(s).None? {
      var k :| 0 <= k < |mapped| && mapped[k] == s;
      assert Sized(segments[k]);
    }
  }

  // ---- Minting ----

  /** What the recipe carries: ordered input hashes, parameters, and the claimed output size. */
  datatype Minted = Minted(inputs: seq<Hash>, segments: seq<A.Segment>, totalSize: nat)

  ghost predicate Holds(blobs: map<Hash, seq<byte>>, inputs: seq<Hash>) {
    forall k :: 2 <= k < |inputs| ==> inputs[k] in blobs
  }

  ghost predicate LongEnough(rows: seq<Row>, blobs: map<Hash, seq<byte>>) {
    forall i :: 0 <= i < |rows| ==> rows[i].hash in blobs && rows[i].size <= |blobs[rows[i].hash]|
  }

  /** A faithful recipe: valid parameters over its own inputs, materialising to the layout rendered with each row's content. */
  ghost predicate Faithful(m: Minted, l: FatImage.Fat32Layout, rows: seq<Row>, blobs: map<Hash, seq<byte>>, hash: seq<byte> -> Hash) {
    && m.inputs == [hash(l.fat), hash(l.dirs)] + Distinct(rows)
    && Holds(blobs, m.inputs) && LongEnough(rows, blobs)
    && A.ValidParams(m.segments) && A.AllInRange(m.segments, Sources(l, m.inputs, blobs))
    && FatImage.Renders(l.segments, l, ContentsOf(rows, blobs), A.Output(m.segments, Sources(l, m.inputs, blobs)))
    && m.totalSize == l.geometry.totalSize && A.OutputSize(m.segments) == Ok(m.totalSize)
  }

  ghost predicate MintRefused(rows: seq<Row>, params: FatLayout.Params, upper: string -> string,
                              blobs: map<Hash, seq<byte>>, indexed: map<Hash, Option<nat>>, e: ImageError)
  {
    match e
    case Fat32(error) => FatImage.LayoutRefused(FilesOf(rows), params, upper, error)
    case SizeMismatch(h, n) => Mentions(rows, h) && h in blobs && |blobs[h]| == n && h in indexed && indexed[h].Some? && indexed[h].value != n
    case NotResident(n) => n > 0 && exists i :: 0 <= i < |rows| && (rows[i].hash !in blobs || rows[i].hash !in indexed)
    case BadParams(_) => exists i :: 0 <= i < |rows| && rows[i].hash in blobs && |blobs[rows[i].hash]| < rows[i].size
  }

  /** Every row's blob is there and indexed, as long as the index says, and no shorter than the row. */
  ghost predicate InputsSound(rows: seq<Row>, blobs: map<Hash, seq<byte>>, indexed: map<Hash, Option<nat>>) {
    LongEnough(rows, blobs) && forall i :: 0 <= i < |rows| ==> SizeAgrees(rows[i].hash, blobs, indexed)
  }

  predicate SizeAgrees(h: Hash, blobs: map<Hash, seq<byte>>, indexed: map<Hash, Option<nat>>) {
    h in blobs && h in indexed && (indexed[h].Some? ==> indexed[h].value == |blobs[h]|)
  }

  /** The rows make a FAT32 image. */
  ghost predicate Layable(rows: seq<Row>, params: FatLayout.Params, upper: string -> string) {
    FatLayout.ValidClusterSize(params.clusterSize) && Faultless(FilesOf(rows), upper) && FatCapacity.HasRoom(FilesOf(rows), params)
  }

  /** Open each content input: present, indexed, and as long as the index says. */
  method CheckInputs(inputs: seq<Hash>, blobs: map<Hash, seq<byte>>, indexed: map<Hash, Option<nat>>) returns (r: Result<nat, (Hash, nat)>)
    requires |inputs| >= 2
    ensures r.Ok? ==> (r.value == 0 <==> forall k :: 2 <= k < |inputs| ==> inputs[k] in blobs && inputs[k] in indexed)
    ensures r.Ok? && r.value == 0 ==> forall k :: 2 <= k < |inputs| ==> SizeAgrees(inputs[k], blobs, indexed)
    ensures r.Err? ==> exists k :: 2 <= k < |inputs| && inputs[k] == r.error.0 && r.error.0 in blobs && |blobs[r.error.0]| == r.error.1
                         && r.error.0 in indexed && indexed[r.error.0].Some? && indexed[r.error.0].value != r.error.1
  {
    var missing := 0;
    for k := 2 to |inputs|
      invariant missing == 0 <==> forall j :: 2 <= j < k ==> inputs[j] in blobs && inputs[j] in indexed
      invariant forall j :: 2 <= j < k && inputs[j] in blobs && inputs[j] in indexed ==> SizeAgrees(inputs[j], blobs, indexed)
    {
      var h := inputs[k];
      if h !in indexed || h !in blobs {
        missing := missing + 1;
      } else if indexed[h].Some? && indexed[h].value != |blobs[h]| {
        return Err((h, |blobs[h]|));
      }
    }
    return Ok(missing);
  }

  /**
   The pure part of `mint_image`: lay the rows out, build the input table, check
   the inputs and map the segments. `hash` stands for the content hash.
   */
  method Mint(rows: seq<Row>, params: FatLayout.Params, upper: string -> string,
              blobs: map<Hash, seq<byte>>, indexed: map<Hash, Option<nat>>, hash: seq<byte> -> Hash)
    returns (r: Result<Minted, ImageError>, ghost p: FatLayout.Plan, ghost l: FatImage.Fat32Layout)
    requires |rows| < 0xFFFF_FFFF
    ensures r.Ok? ==> FatImage.PlanOf(p, FilesOf(rows), params, upper) && FatImage.IsLayout(l, p) && Faithful(r.value, l, rows, blobs, hash)
    ensures r.Err? ==> MintRefused(rows, params, upper, blobs, indexed, r.error)
    ensures r.Ok? <==> Layable(rows, params, upper) && InputsSound(rows, blobs, indexed)
  {
    r, p, l := MintRecipe(rows, params, upper, blobs, indexed, hash);
    hide FatImage.PlanOf, FatImage.IsLayout, Faithful, Layable;
    if r.Err? && !r.error.Fat32? {
      UnsoundInputs(rows, params, upper, blobs, indexed, r.error);
    }
  }

  /** A refusal after the layout is about the inputs. */
  lemma UnsoundInputs(rows: seq<Row>, params: FatLayout.Params, upper: string -> string, blobs: map<Hash, seq<byte>>, indexed: map<Hash, Option<nat>>,
                      e: ImageError)
    requires MintRefused(rows, params, upper, blobs, indexed, e) && !e.Fat32?
    ensures !InputsSound(rows, blobs, indexed)
  {
    hide FatImage.LayoutRefused;
  }

  method MintRecipe(rows: seq<Row>, params: FatLayout.Params, upper: string -> string,
                    blobs: map<Hash, seq<byte>>, indexed: map<Hash, Option<nat>>, hash: seq<byte> -> Hash)
    returns (r: Result<Minted, ImageError>, ghost p: FatLayout.Plan, ghost l: FatImage.Fat32Layout)
    requires |rows| < 0xFFFF_FFFF
    ensures r.Ok? ==> FatImage.PlanOf(p, FilesOf(rows), params, upper) && FatImage.IsLayout(l, p) && Faithful(r.value, l, rows, blobs, hash)
    ensures r.Ok? ==> Layable(rows, params, upper) && InputsSound(rows, blobs, indexed)
    ensures r.Err? ==> MintRefused(rows, params, upper, blobs, indexed, r.error) && (r.error.Fat32? ==> !Layable(rows, params, upper))
  {
    hide FatImage.PlanOf, FatImage.IsLayout, FatImage.LayoutRefused, Faithful, Indexes, Distinct, Mentions;
    hide Faultless, FatCapacity.HasRoom, FatLayout.ValidClusterSize, InputsSound, SizeAgrees;
    var laid, plan := FatImage.Layout(FilesOf(rows), params, upper);
    p := plan;
    l := FatImage.Fat32Layout(FatImage.Geometry(0, 0, 0, 0, 0, 0, 0, 0, 0), [], [], []);
    if laid.Err? {
      return Err(Fat32(laid.error)), p, l;
    }
    var layout := laid.value;
    l := layout;
    var inputs, ix := InputTable(rows, hash(layout.fat), hash(layout.dirs));
    DistinctCount(rows);
    var checked := CheckInputs(inputs, blobs, indexed);
    if checked.Err? {
      InputMentioned(rows, inputs, checked.error.0);
      return Err(SizeMismatch(checked.error.0, checked.error.1)), p, l;
    }
    if checked.value > 0 {
      SomeMissing(rows, inputs, blobs, indexed);
      return Err(NotResident(checked.value)), p, l;
    }
    PlanFiles(p, FilesOf(rows), params, upper);
    LayoutMaps(p, layout, rows, inputs, ix);
    var segments := MapSegments(layout.segments, rows, ix);
    RowsHeld(rows, inputs, blobs);
    var bad := A.ValidateSources(segments, Sources(layout, inputs, blobs));
    if bad.Some? {
      RangeFault(p, layout, rows, inputs, ix, blobs);
      return Err(BadParams(bad.value)), p, l;
    }
    RowsLongEnough(p, layout, rows, inputs, ix, blobs);
    RowsSound(rows, inputs, blobs, indexed);
    r := Ok(Minted(inputs, segments, layout.geometry.totalSize));
    IsFaithful(p, layout, rows, inputs, ix, blobs, hash);
  }

  lemma {:induction false} DistinctCount(rows: seq<Row>)
    ensures |Distinct(rows)| <= |rows|
  {
    if rows != [] {
      DistinctCount(rows[..|rows| - 1]);
    }
  }

  lemma InputMentioned(rows: seq<Row>, inputs: seq<Hash>, h: Hash)
    requires |inputs| == |Distinct(rows)| + 2 && inputs[2..] == Distinct(rows) && exists k :: 2 <= k < |inputs| && inputs[k] == h
    ensures Mentions(rows, h)
  {
    hide Mentions;
    var k :| 2 <= k < |inputs| && inputs[k] == h;
    assert Distinct(rows)[k - 2] == h;
  }

  lemma SomeMissing(rows: seq<Row>, inputs: seq<Hash>, blobs: map<Hash, seq<byte>>, indexed: map<Hash, Option<nat>>)
    requires |inputs| == |Distinct(rows)| + 2 && inputs[2..] == Distinct(rows)
    requires !forall k :: 2 <= k < |inputs| ==> inputs[k] in blobs && inputs[k] in indexed
    ensures exists i :: 0 <= i < |rows| && (rows[i].hash !in blobs || rows[i].hash !in indexed)
  {
    var k :| 2 <= k < |inputs| && !(inputs[k] in blobs && inputs[k] in indexed);
    InputMentioned(rows, inputs, inputs[k]);
  }

  lemma PlanFiles(p: FatLayout.Plan, files: seq<FileEntry>, params: FatLayout.Params, upper: string -> string)
    requires FatImage.PlanOf(p, files, params, upper)
    ensures p.files == files
  {
  }

  lemma RowsHeld(rows: seq<Row>, inputs: seq<Hash>, blobs: map<Hash, seq<byte>>)
    requires |inputs| == |Distinct(rows)| + 2 && inputs[2..] == Distinct(rows) && forall k :: 2 <= k < |inputs| ==> inputs[k] in blobs
    ensures forall i :: 0 <= i < |rows| ==> rows[i].hash in blobs
  {
    forall i | 0 <= i < |rows| ensures rows[i].hash in blobs {
      assert Mentions(rows, rows[i].hash);
      var k :| 0 <= k < |Distinct(rows)| && Distinct(rows)[k] == rows[i].hash;
      assert inputs[k + 2] == rows[i].hash;
    }
  }

  /** With every blob long enough, the mapped parameters are in range and render the layout. */
  lemma LongRenders(p: FatLayout.Plan, l: FatImage.Fat32Layout, rows: seq<Row>, inputs: seq<Hash>, ix: map<Hash, nat>, blobs: map<Hash, seq<byte>>)
    requires FatImage.IsLayout(l, p) && p.files == FilesOf(rows) && |inputs| >= 2 && Indexes(ix, inputs) && Holds(blobs, inputs)
    requires forall k :: 0 <= k < |l.segments| ==> Mappable(l.segments[k], rows, ix)
    requires LongEnough(rows, blobs)
    ensures A.AllInRange(MapSegments(l.segments, rows, ix), Sources(l, inputs, blobs))
    ensures FatImage.Renders(l.segments, l, ContentsOf(rows, blobs), A.Output(MapSegments(l.segments, rows, ix), Sources(l, inputs, blobs)))
  {
    hide FatImage.IsLayout, FatImage.RenderAll, FatImage.AllInRange, A.AllInRange, A.Output, Mappable, Indexes, Distinct;
    var contents := ContentsOf(rows, blobs);
    assert FatImage.FitsFiles(contents, p.files);
    FatImage.LayoutRenders(p, l, contents);
    OutputAgrees(l.segments, l, rows, inputs, ix, blobs);
  }

  lemma RowsSound(rows: seq<Row>, inputs: seq<Hash>, blobs: map<Hash, seq<byte>>, indexed: map<Hash, Option<nat>>)
    requires |inputs| == |Distinct(rows)| + 2 && inputs[2..] == Distinct(rows) && LongEnough(rows, blobs)
    requires forall k :: 2 <= k < |inputs| ==> SizeAgrees(inputs[k], blobs, indexed)
    ensures InputsSound(rows, blobs, indexed)
  {
    hide SizeAgrees;
    forall i | 0 <= i < |rows| ensures SizeAgrees(rows[i].hash, blobs, indexed) {
      assert Mentions(rows, rows[i].hash);
      var k :| 0 <= k < |Distinct(rows)| && Distinct(rows)[k] == rows[i].hash;
      assert inputs[k + 2] == rows[i].hash;
    }
  }

  lemma RangeFault(p: FatLayout.Plan, l: FatImage.Fat32Layout, rows: seq<Row>, inputs: seq<Hash>, ix: map<Hash, nat>, blobs: map<Hash, seq<byte>>)
    requires FatImage.IsLayout(l, p) && p.files == FilesOf(rows) && |inputs| >= 2 && Indexes(ix, inputs) && Holds(blobs, inputs)
    requires forall k :: 0 <= k < |l.segments| ==> Mappable(l.segments[k], rows, ix)
    requires forall i :: 0 <= i < |rows| ==> rows[i].hash in blobs
    ensures !A.AllInRange(MapSegments(l.segments, rows, ix), Sources(l, inputs, blobs)) ==>
              exists i :: 0 <= i < |rows| && rows[i].hash in blobs && |blobs[rows[i].hash]| < rows[i].size
  {
    hide FatImage.IsLayout, A.AllInRange, Mappable, Indexes, FatImage.Renders;
    if LongEnough(rows, blobs) {
      LongRenders(p, l, rows, inputs, ix, blobs);
    }
  }

  lemma FileSegmentOf(p: FatLayout.Plan, i: nat)
    requires FatLayout.Shaped(p) && i < |p.files|
    ensures p.files[i].size > 0 ==> FatImage.FileWindow(i, p.files[i].size) in FatImage.FileSegment(p, i)
  {
    hide FatImage.Slack;
  }

  lemma {:induction false} FileWindowListed(p: FatLayout.Plan, n: nat, i: nat)
    requires FatLayout.Shaped(p) && i < n <= |p.files| && p.files[i].size > 0
    ensures FatImage.FileWindow(i, p.files[i].size) in FatImage.FileSegments(p, n)
  {
    FileSegmentOf(p, n - 1);
    hide FatImage.FileSegment, FatLayout.Shaped;
    if i < n - 1 {
      FileWindowListed(p, n - 1, i);
    }
  }

  lemma WindowInLayout(p: FatLayout.Plan, l: FatImage.Fat32Layout, i: nat)
    requires FatImage.IsLayout(l, p) && i < |p.files| && p.files[i].size > 0
    ensures FatImage.FileWindow(i, p.files[i].size) in l.segments
  {
    hide FatImage.FileSegments, FatImage.LeadSegments, FatImage.ReservedSegments, FatImage.TableSegments, FatImage.DirsSegments, FatImage.FreeSegments,
         FatLayout.Placeable, FatLayout.IsFat, FatImage.GeometryOf, FatLayout.DirBlocks, FatLayout.IsPowerOfTwo, FatLayout.Used;
    FileWindowListed(p, |p.files|, i);
  }

  /** In range, every row's blob reaches the row's size. */
  lemma RowsLongEnough(p: FatLayout.Plan, l: FatImage.Fat32Layout, rows: seq<Row>, inputs: seq<Hash>, ix: map<Hash, nat>, blobs: map<Hash, seq<byte>>)
    requires FatImage.IsLayout(l, p) && p.files == FilesOf(rows) && |inputs| >= 2 && Indexes(ix, inputs) && Holds(blobs, inputs)
    requires forall k :: 0 <= k < |l.segments| ==> Mappable(l.segments[k], rows, ix)
    requires forall i :: 0 <= i < |rows| ==> rows[i].hash in blobs
    requires A.AllInRange(MapSegments(l.segments, rows, ix), Sources(l, inputs, blobs))
    ensures LongEnough(rows, blobs)
  {
    hide FatImage.IsLayout;
    forall i | 0 <= i < |rows| ensures rows[i].size <= |blobs[rows[i].hash]| {
      if rows[i].size > 0 {
        WindowInLayout(p, l, i);
        var k :| 0 <= k < |l.segments| && l.segments[k] == FatImage.FileWindow(i, rows[i].size);
        assert Mappable(l.segments[k], rows, ix);
        assert A.InRange(MapSegments(l.segments, rows, ix)[k], Sources(l, inputs, blobs));
      }
    }
  }

  lemma IsFaithful(p: FatLayout.Plan, l: FatImage.Fat32Layout, rows: seq<Row>, inputs: seq<Hash>, ix: map<Hash, nat>,
                   blobs: map<Hash, seq<byte>>, hash: seq<byte> -> Hash)
    requires FatImage.IsLayout(l, p) && p.files == FilesOf(rows) && Indexes(ix, inputs) && Holds(blobs, inputs) && LongEnough(rows, blobs)
    requires inputs == [hash(l.fat), hash(l.dirs)] + Distinct(rows)
    requires forall k :: 0 <= k < |l.segments| ==> Mappable(l.segments[k], rows, ix)
    ensures Faithful(Minted(inputs, MapSegments(l.segments, rows, ix), l.geometry.totalSize), l, rows, blobs, hash)
  {
    SizedLayout(p, l);
    hide FatImage.IsLayout, FatImage.RenderAll, FatImage.AllInRange, A.AllInRange, A.ValidParams, Mappable, Indexes, Distinct, AllSized;
    LongRenders(p, l, rows, inputs, ix, blobs);
    MappedValid(l.segments, rows, ix);
    SizeWithin64(p, l);
  }

  lemma SizedLayout(p: FatLayout.Plan, l: FatImage.Fat32Layout)
    requires FatImage.IsLayout(l, p)
    ensures AllSized(l.segments) && l.segments != []
  {
    LayoutSized(p);
    hide FatImage.Segments, AllSized;
  }

  /**
   End to end: materialising a minted recipe over its inputs gives an image in
   which a reader finds every row exactly once, at its path, with the content of
   its own blob cut to the row's size.
   */
  lemma MintReadsBack(m: Minted, p: FatLayout.Plan, l: FatImage.Fat32Layout, rows: seq<Row>, params: FatLayout.Params, upper: string -> string,
                      blobs: map<Hash, seq<byte>>, hash: seq<byte> -> Hash)
    returns (order: seq<nat>)
    requires FatImage.PlanOf(p, FilesOf(rows), params, upper) && FatImage.IsLayout(l, p) && Faithful(m, l, rows, blobs, hash)
    requires FatRead.PlainLabel(params.volume)
    ensures FatRead.NoRepeats(order) && FatRead.Below(order, |rows|) && forall i :: 0 <= i < |rows| ==> i in order
    ensures FatRead.ReadImage(A.Output(m.segments, Sources(l, m.inputs, blobs)))
         == Some(FatRead.SeenOf(FilesOf(rows), ContentsOf(rows, blobs), order))
  {
    hide FatImage.IsLayout, FatImage.PlanOf, FatRead.ReadImage, FatRead.SeenOf, FatRead.PlainLabel, FatImage.Renders, A.ValidParams, Distinct;
    var image := A.Output(m.segments, Sources(l, m.inputs, blobs));
    assert FatImage.FitsFiles(ContentsOf(rows, blobs), FilesOf(rows));
    order := FatRead.ReadBack(p, l, FilesOf(rows), params, upper, ContentsOf(rows, blobs), image);
  }
}
