/**
 View snapshots (viewsnap.rs): the manifest of a view as one byte string, its rows
 sorted by path. A manifest encodes exactly when its paths are canonical and distinct.
 */
module ViewManifest {
  import opened Wrappers
  import opened Bytes
  import opened Cbor
  import opened Objects
  import opened SnapshotObject
  import ViewPaths

  const VERSION: u32 := 2
  /** The older encoding, read but never written: it carries a time under key 1. */
  const VERSION_V1: u32 := 1
  const MOST_OPAQUE: nat := 2

  datatype ViewSource = ViewSource(provider: Utf8, system: Utf8, datBlob: Hash32, revision: u64)

  datatype ViewRow = ViewRow(path: Utf8, hash: Hash32, size: u64, seek: byte)

  datatype ViewSnapshot = ViewSnapshot(createdAtV1: u64, viewName: Utf8, sources: seq<ViewSource>, rows: seq<ViewRow>)

  function ViewSourceFields(x: ViewSource): (r: seq<Option<Value>>)
    ensures |r| == 4
  {
    [Some(Text(x.provider)), Some(Text(x.system)), Some(Value.Bytes(x.datBlob)), Some(Uint(x.revision))]
  }

  function ReadViewSource(f: seq<Option<Value>>): Option<ViewSource> {
    if |f| != 4 || AsText(f[0]).None? || AsText(f[1]).None? || AsHash(f[2]).None? || AsUint(f[3]).None? then None
    else Some(ViewSource(AsText(f[0]).value, AsText(f[1]).value, AsHash(f[2]).value, AsUint(f[3]).value))
  }

  function RowFields(x: ViewRow): (r: seq<Option<Value>>)
    ensures |r| == 4
  {
    [Some(Text(x.path)), Some(Value.Bytes(x.hash)), Some(Uint(x.size)), Some(Uint(x.seek))]
  }

  function ReadRow(f: seq<Option<Value>>): Option<ViewRow> {
    if |f| != 4 || AsText(f[0]).None? || AsHash(f[1]).None? || AsUint(f[2]).None? || AsUint(f[3]).None? || AsUint(f[3]).value >= 0x100 then None
    else Some(ViewRow(AsText(f[0]).value, AsHash(f[1]).value, AsUint(f[2]).value, AsUint(f[3]).value))
  }

  lemma ViewSourcesReadBack()
    ensures ReadsBack(ViewSourceFields, ReadViewSource, 4) && Flat(ViewSourceFields)
  {
    forall f: seq<Option<Value>>, x | |f| == 4 ensures Inverse(ViewSourceFields, ReadViewSource, f, x) {
      if ReadViewSource(f) == Some(x) {
        assert f == ViewSourceFields(x);
      }
    }
  }

  lemma RowsReadBack()
    ensures ReadsBack(RowFields, ReadRow, 4) && Flat(RowFields)
  {
    forall f: seq<Option<Value>>, x | |f| == 4 ensures Inverse(RowFields, ReadRow, f, x) {
      if ReadRow(f) == Some(x) {
        assert f == RowFields(x);
      }
    }
  }

  function PathKey(x: ViewRow): seq<byte> {
    x.path
  }

  /** What both directions demand of a row. */
  predicate RowOk(x: ViewRow) {
    ViewPaths.IsCanonical(x.path) && x.seek <= MOST_OPAQUE
  }

  /** The payload map's fields: no time, a name, sources and rows. */
  function ViewFields(viewName: Utf8, sources: seq<ViewSource>, rows: seq<ViewRow>): (r: seq<Option<Value>>)
    ensures |r| == 4
  {
    [None, Some(Text(viewName)), Some(Array(Records(sources, ViewSourceFields))), Some(Array(Records(rows, RowFields)))]
  }

  ghost predicate ViewFits(x: ViewSnapshot) {
    |x.viewName| < TWO_64 && RowsFit(x.sources, ViewSourceFields) && RowsFit(x.rows, RowFields)
  }

  lemma FieldsAreOk(x: ViewSnapshot, rows: seq<ViewRow>)
    requires ViewFits(x) && RowsFit(rows, RowFields)
    ensures Canonical(FieldMap(ViewFields(x.viewName, x.sources, rows))) && Fits(FieldMap(ViewFields(x.viewName, x.sources, rows)))
    ensures HeightAtMost(FieldMap(ViewFields(x.viewName, x.sources, rows)), MAX_DEPTH)
  {
    RecordsOk(x.sources, ViewSourceFields);
    RecordsOk(rows, RowFields);
    var name := Text(x.viewName);
    assert Canonical(name) && Fits(name) && HeightAtMost(name, 2);
    hide FieldMap, Records, RowsFit, Canonical, Fits, HeightAtMost;
    var fields := ViewFields(x.viewName, x.sources, rows);
    assert FieldsOk(fields, 2);
    FieldMapOk(fields, 2);
    HeightsTo(FieldMap(fields), 3, MAX_DEPTH);
  }

  function EncodedView(x: ViewSnapshot, rows: seq<ViewRow>): seq<byte>
    requires ViewFits(x) && RowsFit(rows, RowFields)
  {
    FieldsAreOk(x, rows);
    CanonicalEncodes(FieldMap(ViewFields(x.viewName, x.sources, rows)));
    Header(ViewSnapshotKind, VERSION) + Encode(FieldMap(ViewFields(x.viewName, x.sources, rows))).value
  }

  /** `ViewSnapshot::encode`: rows are sorted, and exactly distinct canonical paths with known seek classes are accepted. */
  method EncodeView(x: ViewSnapshot) returns (r: Result<seq<byte>, SnapshotError>)
    requires ViewFits(x)
    ensures r.Ok? <==> Ascend(SortRows(x.rows, PathKey), PathKey) && AllOk(x.rows, RowOk)
    ensures r.Ok? ==> RowsFit(SortRows(x.rows, PathKey), RowFields) && r.value == EncodedView(x, SortRows(x.rows, PathKey))
  {
    hide RowsFit, Ascend, AscendWeakly, AllOk, ViewFields, FieldMap;
    var sorted := SortRows(x.rows, PathKey);
    SortOrders(x.rows, PathKey);
    SortedFits(x.rows, RowFields, PathKey, RowOk);
    var duplicate := HasDuplicate(sorted, PathKey);
    if duplicate {
      return Err(Invalid("duplicate path in manifest"));
    }
    var fine := CheckRows(sorted, RowOk);
    if !fine {
      return Err(Invalid("row"));
    }
    FieldsAreOk(x, sorted);
    CanonicalEncodes(FieldMap(ViewFields(x.viewName, x.sources, sorted)));
    var body := EncodeValue(FieldMap(ViewFields(x.viewName, x.sources, sorted)));
    return Ok(Header(ViewSnapshotKind, VERSION) + body.value);
  }

  ghost predicate DistinctPaths(rows: seq<ViewRow>) {
    forall i, j :: 0 <= i < j < |rows| ==> rows[i].path != rows[j].path
  }

  /** Sorting by path finds a repeated path exactly when there is one. */
  lemma DistinctAscends(rows: seq<ViewRow>)
    ensures DistinctPaths(rows) <==> Ascend(SortRows(rows, PathKey), PathKey)
  {
    SortOrders(rows, PathKey);
    var sorted := SortRows(rows, PathKey);
    hide Before, SortRows;
    if DistinctPaths(rows) {
      forall i, j | 0 <= i < j < |sorted| ensures Before(PathKey(sorted[i]), PathKey(sorted[j])) {
        BeforeTotal(PathKey(sorted[i]), PathKey(sorted[j]));
        if PathKey(sorted[i]) == PathKey(sorted[j]) {
          SamePathTwice(rows, sorted, i, j);
        }
      }
    }
    if Ascend(sorted, PathKey) {
      forall i, j | 0 <= i < j < |rows| ensures rows[i].path != rows[j].path {
        TwoPlaces(rows, sorted, PathKey, i, j);
      }
    }
  }

  lemma SamePathTwice(rows: seq<ViewRow>, sorted: seq<ViewRow>, i: nat, j: nat)
    requires DistinctPaths(rows) && multiset(sorted) == multiset(rows) && i < j < |sorted|
    ensures sorted[i].path != sorted[j].path
  {
    var (x, y) := (sorted[i], sorted[j]);
    assert x in multiset(rows) && y in multiset(rows);
    var p :| 0 <= p < |rows| && rows[p] == x;
    var q :| 0 <= q < |rows| && rows[q] == y;
    RowOnce(rows, p);
    if x == y {
      TwiceIn(sorted, i, j);
    }
  }

  lemma RowOnce(rows: seq<ViewRow>, p: nat)
    requires DistinctPaths(rows) && p < |rows|
    ensures multiset(rows)[rows[p]] == 1
  {
    assert rows == rows[..p] + [rows[p]] + rows[p + 1..];
    assert rows[p] !in rows[..p] && rows[p] !in rows[p + 1..];
  }

  // ---- Decoding ----

  /** What decoded fields say: an absent field reads as its empty value, and only version 1 may carry a time. */
  ghost predicate Says(f: seq<Option<Value>>, version: nat, x: ViewSnapshot)
    requires |f| == 4
  {
    && f[0] == (if f[0].Some? then Some(Uint(x.createdAtV1)) else None) && (f[0].None? ==> x.createdAtV1 == 0) && (f[0].Some? ==> version == VERSION_V1)
    && f[1] == (if f[1].Some? then Some(Text(x.viewName)) else None) && (f[1].None? ==> x.viewName == [])
    && f[2] == (if f[2].Some? then Some(Array(Records(x.sources, ViewSourceFields))) else None) && (f[2].None? ==> x.sources == [])
    && f[3] == (if f[3].Some? then Some(Array(Records(x.rows, RowFields))) else None) && (f[3].None? ==> x.rows == [])
  }

  /** The bytes are a header of a known version and the canonical map of fields that say the snapshot. */
  ghost predicate Spells(bytes: seq<byte>, version: u32, f: seq<Option<Value>>, x: ViewSnapshot) {
    && |f| == 4 && (version == VERSION || version == VERSION_V1) && Says(f, version, x)
    && Header(ViewSnapshotKind, version) <= bytes && Decode(bytes[|Header(ViewSnapshotKind, version)|..]) == Ok(FieldMap(f))
    && Ascend(x.rows, PathKey) && AllOk(x.rows, RowOk)
  }

  method ReadFields(f: seq<Option<Value>>, version: nat) returns (r: Option<ViewSnapshot>)
    requires |f| == 4 && forall k :: 0 <= k < 4 && f[k].Some? ==> Canonical(f[k].value)
    ensures forall x :: r == Some(x) <==> Says(f, version, x)
  {
    hide Canonical, ReadsBack, Records, Flat;
    ViewSourcesReadBack();
    RowsReadBack();
    var sources := RecordsFrom(f[2], ViewSourceFields, ReadViewSource, 4);
    var rows := RecordsFrom(f[3], RowFields, ReadRow, 4);
    if (f[0].Some? && (!f[0].value.Uint? || version != VERSION_V1)) || (f[1].Some? && !f[1].value.Text?)
       || (f[2].Some? && sources.None?) || (f[3].Some? && rows.None?) {
      return None;
    }
    r := Some(ViewSnapshot(if f[0].Some? then f[0].value.n else 0, if f[1].Some? then f[1].value.text else [],
                           if f[2].Some? then sources.value else [], if f[3].Some? then rows.value else []));
  }

  /** `ViewSnapshot::decode`: succeeds on exactly the spellings of a snapshot, with that snapshot. */
  method DecodeView(bytes: seq<byte>) returns (r: Result<ViewSnapshot, SnapshotError>)
    ensures forall x, version, f :: Spells(bytes, version, f, x) ==> r == Ok(x)
    ensures r.Ok? ==> exists version, f :: Spells(bytes, version, f, r.value)
  {
    hide Header, Decode, FieldMap, Says, Ascend, AllOk, Canonical;
    var sniffed := Sniff(bytes);
    if sniffed.None? || sniffed.value.0 != ViewSnapshotKind {
      return Err(WrongKind("viewsnap"));
    }
    var version := sniffed.value.1;
    if version != VERSION && version != VERSION_V1 {
      return Err(Version("viewsnap", version));
    }
    var body := bytes[sniffed.value.2..];
    var value := DecodeInput(body);
    if value.Err? {
      return Err(BadCbor(value.error));
    }
    DecodeExact(body, value.value);
    var scanned := FieldsOf(value.value, 4);
    if scanned.None? {
      return Err(Invalid("unknown payload key"));
    }
    ScannedCanonical(value.value, scanned.value);
    var x := ReadFields(scanned.value, version);
    if x.None? {
      return Err(Invalid("field"));
    }
    var ascending := IsAscending(x.value.rows, PathKey);
    if !ascending {
      return Err(Invalid("manifest rows not sorted by path"));
    }
    var fine := CheckRows(x.value.rows, RowOk);
    if !fine {
      return Err(Invalid("non-canonical manifest row"));
    }
    assert Spells(bytes, version, scanned.value, x.value);
    return Ok(x.value);
  }

  /** Decoding an encoded manifest gives it back with its rows in path order and no time. */
  lemma EncodedSpells(x: ViewSnapshot, rows: seq<ViewRow>)
    requires ViewFits(x) && RowsFit(rows, RowFields) && Ascend(rows, PathKey) && AllOk(rows, RowOk)
    ensures Spells(EncodedView(x, rows), VERSION, ViewFields(x.viewName, x.sources, rows), ViewSnapshot(0, x.viewName, x.sources, rows))
  {
    FieldsAreOk(x, rows);
    var fields := ViewFields(x.viewName, x.sources, rows);
    CanonicalEncodes(FieldMap(fields));
    assert Says(fields, VERSION, ViewSnapshot(0, x.viewName, x.sources, rows));
    hide Header, FieldMap, Encode, Decode, Says, RowsFit, Ascend, AllOk, ViewFields, Canonical, Fits, HeightAtMost;
    DecodeExact(Encode(FieldMap(fields)).value, FieldMap(fields));
    var bytes := EncodedView(x, rows);
    assert bytes[|Header(ViewSnapshotKind, VERSION)|..] == Encode(FieldMap(fields)).value;
  }

  /** Encode, then decode: the rows come back sorted, whatever order they went in with. */
  method RoundTrip(x: ViewSnapshot) returns (r: Result<ViewSnapshot, SnapshotError>)
    requires ViewFits(x) && DistinctPaths(x.rows) && AllOk(x.rows, RowOk)
    ensures r == Ok(ViewSnapshot(0, x.viewName, x.sources, SortRows(x.rows, PathKey)))
  {
    hide Spells, DistinctPaths, Ascend, AllOk, RowsFit, EncodedView;
    DistinctAscends(x.rows);
    SortedFits(x.rows, RowFields, PathKey, RowOk);
    var bytes := EncodeView(x);
    EncodedSpells(x, SortRows(x.rows, PathKey));
    r := DecodeView(bytes.value);
  }

  /** Decoding is not injective: a payload without a name decodes like one with an empty name. */
  lemma MissingNameReadsEmpty(x: ViewSnapshot)
    requires ViewFits(x) && x.createdAtV1 == 0 && x.viewName == [] && Ascend(x.rows, PathKey) && AllOk(x.rows, RowOk)
    ensures exists a, b, f, g :: a != b && Spells(a, VERSION, f, x) && Spells(b, VERSION, g, x)
  {
    var named := ViewFields(x.viewName, x.sources, x.rows);
    var unnamed := named[1 := None];
    FieldsAreOk(x, x.rows);
    UnnamedOk(x);
    CanonicalEncodes(FieldMap(unnamed));
    var a := EncodedView(x, x.rows);
    var b := Header(ViewSnapshotKind, VERSION) + Encode(FieldMap(unnamed)).value;
    EncodedSpells(x, x.rows);
    assert Says(unnamed, VERSION, x);
    assert named != unnamed;
    EntriesDiffer(named, unnamed);
    hide Header, FieldMap, Encode, Decode, Says, RowsFit, Ascend, AllOk, ViewFields, Canonical, Fits, HeightAtMost, EncodedView, ViewFits;
    DecodeExact(Encode(FieldMap(unnamed)).value, FieldMap(unnamed));
    assert b[|Header(ViewSnapshotKind, VERSION)|..] == Encode(FieldMap(unnamed)).value;
    assert Spells(b, VERSION, unnamed, x);
  }

  /** Bytes start with the header of one version only. */
  lemma OneVersion(bytes: seq<byte>)
    ensures !(Header(ViewSnapshotKind, VERSION) <= bytes && Header(ViewSnapshotKind, VERSION_V1) <= bytes)
  {
    TagAscii(ViewSnapshotKind);
    assert Digits(1) == [0x31] && Digits(2) == [0x32];
    var front := Ascii("datboi/") + Ascii(Tag(ViewSnapshotKind)) + [SLASH];
    hide Tag, Ascii, Digits;
    assert Header(ViewSnapshotKind, VERSION)[|front|] == 0x32;
    assert Header(ViewSnapshotKind, VERSION_V1)[|front|] == 0x31;
  }

  /** Whatever decodes is of a size that encodes. */
  lemma SpelledFits(f: seq<Option<Value>>, version: nat, x: ViewSnapshot)
    requires |f| == 4 && Says(f, version, x) && Fits(FieldMap(f))
    ensures ViewFits(x)
  {
    ViewSourcesReadBack();
    RowsReadBack();
    FieldFits(f);
    assert f[1].Some? ==> Fits(f[1].value);
    assert f[2].Some? ==> Fits(f[2].value);
    assert f[3].Some? ==> Fits(f[3].value);
    hide FieldMap, ReadsBack, ReadRow, ReadViewSource;
    ListFitsBack(x.sources, ViewSourceFields);
    ListFitsBack(x.rows, RowFields);
  }

  /**
   Decoding and encoding again gives the same bytes back exactly for the current
   version with its name, sources and rows all there: a version 1 manifest, and one
   that leaves an empty field out, come back as other bytes.
   */
  lemma ReencodesExactly(b: seq<byte>, version: u32, f: seq<Option<Value>>, x: ViewSnapshot)
    requires Spells(b, version, f, x)
    ensures ViewFits(x)
    ensures b == EncodedView(x, x.rows) <==> version == VERSION && f[1].Some? && f[2].Some? && f[3].Some?
  {
    var head, again := Header(ViewSnapshotKind, version), Header(ViewSnapshotKind, VERSION);
    var body := b[|head|..];
    OneVersion(b);
    FieldsFull(f, version, x);
    hide Header, FieldMap, Decode, RowsFit, Ascend, AllOk, Canonical, Fits, HeightAtMost, Says, ViewFields, EncodedView;
    DecodeExact(body, FieldMap(f));
    SpelledFits(f, version, x);
    SameBody(body, f, x);
    assert b == head + body;
    assert b == EncodedView(x, x.rows) ==> again <= b;
    assert EncodedView(x, x.rows) == again + EncodedView(x, x.rows)[|again|..];
  }

  /** Fields say all there is of a snapshot of the current version exactly when none but the time is absent. */
  lemma FieldsFull(f: seq<Option<Value>>, version: u32, x: ViewSnapshot)
    requires |f| == 4 && Says(f, version, x)
    ensures f == ViewFields(x.viewName, x.sources, x.rows) <==> f[0].None? && f[1].Some? && f[2].Some? && f[3].Some?
    ensures version == VERSION ==> f[0].None?
  {
  }

  lemma SameBody(body: seq<byte>, f: seq<Option<Value>>, x: ViewSnapshot)
    requires |f| == 4 && Decode(body) == Ok(FieldMap(f)) && ViewFits(x) && RowsFit(x.rows, RowFields)
    ensures var again := Header(ViewSnapshotKind, VERSION);
            && again <= EncodedView(x, x.rows)
            && (body == EncodedView(x, x.rows)[|again|..] <==> f == ViewFields(x.viewName, x.sources, x.rows))
  {
    FieldsAreOk(x, x.rows);
    hide FieldMap, Header, Encode, Decode, RowsFit, Canonical, Fits, HeightAtMost, ViewFits, ViewFields;
    var full := ViewFields(x.viewName, x.sources, x.rows);
    CanonicalEncodes(FieldMap(full));
    DecodeExact(body, FieldMap(f));
    DecodeExact(Encode(FieldMap(full)).value, FieldMap(full));
    var again := Header(ViewSnapshotKind, VERSION);
    assert (again + Encode(FieldMap(full)).value)[|again|..] == Encode(FieldMap(full)).value;
    if f != full {
      EntriesDiffer(f, full);
    }
  }

  lemma EntriesDiffer(f: seq<Option<Value>>, g: seq<Option<Value>>)
    requires |f| == |g| < TWO_64 && f != g
    ensures FieldMap(f) != FieldMap(g)
  {
    if FieldMap(f) == FieldMap(g) {
      EntriesInjective(f, g);
    }
  }

  lemma UnnamedOk(x: ViewSnapshot)
    requires ViewFits(x)
    ensures Canonical(FieldMap(ViewFields(x.viewName, x.sources, x.rows)[1 := None])) && Fits(FieldMap(ViewFields(x.viewName, x.sources, x.rows)[1 := None]))
    ensures HeightAtMost(FieldMap(ViewFields(x.viewName, x.sources, x.rows)[1 := None]), MAX_DEPTH)
  {
    RecordsOk(x.sources, ViewSourceFields);
    RecordsOk(x.rows, RowFields);
    hide FieldMap, Records, RowsFit, Canonical, Fits, HeightAtMost;
    var fields := ViewFields(x.viewName, x.sources, x.rows)[1 := None];
    assert FieldsOk(fields, 2);
    FieldMapOk(fields, 2);
    HeightsTo(FieldMap(fields), 3, MAX_DEPTH);
  }
}
