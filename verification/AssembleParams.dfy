/**
 The `assemble@1` parameters as canonical CBOR: each segment variant has its own
 set of keys, so the keys tell the variant and every output has one encoding.
 */
module AssembleParams {
  import opened Wrappers
  import opened Bytes
  import opened Cbor
  import opened Objects
  import A = Assemble

  datatype ParamsError = BadCbor(error: DecodeError) | Params(why: string)

  /** Keys 1 to 3 for a blob range, 4 and 5 for a fill, 6 for a literal. */
  function SegmentFields(s: A.Segment): (r: seq<Option<Value>>)
    ensures |r| == 6
  {
    match s
    case BlobRange(ix, offset, len) => [Some(Uint(ix)), Some(Uint(offset)), Some(Uint(len)), None, None, None]
    case Fill(b, len) => [None, None, None, Some(Uint(b)), Some(Uint(len)), None]
    case Literal(bytes) => [None, None, None, None, None, Some(Value.Bytes(bytes))]
  }

  function SegmentValues(segments: seq<A.Segment>): seq<Value> {
    Records(segments, SegmentFields)
  }

  function ParamsValue(segments: seq<A.Segment>): Value {
    Array(SegmentValues(segments))
  }

  lemma ParamsValueOk(segments: seq<A.Segment>)
    requires A.ValidParams(segments) && |segments| < TWO_64
    ensures Canonical(ParamsValue(segments)) && Fits(ParamsValue(segments)) && HeightAtMost(ParamsValue(segments), MAX_DEPTH)
  {
    forall i | 0 <= i < |segments| ensures FieldsOk(SegmentFields(segments[i]), 0) {
      assert segments[i] in segments;
      assert A.SegmentFault(segments[i]).None?;
    }
    RecordsOk(segments, SegmentFields);
    hide SegmentFields, FieldMap;
    HeightsTo(ParamsValue(segments), 2, MAX_DEPTH);
  }

  function Encoded(segments: seq<A.Segment>): seq<byte>
    requires A.ValidParams(segments) && |segments| < TWO_64
  {
    ParamsValueOk(segments);
    CanonicalEncodes(ParamsValue(segments));
    Encode(ParamsValue(segments)).value
  }

  /** `AssembleParams::encode`. */
  method EncodeParams(segments: seq<A.Segment>) returns (r: Result<seq<byte>, A.AssembleError>)
    requires |segments| < TWO_64
    ensures r.Ok? <==> A.ValidParams(segments)
    ensures r.Ok? ==> r.value == Encoded(segments)
  {
    hide A.ValidParams;
    var bad := A.Validate(segments);
    if bad.Some? {
      return Err(bad.value);
    }
    ParamsValueOk(segments);
    CanonicalEncodes(ParamsValue(segments));
    var body := EncodeValue(ParamsValue(segments));
    return Ok(body.value);
  }

  /** `segment_from_value`: exactly one variant's key set, each field of its type and width. */
  function ReadSegment(f: seq<Option<Value>>): Option<A.Segment> {
    if |f| != 6 then None
    else
      match (f[0].Some?, f[1].Some?, f[2].Some?, f[3].Some?, f[4].Some?, f[5].Some?)
      case (true, true, true, false, false, false) =>
        var (ix, offset, len) := (AsUint(f[0]), AsUint(f[1]), AsUint(f[2]));
        if ix.Some? && offset.Some? && len.Some? && ix.value < 0x1_0000_0000 then Some(A.BlobRange(ix.value, offset.value, len.value)) else None
      case (false, false, false, true, true, false) =>
        var (b, len) := (AsUint(f[3]), AsUint(f[4]));
        if b.Some? && len.Some? && b.value < 0x100 then Some(A.Fill(b.value, len.value)) else None
      case (false, false, false, false, false, true) =>
        if f[5].value.Bytes? then Some(A.Literal(f[5].value.bytes)) else None
      case _ => None
  }

  lemma SegmentsReadBack()
    ensures ReadsBack(SegmentFields, ReadSegment, 6)
  {
    forall f: seq<Option<Value>>, s | |f| == 6 ensures Inverse(SegmentFields, ReadSegment, f, s) {
      SegmentBack(f, s);
    }
  }

  lemma SegmentBack(f: seq<Option<Value>>, s: A.Segment)
    requires |f| == 6
    ensures Inverse(SegmentFields, ReadSegment, f, s)
  {
    if ReadSegment(f) == Some(s) {
      var g := SegmentFields(s);
      assert f[0] == g[0] && f[1] == g[1] && f[2] == g[2];
      assert f[3] == g[3] && f[4] == g[4] && f[5] == g[5];
      assert f == g;
    }
  }

  /** `AssembleParams::decode`: a byte string decodes to valid parameters exactly when it is their encoding. */
  method DecodeParams(b: seq<byte>) returns (r: Result<seq<A.Segment>, ParamsError>)
    ensures forall xs :: r == Ok(xs) <==> A.ValidParams(xs) && |xs| < TWO_64 && b == Encoded(xs)
  {
    hide A.ValidParams, Encode, Decode, Canonical, Fits, HeightAtMost, Records, ReadsBack;
    var value := DecodeInput(b);
    DecodesTo(b);
    if value.Err? {
      return Err(BadCbor(value.error));
    }
    DecodeExact(b, value.value);
    SegmentsReadBack();
    var found := RecordsFrom(Some(value.value), SegmentFields, ReadSegment, 6);
    if found.None? {
      return Err(ParamsError.Params("segment"));
    }
    var bad := A.Validate(found.value);
    if bad.Some? {
      return Err(ParamsError.Params("invalid"));
    }
    CountFits(found.value);
    return Ok(found.value);
  }

  lemma CountFits(xs: seq<A.Segment>)
    requires Fits(ParamsValue(xs))
    ensures |xs| < TWO_64
  {
  }

  lemma DecodesTo(b: seq<byte>)
    ensures forall xs :: A.ValidParams(xs) && |xs| < TWO_64 ==> (b == Encoded(xs) <==> Decode(b) == Ok(ParamsValue(xs)))
  {
    hide ParamsValue, A.ValidParams, Encode, Decode, Canonical, Fits, HeightAtMost;
    forall xs | A.ValidParams(xs) && |xs| < TWO_64 ensures b == Encoded(xs) <==> Decode(b) == Ok(ParamsValue(xs)) {
      ParamsValueOk(xs);
      CanonicalEncodes(ParamsValue(xs));
      DecodeExact(b, ParamsValue(xs));
    }
  }
}
