/**
 The `assemble@1` builtin: a list of segments over input blobs, fill bytes and
 short literals. Its meaning is one byte string (`Output`); the streaming reader
 and the affine range translation are two ways of reading that string.
 */
module Assemble {
  import opened Wrappers
  import opened Bytes

  const LITERAL_CAP: nat := 4096

  datatype Segment =
    | BlobRange(inputIx: u32, offset: u64, len: u64)
    | Fill(value: byte, len: u64)
    | Literal(bytes: seq<byte>)
  {
    function Len(): nat {
      if Literal? then |bytes| else len
    }
  }

  datatype AssembleError =
    | Params(why: string)
    | InputIndex(segment: nat, inputIx: u32)
    | SourceRange(segment: nat, offset: u64, len: u64, sourceLen: nat)
    | SizeOverflow
    | RangeOutOfBounds

  // ---- Meaning ----

  function Total(segments: seq<Segment>): nat {
    if segments == [] then 0 else Total(segments[..|segments| - 1]) + segments[|segments| - 1].Len()
  }

  /** The checked sum of segment lengths. */
  function OutputSize(segments: seq<Segment>): Result<nat, AssembleError> {
    if Total(segments) < TWO_64 then Ok(Total(segments)) else Err(SizeOverflow)
  }

  function Repeat(b: byte, n: nat): (r: seq<byte>)
    ensures |r| == n && forall i :: 0 <= i < n ==> r[i] == b
  {
    seq(n, i => b)
  }

  predicate InRange(s: Segment, sources: seq<seq<byte>>) {
    s.BlobRange? ==> s.inputIx < |sources| && s.offset + s.len <= |sources[s.inputIx]|
  }

  ghost predicate AllInRange(segments: seq<Segment>, sources: seq<seq<byte>>) {
    forall i :: 0 <= i < |segments| ==> InRange(segments[i], sources)
  }

  function SegmentBytes(s: Segment, sources: seq<seq<byte>>): (r: seq<byte>)
    requires InRange(s, sources)
    ensures |r| == s.Len()
  {
    match s
    case BlobRange(ix, offset, len) => sources[ix][offset..offset + len]
    case Fill(b, len) => Repeat(b, len)
    case Literal(bytes) => bytes
  }

  /** The assembled output. */
  function Output(segments: seq<Segment>, sources: seq<seq<byte>>): (r: seq<byte>)
    requires AllInRange(segments, sources)
    ensures |r| == Total(segments)
  {
    if segments == [] then []
    else
      var n := |segments| - 1;
      Output(segments[..n], sources) + SegmentBytes(segments[n], sources)
  }

  lemma {:induction false} TotalSpan(segments: seq<Segment>, i: nat)
    requires i < |segments|
    ensures Total(segments[..i]) + segments[i].Len() == Total(segments[..i + 1]) <= Total(segments)
    decreases |segments|
  {
    var n := |segments| - 1;
    assert segments[..i + 1][..i] == segments[..i];
    if i == n {
      assert segments[..i + 1] == segments;
    } else {
      TotalSpan(segments[..n], i);
      assert segments[..n][..i] == segments[..i] && segments[..n][..i + 1] == segments[..i + 1];
    }
  }

  lemma {:induction false} OutputPrefix(segments: seq<Segment>, sources: seq<seq<byte>>, i: nat)
    requires AllInRange(segments, sources) && i <= |segments|
    ensures Output(segments[..i], sources) <= Output(segments, sources)
    decreases |segments|
  {
    if i == |segments| {
      assert segments[..i] == segments;
    } else {
      var init := segments[..|segments| - 1];
      OutputPrefix(init, sources, i);
      assert init[..i] == segments[..i];
    }
  }

  /** Segment `i` occupies exactly its own span of the output. */
  lemma {:induction false} OutputSpan(segments: seq<Segment>, sources: seq<seq<byte>>, i: nat)
    requires AllInRange(segments, sources) && i < |segments|
    ensures Total(segments[..i]) + segments[i].Len() == Total(segments[..i + 1]) <= Total(segments)
    ensures Output(segments, sources)[Total(segments[..i])..Total(segments[..i + 1])] == SegmentBytes(segments[i], sources)
  {
    hide SegmentBytes, Total, Output;
    TotalSpan(segments, i);
    OutputPrefix(segments, sources, i + 1);
    OutputNext(segments, sources, i);
    SlicesOfPrefix(Output(segments[..i + 1], sources), Output(segments, sources), Total(segments[..i]), Total(segments[..i + 1]));
  }

  lemma OutputNext(segments: seq<Segment>, sources: seq<seq<byte>>, i: nat)
    requires AllInRange(segments, sources) && i < |segments|
    ensures Output(segments[..i + 1], sources) == Output(segments[..i], sources) + SegmentBytes(segments[i], sources)
    ensures Output(segments[..i + 1], sources)[Total(segments[..i])..] == SegmentBytes(segments[i], sources)
  {
    hide SegmentBytes, Total;
    assert segments[..i + 1][..i] == segments[..i];
  }

  lemma SlicesOfPrefix<T>(a: seq<T>, b: seq<T>, i: nat, j: nat)
    requires a <= b && i <= j <= |a|
    ensures b[i..j] == a[i..j]
  {
  }

  lemma SliceOfSlice<T>(s: seq<T>, a: nat, b: nat, i: nat, j: nat)
    requires a <= b <= |s| && i <= j <= b - a
    ensures s[a..b][i..j] == s[a + i..a + j]
  {
    var x, y := s[a..b][i..j], s[a + i..a + j];
    assert |x| == |y|;
    forall k | 0 <= k < |x| ensures x[k] == y[k] {
      assert x[k] == s[a..b][i + k];
    }
  }

  // ---- Validation ----

  /** Why a segment list is not valid params, if it is not. */
  function SegmentFault(s: Segment): Option<string> {
    match s
    case Literal(bytes) =>
      if bytes == [] then Some("empty literal")
      else if |bytes| > LITERAL_CAP then Some("literal exceeds 4096-byte cap")
      else None
    case _ => if s.len == 0 then Some("zero-length segment") else None
  }

  /** One encoding per output: no empty list, no empty segment, literals capped. */
  ghost predicate ValidParams(segments: seq<Segment>) {
    segments != [] && forall s :: s in segments ==> SegmentFault(s).None?
  }

  /** The error is about the list being empty, or about its first faulty segment. */
  ghost predicate FirstFault(segments: seq<Segment>, e: AssembleError) {
    if segments == [] then e == Params("empty segment list")
    else exists i :: 0 <= i < |segments| && SegmentFault(segments[i]).Some? && e == Params(SegmentFault(segments[i]).value)
                     && forall j :: 0 <= j < i ==> SegmentFault(segments[j]).None?
  }

  method Validate(segments: seq<Segment>) returns (r: Option<AssembleError>)
    ensures r.None? <==> ValidParams(segments)
    ensures r.Some? ==> FirstFault(segments, r.value)
  {
    if segments == [] {
      return Some(Params("empty segment list"));
    }
    for i := 0 to |segments|
      invariant forall j :: 0 <= j < i ==> SegmentFault(segments[j]).None?
    {
      var fault := SegmentFault(segments[i]);
      if fault.Some? {
        assert segments[i] in segments;
        return Some(Params(fault.value));
      }
    }
    return None;
  }

  /** Index bounds and `offset + len` within the source, reported for the first offending segment. */
  method ValidateSources(segments: seq<Segment>, sources: seq<seq<byte>>) returns (r: Option<AssembleError>)
    ensures r.None? <==> AllInRange(segments, sources)
    ensures match r
            case None => true
            case Some(InputIndex(i, ix)) =>
              i < |segments| && AllInRange(segments[..i], sources) && segments[i].BlobRange? && segments[i].inputIx == ix >= |sources|
            case Some(SourceRange(i, offset, len, sourceLen)) =>
              && i < |segments| && AllInRange(segments[..i], sources) && segments[i].BlobRange? && segments[i].inputIx < |sources|
              && segments[i].offset == offset && segments[i].len == len && sourceLen == |sources[segments[i].inputIx]| < offset + len
            case Some(_) => false
  {
    for i := 0 to |segments|
      invariant forall j :: 0 <= j < i ==> InRange(segments[j], sources)
    {
      match segments[i] {
        case BlobRange(ix, offset, len) =>
          if ix >= |sources| {
            assert !InRange(segments[i], sources);
            return Some(InputIndex(i, ix));
          }
          if offset + len > |sources[ix]| {
            assert !InRange(segments[i], sources);
            return Some(SourceRange(i, offset, len, |sources[ix]|));
          }
        case _ =>
      }
    }
    return None;
  }

  // ---- Streaming ----

  /** A cursor over the output: the current segment and the bytes already emitted from it. */
  class AssembleReader {
    const segments: seq<Segment>
    const sources: seq<seq<byte>>
    var segment: nat
    var emitted: nat

    ghost predicate Valid()
      reads this
    {
      && AllInRange(segments, sources)
      && segment <= |segments|
      && if segment < |segments| then emitted <= segments[segment].Len() else emitted == 0
    }

    ghost function Position(): nat
      requires Valid()
      reads this
    {
      Total(segments[..segment]) + emitted
    }

    constructor (segments: seq<Segment>, sources: seq<seq<byte>>)
      requires AllInRange(segments, sources)
      ensures this.segments == segments && this.sources == sources
      ensures Valid() && Position() == 0
    {
      this.segments := segments;
      this.sources := sources;
      segment, emitted := 0, 0;
    }

    /**
     `read`: the next bytes of the output, at most a buffer's worth and from one
     segment; nothing only for an empty buffer or at the end.
     */
    method Read(buf: array<byte>) returns (n: nat)
      requires Valid()
      modifies this, buf
      ensures Valid() && n <= buf.Length
      ensures Position() == old(Position()) + n <= Total(segments)
      ensures buf[..n] == Output(segments, sources)[old(Position())..Position()]
      ensures buf[n..] == old(buf[n..])
      ensures n == 0 <==> buf.Length == 0 || old(Position()) == Total(segments)
    {
      hide Total, Output, SegmentBytes;
      while true
        invariant Valid() && Position() == old(Position()) && buf[..] == old(buf[..])
        decreases |segments| - segment
      {
        if segment == |segments| {
          assert segments[..segment] == segments;
          return 0;
        }
        OutputSpan(segments, sources, segment);
        var s := segments[segment];
        var remaining := s.Len() - emitted;
        if remaining == 0 {
          segment := segment + 1;
          emitted := 0;
          continue;
        }
        if buf.Length == 0 {
          return 0;
        }
        n := if remaining < buf.Length then remaining else buf.Length;
        CopySegment(s, buf, n);
        ghost var start := Total(segments[..segment]);
        SliceOfSlice(Output(segments, sources), start, start + s.Len(), emitted, emitted + n);
        emitted := emitted + n;
        return;
      }
    }

    /** Copy the next `n` bytes of the current segment to the front of the buffer. */
    method CopySegment(s: Segment, buf: array<byte>, n: nat)
      requires InRange(s, sources) && emitted + n <= s.Len() && n <= buf.Length
      modifies buf
      ensures buf[..n] == SegmentBytes(s, sources)[emitted..emitted + n]
      ensures buf[n..] == old(buf[n..])
    {
      match s {
        case BlobRange(ix, offset, _) =>
          forall i | 0 <= i < n {
            buf[i] := sources[ix][offset + emitted + i];
          }
          assert buf[..n] == sources[ix][offset + emitted..offset + emitted + n];
          BlobSlice(s, sources, emitted, emitted + n);
        case Fill(b, _) =>
          forall i | 0 <= i < n {
            buf[i] := b;
          }
        case Literal(lit) =>
          forall i | 0 <= i < n {
            buf[i] := lit[emitted + i];
          }
      }
    }
  }

  lemma BlobSlice(s: Segment, sources: seq<seq<byte>>, from: nat, to: nat)
    requires s.BlobRange? && InRange(s, sources) && from <= to <= s.Len()
    ensures SegmentBytes(s, sources)[from..to] == sources[s.inputIx][s.offset + from..s.offset + to]
  {
  }

  /** Whatever sequence of buffer sizes a caller uses, it reads the output in order, with nothing skipped or repeated. */
  method ReadChunks(segments: seq<Segment>, sources: seq<seq<byte>>, sizes: seq<nat>) returns (out: seq<byte>)
    requires AllInRange(segments, sources)
    ensures out <= Output(segments, sources)
    ensures |out| < Total(segments) ==> |out| >= |sizes| || 0 in sizes
  {
    hide Output, Total, AllInRange;
    var reader := new AssembleReader(segments, sources);
    out := [];
    for k := 0 to |sizes|
      invariant reader.Valid() && reader.segments == segments && reader.sources == sources
      invariant |out| == reader.Position() <= Total(segments) && out == Output(segments, sources)[..reader.Position()]
      invariant |out| < Total(segments) ==> |out| >= k || 0 in sizes
    {
      var buf := new byte[sizes[k]](i => 0);
      ghost var at := reader.Position();
      var n := reader.Read(buf);
      assert sizes[k] in sizes;
      assert Output(segments, sources)[..at] + Output(segments, sources)[at..at + n] == Output(segments, sources)[..at + n];
      out := out + buf[..n];
    }
  }

  // ---- Affine range translation ----

  /** A resolved piece of an output range, in output order. */
  datatype Piece =
    | Input(inputIx: u32, offset: nat, len: nat)
    | FillPiece(value: byte, len: nat)
    | LiteralPiece(bytes: seq<byte>)
  {
    function Len(): nat {
      if LiteralPiece? then |bytes| else len
    }

    predicate Within(sources: seq<seq<byte>>) {
      Input? ==> inputIx < |sources| && offset + len <= |sources[inputIx]|
    }

    function Denote(sources: seq<seq<byte>>): (r: seq<byte>)
      requires Within(sources)
      ensures |r| == Len()
    {
      match this
      case Input(ix, offset, len) => sources[ix][offset..offset + len]
      case FillPiece(b, len) => Repeat(b, len)
      case LiteralPiece(bytes) => bytes
    }
  }

  /** Two neighbours that one piece could stand for. */
  predicate Mergeable(a: Piece, b: Piece) {
    || (a.Input? && b.Input? && a.inputIx == b.inputIx && a.offset + a.len == b.offset)
    || (a.FillPiece? && b.FillPiece? && a.value == b.value)
  }

  ghost predicate AllWithin(pieces: seq<Piece>, sources: seq<seq<byte>>) {
    forall i :: 0 <= i < |pieces| ==> pieces[i].Within(sources)
  }

  function DenoteAll(pieces: seq<Piece>, sources: seq<seq<byte>>): seq<byte>
    requires AllWithin(pieces, sources)
  {
    if pieces == [] then []
    else DenoteAll(pieces[..|pieces| - 1], sources) + pieces[|pieces| - 1].Denote(sources)
  }

  /** Nothing empty and no two neighbours mergeable: no shorter list says the same. */
  ghost predicate Minimal(pieces: seq<Piece>) {
    && (forall i :: 0 <= i < |pieces| ==> pieces[i].Len() > 0)
    && forall i :: 0 <= i < |pieces| - 1 ==> !Mergeable(pieces[i], pieces[i + 1])
  }

  /** The piece for bytes `within..within + len` of one segment. */
  function PieceOf(s: Segment, within: nat, len: nat): (p: Piece)
    requires within + len <= s.Len()
    ensures p.Len() == len
  {
    match s
    case BlobRange(ix, offset, _) => Input(ix, offset + within, len)
    case Fill(b, _) => FillPiece(b, len)
    case Literal(bytes) => LiteralPiece(bytes[within..within + len])
  }

  lemma PieceDenotes(s: Segment, within: nat, len: nat, sources: seq<seq<byte>>)
    requires within + len <= s.Len() && InRange(s, sources)
    ensures PieceOf(s, within, len).Within(sources)
    ensures PieceOf(s, within, len).Denote(sources) == SegmentBytes(s, sources)[within..within + len]
  {
    match s
    case BlobRange(ix, offset, full) => SliceOfSlice(sources[ix], offset, offset + full, within, within + len);
    case _ =>
  }

  /** `push_merged`: extend the last piece when the new one continues it. */
  method PushMerged(pieces: seq<Piece>, piece: Piece, ghost sources: seq<seq<byte>>) returns (r: seq<Piece>)
    requires AllWithin(pieces, sources) && piece.Within(sources) && piece.Len() > 0 && Minimal(pieces)
    ensures AllWithin(r, sources) && Minimal(r)
    ensures DenoteAll(r, sources) == DenoteAll(pieces, sources) + piece.Denote(sources)
  {
    hide AllWithin, Minimal, DenoteAll;
    var n := |pieces|;
    if n > 0 && Mergeable(pieces[n - 1], piece) {
      r := pieces[n - 1 := pieces[n - 1].(len := pieces[n - 1].len + piece.len)];
      MergeLast(pieces, piece, sources);
      MergeMinimal(pieces, piece);
    } else {
      r := pieces + [piece];
      Append(pieces, piece, sources);
    }
  }

  lemma Append(pieces: seq<Piece>, piece: Piece, sources: seq<seq<byte>>)
    requires AllWithin(pieces, sources) && piece.Within(sources) && piece.Len() > 0 && Minimal(pieces)
    requires pieces != [] ==> !Mergeable(pieces[|pieces| - 1], piece)
    ensures AllWithin(pieces + [piece], sources) && Minimal(pieces + [piece])
    ensures DenoteAll(pieces + [piece], sources) == DenoteAll(pieces, sources) + piece.Denote(sources)
  {
    hide Mergeable;
    assert (pieces + [piece])[..|pieces|] == pieces;
  }

  lemma MergeMinimal(pieces: seq<Piece>, piece: Piece)
    requires Minimal(pieces) && pieces != [] && Mergeable(pieces[|pieces| - 1], piece)
    ensures Minimal(pieces[|pieces| - 1 := pieces[|pieces| - 1].(len := pieces[|pieces| - 1].len + piece.len)])
  {
    var n := |pieces|;
    var r := pieces[n - 1 := pieces[n - 1].(len := pieces[n - 1].len + piece.len)];
    forall i | 0 <= i < n - 1 ensures !Mergeable(r[i], r[i + 1]) {
      assert !Mergeable(pieces[i], pieces[i + 1]);
    }
    assert r[n - 1].Len() >= pieces[n - 1].Len();
    assert forall i :: 0 <= i < n - 1 ==> r[i] == pieces[i] && pieces[i].Len() > 0;
  }

  lemma MergeLast(pieces: seq<Piece>, piece: Piece, sources: seq<seq<byte>>)
    requires AllWithin(pieces, sources) && piece.Within(sources)
    requires pieces != [] && Mergeable(pieces[|pieces| - 1], piece)
    ensures var n := |pieces|;
            var r := pieces[n - 1 := pieces[n - 1].(len := pieces[n - 1].len + piece.len)];
            AllWithin(r, sources) && DenoteAll(r, sources) == DenoteAll(pieces, sources) + piece.Denote(sources)
  {
    hide AllWithin, DenoteAll, Piece.Within, Piece.Denote;
    var n := |pieces|;
    var (init, last) := (pieces[..n - 1], pieces[n - 1]);
    WithinParts(pieces, sources);
    MergeDenotes(last, piece, sources);
    var merged := last.(len := last.len + piece.len);
    hide Mergeable;
    MergedTail(init, last, piece, merged, sources);
    assert pieces == init + [last];
    assert pieces[n - 1 := merged] == init + [merged];
  }

  lemma WithinParts(pieces: seq<Piece>, sources: seq<seq<byte>>)
    requires pieces != [] && AllWithin(pieces, sources)
    ensures AllWithin(pieces[..|pieces| - 1], sources) && pieces[|pieces| - 1].Within(sources)
  {
  }

  lemma MergedTail(init: seq<Piece>, last: Piece, piece: Piece, merged: Piece, sources: seq<seq<byte>>)
    requires AllWithin(init, sources) && last.Within(sources) && piece.Within(sources) && merged.Within(sources)
    requires merged.Denote(sources) == last.Denote(sources) + piece.Denote(sources)
    ensures AllWithin(init + [last], sources) && AllWithin(init + [merged], sources)
    ensures DenoteAll(init + [merged], sources) == DenoteAll(init + [last], sources) + piece.Denote(sources)
  {
    hide *;
    DenoteMore(init, last, sources);
    DenoteMore(init, merged, sources);
    Appended(DenoteAll(init, sources), last.Denote(sources), piece.Denote(sources));
  }

  lemma DenoteMore(init: seq<Piece>, p: Piece, sources: seq<seq<byte>>)
    requires AllWithin(init, sources) && p.Within(sources)
    ensures AllWithin(init + [p], sources) && DenoteAll(init + [p], sources) == DenoteAll(init, sources) + p.Denote(sources)
  {
    hide Piece.Within, Piece.Denote;
    assert (init + [p])[..|init|] == init;
  }

  lemma Appended(a: seq<byte>, b: seq<byte>, c: seq<byte>)
    ensures a + (b + c) == a + b + c
  {
  }

  lemma MergeDenotes(a: Piece, b: Piece, sources: seq<seq<byte>>)
    requires Mergeable(a, b) && a.Within(sources) && b.Within(sources)
    ensures a.(len := a.len + b.len).Within(sources)
    ensures a.(len := a.len + b.len).Denote(sources) == a.Denote(sources) + b.Denote(sources)
  {
  }

  /**
   `translate`: resolve an output range into pieces, without touching the bytes.
   The pieces denote exactly that range, and no shorter list would.
   */
  method Translate(segments: seq<Segment>, start: nat, end: nat, ghost sources: seq<seq<byte>>)
    returns (r: Result<seq<Piece>, AssembleError>)
    requires AllInRange(segments, sources)
    ensures r.Ok? <==> start <= end <= Total(segments) < TWO_64
    ensures r.Err? ==> r.error == if start <= end && Total(segments) >= TWO_64 then SizeOverflow else RangeOutOfBounds
    ensures r.Ok? ==> AllWithin(r.value, sources) && Minimal(r.value)
    ensures r.Ok? ==> DenoteAll(r.value, sources) == Output(segments, sources)[start..end]
  {
    hide Total, Output, DenoteAll, Minimal, AllWithin, SegmentBytes, Covered, AllInRange, InRange;
    NothingCovered(segments, sources, start, end);
    if start > end {
      return Err(RangeOutOfBounds);
    }
    var size :- OutputSize(segments);
    if end > size {
      return Err(RangeOutOfBounds);
    }
    var pieces: seq<Piece> := [];
    var segmentStart := 0;
    var k := 0;
    ghost var out := Output(segments, sources);
    while k < |segments| && (k == 0 || segmentStart < end)
      invariant k <= |segments| && segmentStart == Total(segments[..k]) <= size
      invariant AllWithin(pieces, sources) && Minimal(pieces)
      invariant DenoteAll(pieces, sources) == Covered(out, start, end, segmentStart)
    {
      var s := segments[k];
      OutputSpan(segments, sources, k);
      OneInRange(segments, sources, k);
      var segmentEnd := segmentStart + s.Len();
      var from := if start < segmentStart then segmentStart else start;
      var to := if end < segmentEnd then end else segmentEnd;
      CoveredStep(out, start, end, segmentStart, segmentEnd);
      if from < to {
        pieces := PushPart(pieces, s, from - segmentStart, to - from, out, segmentStart, sources);
      }
      segmentStart := segmentEnd;
      k := k + 1;
    }
    assert segments[..|segments|] == segments;
    AllCovered(out, start, end, segmentStart);
    return Ok(pieces);
  }

  lemma OneInRange(segments: seq<Segment>, sources: seq<seq<byte>>, k: nat)
    requires AllInRange(segments, sources) && k < |segments|
    ensures InRange(segments[k], sources)
  {
  }

  /** The piece for a part of one segment. */
  method PushPart(pieces: seq<Piece>, s: Segment, within: nat, len: nat, ghost out: seq<byte>, ghost at: nat, ghost sources: seq<seq<byte>>)
    returns (r: seq<Piece>)
    requires AllWithin(pieces, sources) && Minimal(pieces) && InRange(s, sources) && 0 < len && within + len <= s.Len()
    requires at + s.Len() <= |out| && out[at..at + s.Len()] == SegmentBytes(s, sources)
    ensures AllWithin(r, sources) && Minimal(r)
    ensures DenoteAll(r, sources) == DenoteAll(pieces, sources) + out[at + within..at + within + len]
  {
    hide AllWithin, Minimal, DenoteAll, SegmentBytes, InRange;
    PieceDenotes(s, within, len, sources);
    SliceOfSlice(out, at, at + s.Len(), within, within + len);
    r := PushMerged(pieces, PieceOf(s, within, len), sources);
  }

  /** The part of `start..end` that lies before `upTo`. */
  function Covered(out: seq<byte>, start: nat, end: nat, upTo: nat): seq<byte>
    requires start <= end <= |out| && upTo <= |out|
  {
    if upTo <= start then [] else if upTo <= end then out[start..upTo] else out[start..end]
  }

  lemma NothingCovered(segments: seq<Segment>, sources: seq<seq<byte>>, start: nat, end: nat)
    requires AllInRange(segments, sources)
    ensures AllWithin([], sources) && Minimal([]) && DenoteAll([], sources) == [] && Total(segments[..0]) == 0
    ensures start <= end <= Total(segments) ==> Covered(Output(segments, sources), start, end, 0) == []
  {
  }

  lemma CoveredStep(out: seq<byte>, start: nat, end: nat, from: nat, to: nat)
    requires start <= end <= |out| && from <= to <= |out|
    ensures var a, b := if start < from then from else start, if end < to then end else to;
            Covered(out, start, end, to) == if a < b then Covered(out, start, end, from) + out[a..b] else Covered(out, start, end, from)
  {
  }

  lemma AllCovered(out: seq<byte>, start: nat, end: nat, upTo: nat)
    requires start <= end <= upTo <= |out|
    ensures Covered(out, start, end, upTo) == out[start..end]
  {
  }
}
