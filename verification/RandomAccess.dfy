/**
 Random-access adapters for operator-tree nodes. A source answers positioned
 reads; a leaf may answer short, an assemble node translates the read onto its
 children. Nested arbitrarily, every read still returns the bytes of the
 composed output.
 */
module RandomAccess {
  import opened Wrappers
  import opened Bytes
  import opened Assemble

  /**
   A readable source. `grant` is how many extra bytes beyond one a leaf returns
   at an offset when more are asked for, which makes short reads arbitrary.
   */
  datatype Source =
    | Leaf(bytes: seq<byte>, grant: nat -> nat)
    | Assembled(segments: seq<Segment>, children: seq<Source>)

  /** The bytes a source stands for. */
  function Content(s: Source): seq<byte>
    requires WellFormed(s)
    decreases s, 1
  {
    match s
    case Leaf(bytes, _) => bytes
    case Assembled(segments, children) => Output(segments, Contents(children))
  }

  function Contents(ss: seq<Source>): (r: seq<seq<byte>>)
    requires forall i :: 0 <= i < |ss| ==> WellFormed(ss[i])
    ensures |r| == |ss| && forall i :: 0 <= i < |ss| ==> r[i] == Content(ss[i])
    decreases ss, 0
  {
    if ss == [] then [] else Contents(ss[..|ss| - 1]) + [Content(ss[|ss| - 1])]
  }

  /** `AssembleRandom::new` succeeded at every node: segments within the children, size within 64 bits. */
  predicate WellFormed(s: Source)
    decreases s, 0
  {
    match s
    case Leaf(_, _) => true
    case Assembled(segments, children) =>
      && (forall i :: 0 <= i < |children| ==> WellFormed(children[i]))
      && (forall i :: 0 <= i < |segments| ==> InRange(segments[i], Contents(children)))
      && Total(segments) < TWO_64
  }

  /** `s` with `data` written over it from `at` on. */
  function Overlay(s: seq<byte>, at: nat, data: seq<byte>): (r: seq<byte>)
    requires at + |data| <= |s|
    ensures |r| == |s|
  {
    s[..at] + data + s[at + |data|..]
  }

  lemma OverlayTwice(s: seq<byte>, at: nat, a: seq<byte>, b: seq<byte>)
    requires at + |a| + |b| <= |s|
    ensures Overlay(Overlay(s, at, a), at + |a|, b) == Overlay(s, at, a + b)
  {
  }

  lemma OverlayNothing(s: seq<byte>, at: nat)
    requires at <= |s|
    ensures Overlay(s, at, []) == s
  {
  }

  /** The `n` bytes of `s` from `offset`; nothing, wherever, when `n` is zero. */
  function Window(s: seq<byte>, offset: nat, n: nat): (r: seq<byte>)
    requires n == 0 || offset + n <= |s|
    ensures |r| == n
  {
    if n == 0 then [] else s[offset..offset + n]
  }

  lemma WindowTwice(s: seq<byte>, offset: nat, m: nat, n: nat)
    requires m + n == 0 || offset + m + n <= |s|
    ensures Window(s, offset, m) + Window(s, offset + m, n) == Window(s, offset, m + n)
  {
  }

  /** Write `data` into the buffer from `at` on. */
  method Write(buf: array<byte>, at: nat, data: seq<byte>)
    requires at + |data| <= buf.Length
    modifies buf
    ensures buf[..] == Overlay(old(buf[..]), at, data)
  {
    forall i | 0 <= i < |data| {
      buf[at + i] := data[i];
    }
  }

  /**
   `read_at`: fill `buf[lo..hi]` from `offset` on, as far as the source answers.
   Bytes never come from anywhere but the content, none come only at its end,
   and an assemble node never answers short.
   */
  method ReadAt(s: Source, offset: nat, buf: array<byte>, lo: nat, hi: nat) returns (n: nat)
    requires WellFormed(s) && lo <= hi <= buf.Length
    modifies buf
    ensures n <= hi - lo && (n > 0 ==> offset + n <= |Content(s)|)
    ensures n == 0 <==> lo == hi || offset >= |Content(s)|
    ensures s.Assembled? && offset <= |Content(s)| ==> n == hi - lo || offset + n == |Content(s)|
    ensures buf[..] == Overlay(old(buf[..]), lo, Window(Content(s), offset, n))
    decreases s, 1
  {
    OverlayNothing(buf[..], lo);
    match s {
      case Leaf(bytes, grant) =>
        if offset >= |bytes| || lo == hi {
          return 0;
        }
        n := 1 + grant(offset);
        n := if n < hi - lo then n else hi - lo;
        n := if n < |bytes| - offset then n else |bytes| - offset;
        Write(buf, lo, bytes[offset..offset + n]);
      case Assembled(segments, children) =>
        n := ReadAssembled(s, offset, buf, lo, hi);
    }
  }

  /** `AssembleRandom::read_at`: translate the clamped range, then fill the pieces. */
  method ReadAssembled(s: Source, offset: nat, buf: array<byte>, lo: nat, hi: nat) returns (n: nat)
    requires s.Assembled? && WellFormed(s) && lo <= hi <= buf.Length
    modifies buf
    ensures n == if offset + (hi - lo) <= |Content(s)| then hi - lo else if offset <= |Content(s)| then |Content(s)| - offset else 0
    ensures buf[..] == Overlay(old(buf[..]), lo, Window(Content(s), offset, n))
    decreases s, 0, 3
  {
    NodeContent(s);
    hide *;
    var size := Total(s.segments);
    var start := if offset < size then offset else size;
    var end := if offset + (hi - lo) < size then offset + (hi - lo) else size;
    if start == end {
      NothingRead(buf[..], lo, Content(s), offset);
      return 0;
    }
    WindowIs(Content(s), start, end);
    n := FillRange(s, start, end, buf, lo);
  }

  /** The pieces of a range of the output, one after another. */
  method FillRange(s: Source, start: nat, end: nat, buf: array<byte>, lo: nat) returns (n: nat)
    requires s.Assembled? && WellFormed(s) && start <= end <= |Content(s)| && lo + (end - start) <= buf.Length
    modifies buf
    ensures n == end - start && buf[..] == Overlay(old(buf[..]), lo, Content(s)[start..end])
    decreases s, 0, 2
  {
    NodeContent(s);
    hide *;
    var pieces := Translate(s.segments, start, end, Contents(s.children));
    n := FillPieces(s, pieces.value, buf, lo);
  }

  /** What a node stands for, and that its size fits. */
  lemma NodeContent(s: Source)
    requires s.Assembled? && WellFormed(s)
    ensures (forall i :: 0 <= i < |s.children| ==> WellFormed(s.children[i]))
            && AllInRange(s.segments, Contents(s.children)) && |Content(s)| == Total(s.segments) < TWO_64
            && Content(s) == Output(s.segments, Contents(s.children))
  {
  }

  lemma NothingRead(buf: seq<byte>, lo: nat, content: seq<byte>, offset: nat)
    requires lo <= |buf|
    ensures Overlay(buf, lo, Window(content, offset, 0)) == buf
  {
  }

  lemma WindowIs(s: seq<byte>, start: nat, end: nat)
    requires start <= end <= |s|
    ensures Window(s, start, end - start) == s[start..end]
  {
  }

  /** Copy translated pieces into the buffer one after another. */
  method FillPieces(s: Source, pieces: seq<Piece>, buf: array<byte>, lo: nat) returns (filled: nat)
    requires s.Assembled? && WellFormed(s) && AllWithin(pieces, Contents(s.children))
    requires lo + |DenoteAll(pieces, Contents(s.children))| <= buf.Length
    modifies buf
    ensures filled == |DenoteAll(pieces, Contents(s.children))|
    ensures buf[..] == Overlay(old(buf[..]), lo, DenoteAll(pieces, Contents(s.children)))
    decreases s, 0, 1
  {
    ghost var sources, before := Contents(s.children), buf[..];
    ghost var done: seq<byte> := [];
    hide *;
    filled := 0;
    OverlayNothing(before, lo);
    NothingDenoted(pieces, sources);
    var k := 0;
    while k < |pieces|
      invariant k <= |pieces|
      invariant AllWithin(pieces[..k], sources) && done == DenoteAll(pieces[..k], sources)
      invariant filled == |done| <= |DenoteAll(pieces, sources)|
      invariant buf[..] == Overlay(before, lo, done)
    {
      PieceStep(before, lo, pieces, sources, k, done);
      FillPiece(s, pieces[k], buf, lo + filled);
      done := done + pieces[k].Denote(sources);
      filled := filled + pieces[k].Len();
      k := k + 1;
    }
    assert pieces[..|pieces|] == pieces;
  }

  /** One piece more, written behind those before it. */
  lemma PieceStep(before: seq<byte>, lo: nat, pieces: seq<Piece>, sources: seq<seq<byte>>, k: nat, done: seq<byte>)
    requires AllWithin(pieces, sources) && k < |pieces| && AllWithin(pieces[..k], sources) && done == DenoteAll(pieces[..k], sources)
    requires lo + |DenoteAll(pieces, sources)| <= |before|
    ensures pieces[k].Within(sources) && AllWithin(pieces[..k + 1], sources)
    ensures DenoteAll(pieces[..k + 1], sources) == done + pieces[k].Denote(sources)
    ensures |pieces[k].Denote(sources)| == pieces[k].Len() && |done| + pieces[k].Len() <= |DenoteAll(pieces, sources)|
    ensures Overlay(Overlay(before, lo, done), lo + |done|, pieces[k].Denote(sources)) == Overlay(before, lo, done + pieces[k].Denote(sources))
  {
    DenoteStep(pieces, sources, k);
    assert |pieces[k].Denote(sources)| == pieces[k].Len();
    hide *;
    OverlayTwice(before, lo, done, pieces[k].Denote(sources));
  }

  /** One piece: a child's bytes, a fill run, or literal bytes. */
  method FillPiece(s: Source, p: Piece, buf: array<byte>, at: nat)
    requires s.Assembled? && WellFormed(s) && p.Within(Contents(s.children)) && at + p.Len() <= buf.Length
    modifies buf
    ensures buf[..] == Overlay(old(buf[..]), at, p.Denote(Contents(s.children)))
    decreases s, 0, 0
  {
    hide Overlay, Content;
    match p {
      case Input(ix, offset, len) =>
        assert Contents(s.children)[ix] == Content(s.children[ix]);
        var ok := ReadExact(s.children[ix], offset, buf, at, at + len);
      case FillPiece(b, len) =>
        Write(buf, at, Repeat(b, len));
      case LiteralPiece(bytes) =>
        Write(buf, at, bytes);
    }
  }

  lemma NothingDenoted(pieces: seq<Piece>, sources: seq<seq<byte>>)
    ensures AllWithin(pieces[..0], sources) && DenoteAll(pieces[..0], sources) == []
  {
  }

  lemma DenoteStep(pieces: seq<Piece>, sources: seq<seq<byte>>, k: nat)
    requires AllWithin(pieces, sources) && k < |pieces|
    ensures pieces[k].Within(sources) && AllWithin(pieces[..k], sources) && AllWithin(pieces[..k + 1], sources)
    ensures DenoteAll(pieces[..k + 1], sources) == DenoteAll(pieces[..k], sources) + pieces[k].Denote(sources)
    ensures |DenoteAll(pieces[..k + 1], sources)| <= |DenoteAll(pieces, sources)|
  {
    DenoteLonger(pieces, sources, k);
    DenoteLonger(pieces, sources, k + 1);
    DenoteLast(pieces[..k + 1], sources);
    hide *;
    assert pieces[..k + 1][..k] == pieces[..k];
  }

  lemma DenoteLast(pieces: seq<Piece>, sources: seq<seq<byte>>)
    requires pieces != [] && AllWithin(pieces, sources)
    ensures AllWithin(pieces[..|pieces| - 1], sources) && pieces[|pieces| - 1].Within(sources)
    ensures DenoteAll(pieces, sources) == DenoteAll(pieces[..|pieces| - 1], sources) + pieces[|pieces| - 1].Denote(sources)
  {
    hide Piece.Within, Piece.Denote;
  }

  lemma {:induction false} DenoteLonger(pieces: seq<Piece>, sources: seq<seq<byte>>, k: nat)
    requires AllWithin(pieces, sources) && k <= |pieces|
    ensures AllWithin(pieces[..k], sources) && |DenoteAll(pieces[..k], sources)| <= |DenoteAll(pieces, sources)|
    decreases |pieces|
  {
    hide Piece.Within, Piece.Denote, DenoteAll;
    if k == |pieces| {
      assert pieces[..k] == pieces;
    } else {
      DenoteLast(pieces, sources);
      DenoteLonger(pieces[..|pieces| - 1], sources, k);
      assert pieces[..|pieces| - 1][..k] == pieces[..k];
    }
  }

  /** `read_at_exact`: repeat short reads until the span is full; fails only past the end. */
  method ReadExact(s: Source, offset: nat, buf: array<byte>, lo: nat, hi: nat) returns (ok: bool)
    requires WellFormed(s) && lo <= hi <= buf.Length
    modifies buf
    ensures ok <==> lo == hi || offset + (hi - lo) <= |Content(s)|
    ensures ok ==> buf[..] == Overlay(old(buf[..]), lo, Window(Content(s), offset, hi - lo))
    decreases s, 2
  {
    hide Content, Overlay, WellFormed;
    ghost var before, content := buf[..], Content(s);
    var filled := 0;
    OverlayNothing(before, lo);
    while filled < hi - lo
      invariant filled <= hi - lo && (filled > 0 ==> offset + filled <= |content|)
      invariant buf[..] == Overlay(before, lo, Window(content, offset, filled))
    {
      var n := ReadAt(s, offset + filled, buf, lo + filled, hi);
      if n == 0 {
        return false;
      }
      OverlayTwice(before, lo, Window(content, offset, filled), Window(content, offset + filled, n));
      WindowTwice(content, offset, filled, n);
      filled := filled + n;
    }
    return true;
  }

  /** Sequential reading over any source. */
  class SeqOverRandom {
    const inner: Source
    var pos: nat

    constructor (inner: Source)
      requires WellFormed(inner)
      ensures this.inner == inner && pos == 0
    {
      this.inner := inner;
      pos := 0;
    }

    /** The next bytes of the content, in order; none only at its end or for an empty buffer. */
    method Read(buf: array<byte>) returns (n: nat)
      requires WellFormed(inner) && pos <= |Content(inner)|
      modifies this, buf
      ensures n <= buf.Length && pos == old(pos) + n <= |Content(inner)|
      ensures buf[..n] == Content(inner)[old(pos)..pos]
      ensures n == 0 <==> buf.Length == 0 || old(pos) == |Content(inner)|
    {
      n := ReadAt(inner, pos, buf, 0, buf.Length);
      pos := pos + n;
    }
  }

  /** A sequential window over a source: exactly the bytes asked for, or an error at the source's end (or for an empty buffer). */
  class WindowSeq {
    const src: Source
    var start: nat
    var remaining: nat

    constructor (src: Source, start: nat, len: nat)
      requires WellFormed(src)
      ensures this.src == src && this.start == start && remaining == len
    {
      this.src := src;
      this.start := start;
      remaining := len;
    }

    method Read(buf: array<byte>) returns (r: Option<nat>)
      requires WellFormed(src)
      modifies this, buf
      ensures start + remaining == old(start + remaining)
      ensures r.None? <==> old(remaining) > 0 && (buf.Length == 0 || old(start) >= |Content(src)|)
      ensures r == Some(0) <==> old(remaining) == 0
      ensures r.Some? && r.value > 0 ==>
        && r.value <= buf.Length && start == old(start) + r.value <= |Content(src)|
        && buf[..r.value] == Content(src)[old(start)..start]
    {
      if remaining == 0 {
        return Some(0);
      }
      var cap := if remaining < buf.Length then remaining else buf.Length;
      var n := ReadAt(src, start, buf, 0, cap);
      if n == 0 {
        return None;
      }
      start := start + n;
      remaining := remaining - n;
      return Some(n);
    }
  }
}
