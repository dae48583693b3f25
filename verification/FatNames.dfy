/**
 Names in a FAT32 directory: UTF-16 long names, the 8.3 mangle and the `~N`
 numeric tails that keep short names distinct.
 */
module FatNames {
  import opened Wrappers
  import opened Bytes

  // ---- UTF-16 ----

  /** One Unicode scalar value as one or two UTF-16 units. */
  function CharUnits(c: char): (r: seq<u16>)
    ensures 1 <= |r| <= 2
    ensures forall u :: u in r ==> u != 0 || c == 0 as char
  {
    var v := c as int;
    if v < 0x1_0000 then [v] else [0xD800 + (v - 0x1_0000) / 0x400, 0xDC00 + (v - 0x1_0000) % 0x400]
  }

  function Utf16(s: string): seq<u16> {
    if s == "" then [] else CharUnits(s[0]) + Utf16(s[1..])
  }

  predicate IsHighSurrogate(u: u16) {
    0xD800 <= u < 0xDC00
  }

  /** A scalar value's units tell where they end, so the encoding is injective. */
  lemma {:induction false} Utf16Injective(a: string, b: string)
    requires Utf16(a) == Utf16(b)
    ensures a == b
  {
    if a != "" && b != "" {
      var x, y := CharUnits(a[0]), CharUnits(b[0]);
      var u := Utf16(a);
      assert u[0] == x[0] == y[0];
      assert IsHighSurrogate(x[0]) <==> |x| == 2;
      assert IsHighSurrogate(y[0]) <==> |y| == 2;
      if |x| == 2 {
        assert u[1] == x[1] == y[1];
      }
      assert a[0] == b[0];
      assert Utf16(a[1..]) == u[|x|..] == Utf16(b[1..]);
      Utf16Injective(a[1..], b[1..]);
    }
  }

  lemma {:induction false} NoNulUnits(s: string)
    requires forall i :: 0 <= i < |s| ==> s[i] != 0 as char
    ensures forall u :: u in Utf16(s) ==> u != 0
  {
    if s != "" {
      NoNulUnits(s[1..]);
    }
  }

  // ---- The 8.3 mangle ----

  type ShortName = s: seq<byte> | |s| == 11 witness seq(11, _ => 0x20)

  const SPACE: byte := 0x20
  const TILDE: byte := 0x7E
  const UNDERSCORE: byte := 0x5F

  /** Upper-case letters, digits and the 8.3 punctuation. */
  predicate IsShortChar(c: char) {
    'A' <= c <= 'Z' || '0' <= c <= '9' || c in "!#$%&'()-@^_`{}~"
  }

  /** What one character becomes, and whether anything was lost besides case. */
  function MangleChar(c: char): (r: (Option<byte>, bool))
    ensures r.0.None? ==> r.1
  {
    if IsShortChar(c) then (Some(c as int), false)
    else if 'a' <= c <= 'z' then (Some(c as int - 0x20), false)
    else if c == ' ' || c == '.' then (None, true)
    else (Some(UNDERSCORE), true)
  }

  /** The bytes of a mangled name: printable ASCII without space, dot or lower case. */
  predicate IsMangled(b: byte) {
    0x21 <= b <= 0x7E && b != 0x2E
  }

  /** Mangle into at most `room` bytes; running out of room loses something. */
  function MangleInto(s: string, room: nat): (r: (seq<byte>, bool))
    ensures |r.0| <= room && forall b :: b in r.0 ==> IsMangled(b)
    decreases |s|
  {
    if s == "" then ([], false)
    else if room == 0 then ([], true)
    else
      var (b, lossy) := MangleChar(s[0]);
      if b.Some? then
        var (rest, more) := MangleInto(s[1..], room - 1);
        ([b.value] + rest, lossy || more)
      else
        var (rest, more) := MangleInto(s[1..], room);
        (rest, true)
  }

  method Mangle(s: string, room: nat) returns (out: seq<byte>, lossy: bool)
    ensures (out, lossy) == MangleInto(s, room)
  {
    hide MangleChar;
    out, lossy := [], false;
    var i := 0;
    assert s[0..] == s;
    ghost var whole := MangleInto(s, room);
    assert [] + whole.0 == whole.0;
    while i < |s|
      invariant i <= |s| && |out| <= room
      invariant var (rest, more) := MangleInto(s[i..], room - |out|); whole == (out + rest, lossy || more)
    {
      if |out| == room {
        assert out + [] == out;
        lossy := true;
        return;
      }
      assert s[i..][0] == s[i] && s[i..][1..] == s[i + 1..];
      var (b, lost) := MangleChar(s[i]);
      if lost {
        lossy := true;
      }
      if b.Some? {
        ghost var rest := MangleInto(s[i + 1..], room - |out| - 1).0;
        assert out + ([b.value] + rest) == (out + [b.value]) + rest;
        out := out + [b.value];
      }
      i := i + 1;
    }
    assert out + [] == out;
  }

  function TrimDots(s: string): (r: string)
    ensures |r| <= |s|
  {
    if s != "" && s[0] == '.' then TrimDots(s[1..]) else s
  }

  /** The last dot, if any. */
  function LastDot(s: string): (r: Option<nat>)
    ensures r.Some? ==> r.value < |s| && s[r.value] == '.'
    decreases |s|
  {
    if s == "" then None
    else if s[|s| - 1] == '.' then Some(|s| - 1)
    else LastDot(s[..|s| - 1])
  }

  /** Stem and extension, unless nothing but dots would be left of the stem. */
  function SplitName(long: string): (string, string) {
    var dot := LastDot(long);
    if dot.Some? && TrimDots(long[..dot.value]) != "" then (long[..dot.value], long[dot.value + 1..]) else (long, "")
  }

  datatype Mangled = Mangled(stem: seq<byte>, ext: seq<byte>, lossy: bool)

  function MangleName(long: string): (r: Mangled)
    ensures 1 <= |r.stem| <= 8 && |r.ext| <= 3
    ensures forall b :: b in r.stem || b in r.ext ==> IsMangled(b)
  {
    var (stemSrc, extSrc) := SplitName(long);
    var (stem, l1) := MangleInto(TrimDots(stemSrc), 8);
    var (ext, l2) := MangleInto(extSrc, 3);
    var dotted := |TrimDots(stemSrc)| != |stemSrc|;
    if stem == [] then Mangled([UNDERSCORE], ext, true) else Mangled(stem, ext, dotted || l1 || l2)
  }

  function Pad(s: seq<byte>, width: nat): (r: seq<byte>)
    requires |s| <= width
    ensures |r| == width
  {
    s + seq(width - |s|, _ => SPACE)
  }

  function Render(stem: seq<byte>, ext: seq<byte>): ShortName
    requires |stem| <= 8 && |ext| <= 3
  {
    Pad(stem, 8) + Pad(ext, 3)
  }

  function TrimSpaces(s: seq<byte>): seq<byte> {
    if s != [] && s[|s| - 1] == SPACE then TrimSpaces(s[..|s| - 1]) else s
  }

  lemma {:induction false} TrimPad(s: seq<byte>, width: nat)
    requires |s| <= width && SPACE !in s
    ensures TrimSpaces(Pad(s, width)) == s
    decreases width
  {
    if |s| < width {
      assert Pad(s, width)[..width - 1] == Pad(s, width - 1);
      TrimPad(s, width - 1);
    } else {
      assert Pad(s, width) == s;
      assert s != [] ==> s[|s| - 1] in s;
    }
  }

  /** How a reader shows a short name: stem, and a dot only before a non-empty extension. */
  function ShortUnits(short: ShortName): seq<u16> {
    var stem, ext := TrimSpaces(short[..8]), TrimSpaces(short[8..]);
    if ext == [] then stem else stem + [0x2E] + ext
  }

  function Dotted(stem: seq<byte>, ext: seq<byte>): seq<u16> {
    if ext == [] then stem else stem + [0x2E] + ext
  }

  lemma RenderShows(stem: seq<byte>, ext: seq<byte>)
    requires |stem| <= 8 && |ext| <= 3 && SPACE !in stem && SPACE !in ext
    ensures ShortUnits(Render(stem, ext)) == Dotted(stem, ext)
  {
    var short := Render(stem, ext);
    assert short[..8] == Pad(stem, 8) && short[8..] == Pad(ext, 3);
    TrimPad(stem, 8);
    TrimPad(ext, 3);
  }

  // ---- Numeric tails ----

  /** Beyond this many names a numeric tail would no longer fit the stem. */
  const TAIL_LIMIT: nat := 10_000_000

  lemma {:induction false} DigitsLength(n: nat, width: nat)
    requires width > 0 && n < Pow10(width)
    ensures |Digits(n)| <= width
  {
    if n >= 10 {
      DigitsLength(n / 10, width - 1);
    }
  }

  function Pow10(k: nat): nat {
    if k == 0 then 1 else 10 * Pow10(k - 1)
  }

  lemma TailFits(n: nat)
    requires n < TAIL_LIMIT
    ensures |Digits(n)| <= 7
  {
    assert Pow10(3) == 1000 && Pow10(5) == 100_000 && Pow10(7) == TAIL_LIMIT;
    DigitsLength(n, 7);
  }

  /** The stem cut to make room for `~n`. */
  function Tailed(stem: seq<byte>, n: nat): (r: seq<byte>)
    requires |stem| <= 8 && n < TAIL_LIMIT
    ensures |r| <= 8 && (SPACE !in stem ==> SPACE !in r)
  {
    TailFits(n);
    var tail := [TILDE] + Digits(n);
    var keep := 8 - |tail|;
    (if |stem| <= keep then stem else stem[..keep]) + tail
  }

  function Candidate(m: Mangled, n: nat): ShortName
    requires |m.stem| <= 8 && |m.ext| <= 3 && n < TAIL_LIMIT
  {
    Render(Tailed(m.stem, n), m.ext)
  }

  /** When two tilde-separated strings agree, the shorter tail shows a tilde inside the longer one. */
  lemma ShorterTail(p: seq<byte>, a: seq<byte>, q: seq<byte>, b: seq<byte>)
    requires p + [TILDE] + a == q + [TILDE] + b
    ensures |a| < |b| ==> TILDE in b
    ensures |a| == |b| ==> a == b
  {
    var s := p + [TILDE] + a;
    assert s[|p|] == TILDE;
    if |a| < |b| {
      assert s[|p|] == b[|p| - |q| - 1];
    } else if |a| == |b| {
      assert s[|p| + 1..] == a && s[|q| + 1..] == b;
    }
  }

  /** The digits after the last tilde give the number back. */
  lemma TailedInjective(stem: seq<byte>, a: nat, b: nat)
    requires |stem| <= 8 && a < TAIL_LIMIT && b < TAIL_LIMIT && Tailed(stem, a) == Tailed(stem, b)
    ensures a == b
  {
    TailFits(a);
    TailFits(b);
    var p := if |stem| <= 7 - |Digits(a)| then stem else stem[..7 - |Digits(a)|];
    var q := if |stem| <= 7 - |Digits(b)| then stem else stem[..7 - |Digits(b)|];
    assert p + [TILDE] + Digits(a) == Tailed(stem, a);
    assert q + [TILDE] + Digits(b) == Tailed(stem, b);
    ShorterTail(p, Digits(a), q, Digits(b));
    ShorterTail(q, Digits(b), p, Digits(a));
    DigitsInjective(a, b);
  }

  lemma CandidateInjective(m: Mangled, a: nat, b: nat)
    requires |m.stem| <= 8 && |m.ext| <= 3 && SPACE !in m.stem
    requires a < TAIL_LIMIT && b < TAIL_LIMIT && Candidate(m, a) == Candidate(m, b)
    ensures a == b
  {
    var x, y := Tailed(m.stem, a), Tailed(m.stem, b);
    assert Candidate(m, a)[..8] == Pad(x, 8) && Candidate(m, b)[..8] == Pad(y, 8);
    TrimPad(x, 8);
    TrimPad(y, 8);
    TailedInjective(m.stem, a, b);
  }

  /** If the first `k` tails are all taken, at least `k` names are. */
  lemma {:induction false} TakenTails(m: Mangled, used: set<ShortName>, k: nat) returns (taken: set<ShortName>)
    requires |m.stem| <= 8 && |m.ext| <= 3 && SPACE !in m.stem && k < TAIL_LIMIT
    requires forall n :: 1 <= n <= k ==> Candidate(m, n) in used
    ensures taken <= used && |taken| == k && forall s :: s in taken ==> exists n :: 1 <= n <= k && Candidate(m, n) == s
  {
    if k == 0 {
      taken := {};
    } else {
      taken := TakenTails(m, used, k - 1);
      if Candidate(m, k) in taken {
        var n :| 1 <= n <= k - 1 && Candidate(m, n) == Candidate(m, k);
        CandidateInjective(m, n, k);
      }
      taken := taken + {Candidate(m, k)};
    }
  }

  /** Some tail is free within one more try than there are names. */
  lemma TailSearchEnds(m: Mangled, used: set<ShortName>, k: nat)
    requires |m.stem| <= 8 && |m.ext| <= 3 && SPACE !in m.stem && k < TAIL_LIMIT
    requires forall n :: 1 <= n <= k ==> Candidate(m, n) in used
    ensures k <= |used|
  {
    var taken := TakenTails(m, used, k);
    SubsetSize(taken, used);
  }

  lemma SubsetSize<T>(a: set<T>, b: set<T>)
    requires a <= b
    ensures |a| <= |b|
  {
    assert b == a + (b - a);
    assert |b| == |a| + |b - a|;
  }

  /** The 8.3 rendering reproduces the long name exactly, so no long entry is needed. */
  predicate ShowsExactly(m: Mangled, long: string) {
    Dotted(m.stem, m.ext) == Utf16(long)
  }

  /**
   `short_name`: the plain 8.3 rendering if nothing was lost and it is free, else
   the first free numeric tail. The result is new to `used`; `needsLfn` is false
   only when a reader would show exactly the long name.
   */
  method ShortNameFor(long: string, used: set<ShortName>) returns (short: ShortName, needsLfn: bool)
    requires |used| < TAIL_LIMIT - 1
    ensures short !in used
    ensures !needsLfn ==> ShortUnits(short) == Utf16(long)
    ensures forall i :: 0 <= i < 11 ==> short[i] == SPACE || IsMangled(short[i])
    ensures short[0] != SPACE
    ensures var m := MangleName(long);
            if !m.lossy && Render(m.stem, m.ext) !in used then short == Render(m.stem, m.ext) && needsLfn == !ShowsExactly(m, long)
            else needsLfn && exists n :: 1 <= n <= |used| + 1 && short == Candidate(m, n) && forall k :: 1 <= k < n ==> Candidate(m, k) in used
  {
    var (stemSrc, extSrc) := SplitName(long);
    var lossy := |TrimDots(stemSrc)| != |stemSrc|;
    var stem, l1 := Mangle(TrimDots(stemSrc), 8);
    if stem == [] {
      stem, l1 := [UNDERSCORE], true;
    }
    var ext, l2 := Mangle(extSrc, 3);
    lossy := lossy || l1 || l2;
    ghost var m := MangleName(long);
    assert m == Mangled.Mangled(stem, ext, lossy);
    NoSpaces(m);
    if !lossy {
      var candidate := Render(stem, ext);
      if candidate !in used {
        RenderShows(stem, ext);
        RenderPrintable(stem, ext);
        return candidate, Dotted(stem, ext) != Utf16(long);
      }
    }
    var n := 1;
    while n < TAIL_LIMIT
      invariant 1 <= n <= |used| + 1
      invariant forall k :: 1 <= k < n ==> Candidate(m, k) in used
      decreases TAIL_LIMIT - n
    {
      var base := Tailed(stem, n);
      var candidate := Render(base, ext);
      if candidate !in used {
        TailedPrintable(stem, n);
        RenderPrintable(base, ext);
        assert candidate == Candidate(m, n);
        return candidate, true;
      }
      TailSearchEnds(m, used, n);
      n := n + 1;
    }
  }

  lemma NoSpaces(m: Mangled)
    requires forall b :: b in m.stem || b in m.ext ==> IsMangled(b)
    ensures SPACE !in m.stem && SPACE !in m.ext
  {
  }

  lemma TailedPrintable(stem: seq<byte>, n: nat)
    requires |stem| <= 8 && n < TAIL_LIMIT && forall b :: b in stem ==> IsMangled(b)
    ensures Tailed(stem, n) != [] && forall b :: b in Tailed(stem, n) ==> IsMangled(b)
  {
  }

  lemma RenderPrintable(stem: seq<byte>, ext: seq<byte>)
    requires 1 <= |stem| <= 8 && |ext| <= 3 && forall b :: b in stem || b in ext ==> IsMangled(b)
    ensures forall i :: 0 <= i < 11 ==> Render(stem, ext)[i] == SPACE || IsMangled(Render(stem, ext)[i])
    ensures Render(stem, ext)[0] != SPACE
  {
    assert Render(stem, ext)[0] == stem[0] && stem[0] in stem;
  }
}
