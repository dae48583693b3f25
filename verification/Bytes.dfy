/** Bytes, fixed-width integers and UTF-8 text, as the formats use them. */
module Bytes {
  import opened Wrappers

  type byte = x: int | 0 <= x < 0x100
  type u16 = x: int | 0 <= x < 0x1_0000
  type u32 = x: int | 0 <= x < 0x1_0000_0000
  type u64 = x: int | 0 <= x < 0x1_0000_0000_0000_0000

  const TWO_64: nat := 0x1_0000_0000_0000_0000

  function Pow256(width: nat): (r: nat)
    ensures r > 0
  {
    if width == 0 then 1 else 256 * Pow256(width - 1)
  }

  /** The low `width` bytes of `n`, most significant first. */
  function BigEndian(n: nat, width: nat): (r: seq<byte>)
    ensures |r| == width
  {
    if width == 0 then [] else BigEndian(n / 256, width - 1) + [n % 256]
  }

  function FromBigEndian(s: seq<byte>): nat {
    if s == [] then 0 else FromBigEndian(s[..|s| - 1]) * 256 + s[|s| - 1]
  }

  lemma {:induction false} BigEndianRoundTrip(n: nat, width: nat)
    requires n < Pow256(width)
    ensures FromBigEndian(BigEndian(n, width)) == n
  {
    if width > 0 {
      BigEndianRoundTrip(n / 256, width - 1);
      assert BigEndian(n, width)[..width - 1] == BigEndian(n / 256, width - 1);
    }
  }

  lemma {:induction false} FromBigEndianRoundTrip(s: seq<byte>)
    ensures FromBigEndian(s) < Pow256(|s|)
    ensures BigEndian(FromBigEndian(s), |s|) == s
  {
    if s != [] {
      FromBigEndianRoundTrip(s[..|s| - 1]);
    }
  }

  /** The low `width` bytes of `n`, least significant first. */
  function LittleEndian(n: nat, width: nat): (r: seq<byte>)
    ensures |r| == width
  {
    if width == 0 then [] else [n % 256] + LittleEndian(n / 256, width - 1)
  }

  predicate Between(lo: int, b: byte, hi: int) {
    lo <= b <= hi
  }

  /** How many bytes the UTF-8 sequence at the front takes; 0 when it is ill-formed (RFC 3629, section 4). */
  function Utf8Step(s: seq<byte>): (n: nat)
    requires s != []
    ensures n <= |s|
  {
    var b := s[0];
    if b < 0x80 then 1
    else if Between(0xC2, b, 0xDF) then
      if |s| >= 2 && Between(0x80, s[1], 0xBF) then 2 else 0
    else if Between(0xE0, b, 0xEF) then
      if |s| >= 3 && Between(if b == 0xE0 then 0xA0 else 0x80, s[1], if b == 0xED then 0x9F else 0xBF) && Between(0x80, s[2], 0xBF)
      then 3 else 0
    else if Between(0xF0, b, 0xF4) then
      if |s| >= 4 && Between(if b == 0xF0 then 0x90 else 0x80, s[1], if b == 0xF4 then 0x8F else 0xBF)
         && Between(0x80, s[2], 0xBF) && Between(0x80, s[3], 0xBF)
      then 4 else 0
    else 0
  }

  predicate ValidUtf8(s: seq<byte>)
    decreases |s|
  {
    s == [] || (Utf8Step(s) > 0 && ValidUtf8(s[Utf8Step(s)..]))
  }

  /** A Rust `String`: bytes that are valid UTF-8. */
  type Utf8 = s: seq<byte> | ValidUtf8(s)

  /** Decimal digits, as ASCII. */
  function Digits(n: nat): (r: seq<byte>)
    ensures r != [] && forall b :: b in r ==> 0x30 <= b <= 0x39
  {
    if n < 10 then [0x30 + n] else Digits(n / 10) + [0x30 + n % 10]
  }

  lemma {:induction false} DigitsInjective(m: nat, n: nat)
    requires Digits(m) == Digits(n)
    ensures m == n
  {
    var a, b := Digits(m), Digits(n);
    assert a[|a| - 1] == b[|b| - 1];
    if m >= 10 && n >= 10 {
      assert a[..|a| - 1] == Digits(m / 10) && b[..|b| - 1] == Digits(n / 10);
      DigitsInjective(m / 10, n / 10);
    }
  }

  /** Where `b` first stands. */
  function Position(s: seq<byte>, b: byte): (r: Option<nat>)
    ensures r.Some? ==> r.value < |s| && s[r.value] == b && b !in s[..r.value]
    ensures r.None? ==> b !in s
  {
    if s == [] then None
    else if s[0] == b then Some(0)
    else
      var rest := Position(s[1..], b);
      if rest.None? then None else Some(rest.value + 1)
  }

  /** A growable byte vector that encoders append to. */
  class ByteVec {
    var bytes: seq<byte>

    constructor ()
      ensures bytes == []
    {
      bytes := [];
    }

    method Push(b: byte)
      modifies this
      ensures bytes == old(bytes) + [b]
    {
      bytes := bytes + [b];
    }

    method Extend(s: seq<byte>)
      modifies this
      ensures bytes == old(bytes) + s
    {
      bytes := bytes + s;
    }
  }
}
