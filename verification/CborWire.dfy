/**
 The wire form of canonical CBOR in the terms of RFC 8949, apart from the codec: what
 the bytes of an item are, written with the numbers of the standard. The codec is
 proved to write and to accept exactly that.
 */
module CborWire {
  import opened Wrappers
  import opened Bytes
  import opened Cbor

  /**
   A head (section 3) in its shortest form (section 4.2.1): three bits of major type,
   five of information, and the argument in none, one, two, four or eight bytes.
   */
  ghost predicate IsHead(h: seq<byte>, major: nat, n: nat) {
    || (n <= 23 && |h| == 1 && h[0] == 32 * major + n)
    || (24 <= n <= 0xff && |h| == 2 && h[0] == 32 * major + 24 && h[1] == n)
    || (0x100 <= n <= 0xffff && |h| == 3 && h[0] == 32 * major + 25 && Two(h[1..]) == n)
    || (0x1_0000 <= n <= 0xffff_ffff && |h| == 5 && h[0] == 32 * major + 26 && Four(h[1..]) == n)
    || (0x1_0000_0000 <= n <= 0xffff_ffff_ffff_ffff && |h| == 9 && h[0] == 32 * major + 27 && 0x1_0000_0000 * Four(h[1..5]) + Four(h[5..]) == n)
  }

  /** Numbers in network byte order. */
  ghost function Two(s: seq<byte>): int
    requires |s| == 2
  {
    var a: int, b: int := s[0], s[1];
    0x100 * a + b
  }

  ghost function Four(s: seq<byte>): int
    requires |s| == 4
  {
    var a: int, b: int, c: int, d: int := s[0], s[1], s[2], s[3];
    0x100_0000 * a + 0x1_0000 * b + 0x100 * c + d
  }

  /** Major types 0, 2, 3, 4 and 5 (section 3.1): a number; bytes; text; as many items as the head says; as many keys with items. */
  ghost predicate IsItem(b: seq<byte>, v: Value)
    decreases v, 1, 0
  {
    match v
    case Uint(n) => IsHead(b, 0, n)
    case Bytes(s) => IsString(b, 2, s)
    case Text(t) => IsString(b, 3, t)
    case Array(_) => exists j :: 0 <= j <= |b| && IsHead(b[..j], 4, |v.items|) && AreItems(b[j..], v, v.items)
    case Map(_) => exists j :: 0 <= j <= |b| && IsHead(b[..j], 5, |v.entries|) && AreEntries(b[j..], v, v.entries)
  }

  ghost predicate IsString(b: seq<byte>, major: nat, s: seq<byte>) {
    exists j :: 0 <= j <= |b| && IsHead(b[..j], major, |s|) && b[j..] == s
  }

  ghost predicate AreItems(b: seq<byte>, ctx: Value, items: seq<Value>)
    decreases ctx, 0, |items|
  {
    if items == [] then b == []
    else items[0] < ctx && exists j :: 0 <= j <= |b| && IsItem(b[..j], items[0]) && AreItems(b[j..], ctx, items[1..])
  }

  ghost predicate AreEntries(b: seq<byte>, ctx: Value, entries: seq<Entry>)
    decreases ctx, 0, |entries|
  {
    if entries == [] then b == []
    else entries[0].val < ctx && exists j, k :: 0 <= j <= k <= |b| && IsHead(b[..j], 0, entries[0].key)
                                   && IsItem(b[j..k], entries[0].val) && AreEntries(b[k..], ctx, entries[1..])
  }

  // ---- Heads ----

  lemma OneByteIs(b: byte)
    ensures FromBigEndian([b]) == b
  {
    assert [b][..0] == [];
  }

  lemma TwoBytes(s: seq<byte>)
    requires |s| == 2
    ensures FromBigEndian(s) == Two(s)
  {
    OneByteIs(s[0]);
    assert s[..|s| - 1] == [s[0]];
  }

  lemma FourBytes(s: seq<byte>)
    requires |s| == 4
    ensures FromBigEndian(s) == Four(s)
  {
    TwoBytes(s[..3][..2]);
  }

  lemma EightBytes(s: seq<byte>)
    requires |s| == 8
    ensures FromBigEndian(s) == 0x1_0000_0000 * Four(s[..4]) + Four(s[4..])
  {
    FourBytes(s[..4]);
    assert FromBigEndian(s[..5]) == FromBigEndian(s[..4]) * 256 + s[4] by { assert s[..5][..4] == s[..4]; }
    assert FromBigEndian(s[..6]) == FromBigEndian(s[..5]) * 256 + s[5] by { assert s[..6][..5] == s[..5]; }
    assert FromBigEndian(s[..7]) == FromBigEndian(s[..6]) * 256 + s[6] by { assert s[..7][..6] == s[..6]; }
  }

  /** The argument in `width` bytes is the number they spell. */
  lemma WideIs(s: seq<byte>, n: nat)
    requires n < Pow256(|s|)
    ensures s == BigEndian(n, |s|) <==> FromBigEndian(s) == n
  {
    BigEndianRoundTrip(n, |s|);
    FromBigEndianRoundTrip(s);
  }

  lemma Widths()
    ensures Pow256(2) == 0x1_0000 && Pow256(4) == 0x1_0000_0000 && Pow256(8) == 0x1_0000_0000_0000_0000
  {
    assert Pow256(3) == 0x100_0000 && Pow256(5) == 0x100_0000_0000;
    assert Pow256(6) == 0x1_0000_0000_0000 && Pow256(7) == 0x100_0000_0000_0000;
  }

  /** The encoder's head is the standard's. */
  lemma HeadIs(h: seq<byte>, major: nat, n: u64)
    requires major < 8
    ensures h == Head(major, n) <==> IsHead(h, major, n)
  {
    Widths();
    hide Pow256, BigEndian, FromBigEndian;
    if 0x100 <= n <= 0xffff && |h| == 3 {
      WideIs(h[1..], n);
      TwoBytes(h[1..]);
      assert h == [h[0]] + h[1..];
    } else if 0x1_0000 <= n <= 0xffff_ffff && |h| == 5 {
      WideIs(h[1..], n);
      FourBytes(h[1..]);
      assert h == [h[0]] + h[1..];
    } else if 0x1_0000_0000 <= n && |h| == 9 {
      WideIs(h[1..], n);
      EightBytes(h[1..]);
      assert h[1..][..4] == h[1..5] && h[1..][4..] == h[5..];
      assert h == [h[0]] + h[1..];
    }
  }

  // ---- Items ----

  /** The encoding of a canonical value is its wire form, and nothing else is. */
  lemma {:induction false} EncodeIsItem(v: Value, b: seq<byte>)
    requires Canonical(v) && Fits(v)
    ensures Encode(v) == Ok(b) <==> IsItem(b, v)
    decreases v, 1, 0
  {
    match v {
      case Uint(n) => HeadIs(b, 0, n);
      case Bytes(s) => PlainIsItem(b, 2, s);
      case Text(t) => PlainIsItem(b, 3, t);
      case Array(items) =>
        CanonicalParts(v);
        hide Encode, EncodeItems, Canonical, Fits, Head, IsHead, AreItems;
        ArrayEncodes(v);
        forall j | 0 <= j <= |b| ensures IsHead(b[..j], 4, |items|) && AreItems(b[j..], v, items) <==> b[..j] == Head(4, |items|) && EncodeItems(v, items) == Ok(b[j..]) {
          HeadIs(b[..j], 4, |items|);
          ItemsAre(b[j..], v, items);
        }
        SplitsOnce(b, Head(4, |items|), EncodeItems(v, items));
      case Map(entries) =>
        CanonicalParts(v);
        hide Encode, EncodeEntries, Canonical, Fits, Head, IsHead, AreEntries, KeysAscendStrictly;
        MapEncodes(v);
        forall j | 0 <= j <= |b| ensures IsHead(b[..j], 5, |entries|) && AreEntries(b[j..], v, entries) <==> b[..j] == Head(5, |entries|) && EncodeEntries(v, entries) == Ok(b[j..]) {
          HeadIs(b[..j], 5, |entries|);
          EntriesAre(b[j..], v, entries);
        }
        SplitsOnce(b, Head(5, |entries|), EncodeEntries(v, entries));
    }
  }

  lemma PlainIsItem(b: seq<byte>, major: nat, s: seq<byte>)
    requires major < 8 && |s| < TWO_64
    ensures b == Head(major, |s|) + s <==> IsString(b, major, s)
  {
    var h := Head(major, |s|);
    HeadIs(h, major, |s|);
    hide IsHead, Head;
    if b == h + s {
      assert b[..|h|] == h && b[|h|..] == s;
    }
    if j :| 0 <= j <= |b| && IsHead(b[..j], major, |s|) && b[j..] == s {
      HeadIs(b[..j], major, |s|);
      assert b == b[..j] + b[j..];
    }
  }

  /** A list is a head and a body exactly when it splits so at some place. */
  lemma SplitsOnce(b: seq<byte>, h: seq<byte>, body: Result<seq<byte>, EncodeError>)
    ensures body.Ok? && b == h + body.value <==> exists j :: 0 <= j <= |b| && b[..j] == h && body == Ok(b[j..])
  {
    if body.Ok? && b == h + body.value {
      assert b[..|h|] == h && b[|h|..] == body.value;
    }
    if j :| 0 <= j <= |b| && b[..j] == h && body == Ok(b[j..]) {
      assert b == b[..j] + b[j..];
    }
  }

  lemma {:induction false} ItemsAre(b: seq<byte>, ctx: Value, items: seq<Value>)
    requires forall k :: 0 <= k < |items| ==> items[k] < ctx && Fits(items[k]) && Canonical(items[k])
    ensures EncodeItems(ctx, items) == Ok(b) <==> AreItems(b, ctx, items)
    decreases ctx, 0, |items|
  {
    hide Encode, Canonical, Fits, IsItem;
    if items != [] {
      CanonicalItemsEncode(ctx, items);
      var first, rest := Encode(items[0]), EncodeItems(ctx, items[1..]);
      forall j | 0 <= j <= |b| ensures IsItem(b[..j], items[0]) && AreItems(b[j..], ctx, items[1..]) <==> first == Ok(b[..j]) && rest == Ok(b[j..]) {
        EncodeIsItem(items[0], b[..j]);
        ItemsAre(b[j..], ctx, items[1..]);
      }
      if first.Ok? && rest.Ok? {
        SplitsOnce(b, first.value, rest);
      }
    }
  }

  lemma {:induction false} EntriesAre(b: seq<byte>, ctx: Value, entries: seq<Entry>)
    requires forall e :: e in entries ==> e.val < ctx && Fits(e.val) && Canonical(e.val)
    ensures EncodeEntries(ctx, entries) == Ok(b) <==> AreEntries(b, ctx, entries)
    decreases ctx, 0, |entries|
  {
    hide Encode, Canonical, Fits, IsItem, Head, IsHead;
    if entries != [] {
      CanonicalEntriesEncode(ctx, entries);
      var key, val, rest := Head(0, entries[0].key), Encode(entries[0].val), EncodeEntries(ctx, entries[1..]);
      forall j, k | 0 <= j <= k <= |b|
        ensures IsHead(b[..j], 0, entries[0].key) && IsItem(b[j..k], entries[0].val) && AreEntries(b[k..], ctx, entries[1..])
                <==> b[..j] == key && val == Ok(b[j..k]) && rest == Ok(b[k..])
      {
        HeadIs(b[..j], 0, entries[0].key);
        EncodeIsItem(entries[0].val, b[j..k]);
        EntriesAre(b[k..], ctx, entries[1..]);
      }
      SplitsTwice(b, key, val, rest);
    }
  }

  lemma SplitsTwice(b: seq<byte>, key: seq<byte>, val: Result<seq<byte>, EncodeError>, rest: Result<seq<byte>, EncodeError>)
    ensures val.Ok? && rest.Ok? && b == key + val.value + rest.value <==>
            exists j, k :: 0 <= j <= k <= |b| && b[..j] == key && val == Ok(b[j..k]) && rest == Ok(b[k..])
  {
    if val.Ok? && rest.Ok? && b == key + val.value + rest.value {
      var j, k := |key|, |key| + |val.value|;
      assert b[..j] == key && b[j..k] == val.value && b[k..] == rest.value;
    }
    if j, k :| 0 <= j <= k <= |b| && b[..j] == key && val == Ok(b[j..k]) && rest == Ok(b[k..]) {
      assert b == b[..j] + b[j..k] + b[k..];
    }
  }

  /**
   The decoder accepts exactly the wire forms of values whose maps ascend by key, of no
   more than 128 levels below the top, and gives the value.
   */
  lemma DecodesItems(b: seq<byte>, v: Value)
    ensures Decode(b) == Ok(v) <==> Canonical(v) && Fits(v) && HeightAtMost(v, 128) && IsItem(b, v)
  {
    hide Encode, Decode, Canonical, Fits, IsItem, HeightAtMost;
    DecodeExact(b, v);
    if Canonical(v) && Fits(v) {
      EncodeIsItem(v, b);
    }
  }

  // ---- What does not encode ----

  ghost predicate KeysApart(es: seq<Entry>) {
    forall i, j :: 0 <= i < j < |es| ==> es[i].key != es[j].key
  }

  /** No map in the value has a key twice. */
  ghost predicate NoKeyTwice(v: Value) {
    match v
    case Array(items) => forall i :: i in items ==> NoKeyTwice(i)
    case Map(entries) => KeysApart(entries) && forall e :: e in entries ==> NoKeyTwice(e.val)
    case _ => true
  }

  /** Encoding fails exactly for a value with a map that has a key twice, in whatever order the entries are. */
  lemma {:induction false} EncodesExactly(v: Value)
    requires Fits(v)
    ensures Encode(v).Ok? <==> NoKeyTwice(v)
    decreases v, 1, 0
  {
    match v {
      case Array(items) =>
        assert forall k :: 0 <= k < |items| ==> items[k] in items && items[k] < v && Fits(items[k]);
        hide Encode, EncodeItems, Fits, Head;
        ArrayEncodes(v);
        ItemsEncode(v, items);
      case Map(entries) =>
        SortMembers(entries);
        SortKeepsApart(entries);
        SortAscends(entries);
        ApartIsStrict(SortByKey(entries));
        hide EncodeEntries, Fits, Head, SortByKey, FirstDuplicate, KeysApart;
        EntriesEncode(v, SortByKey(entries));
      case _ =>
    }
  }

  lemma {:induction false} ItemsEncode(ctx: Value, items: seq<Value>)
    requires forall k :: 0 <= k < |items| ==> items[k] < ctx && Fits(items[k])
    ensures EncodeItems(ctx, items).Ok? <==> forall i :: i in items ==> NoKeyTwice(i)
    decreases ctx, 0, |items|
  {
    hide Encode, NoKeyTwice, Fits;
    if items != [] {
      EncodesExactly(items[0]);
      ItemsEncode(ctx, items[1..]);
      assert items == [items[0]] + items[1..];
    }
  }

  lemma {:induction false} EntriesEncode(ctx: Value, entries: seq<Entry>)
    requires forall e :: e in entries ==> e.val < ctx && Fits(e.val)
    ensures EncodeEntries(ctx, entries).Ok? <==> forall e :: e in entries ==> NoKeyTwice(e.val)
    decreases ctx, 0, |entries|
  {
    hide Encode, NoKeyTwice, Fits, Head;
    if entries != [] {
      EncodesExactly(entries[0].val);
      EntriesEncode(ctx, entries[1..]);
      assert entries == [entries[0]] + entries[1..];
    }
  }

  lemma {:induction false} InsertKeepsApart(es: seq<Entry>, e: Entry)
    ensures KeysApart(Insert(es, e)) <==> KeysApart(es) && forall x :: x in es ==> x.key != e.key
    decreases |es|
  {
    if es == [] || es[|es| - 1].key <= e.key {
      LastApart(es, e);
    } else {
      var init, last := es[..|es| - 1], es[|es| - 1];
      InsertKeepsApart(init, e);
      LastApart(Insert(init, e), last);
      LastApart(init, last);
      assert es == init + [last];
      assert forall x :: x in Insert(init, e) <==> x in multiset(Insert(init, e));
      assert forall x :: x in init <==> x in multiset(init);
    }
  }

  lemma LastApart(es: seq<Entry>, e: Entry)
    ensures KeysApart(es + [e]) <==> KeysApart(es) && forall x :: x in es ==> x.key != e.key
  {
    var all := es + [e];
    if KeysApart(all) {
      forall i, j | 0 <= i < j < |es| ensures es[i].key != es[j].key {
        assert all[i] == es[i] && all[j] == es[j];
      }
      forall x | x in es ensures x.key != e.key {
        var i :| 0 <= i < |es| && es[i] == x;
        assert all[i] == x && all[|es|] == e;
      }
    }
  }

  lemma {:induction false} SortKeepsApart(es: seq<Entry>)
    ensures KeysApart(SortByKey(es)) <==> KeysApart(es)
    decreases |es|
  {
    if es != [] {
      var init, last := es[..|es| - 1], es[|es| - 1];
      SortKeepsApart(init);
      InsertKeepsApart(SortByKey(init), last);
      SortMembers(init);
      LastApart(init, last);
      assert es == init + [last];
    }
  }

  /** In key order, no key twice is no equal neighbours. */
  lemma ApartIsStrict(es: seq<Entry>)
    requires KeysAscend(es)
    ensures KeysApart(es) <==> FirstDuplicate(es, 1).None?
  {
    NoDuplicateStrict(es, 1);
    if FirstDuplicate(es, 1).None? {
      NoDuplicateAscends(es);
    } else {
      var i :| 1 <= i < |es| && es[i - 1].key == es[i].key;
    }
  }

  /** Entry `i` has the key of the one before it, and none from `from` on has sooner. */
  ghost predicate IsFirstTwin(es: seq<Entry>, from: nat, i: nat)
    requires 1 <= from <= i < |es|
  {
    es[i - 1].key == es[i].key && forall j :: from <= j < i ==> es[j].key != es[j - 1].key
  }

  /** The key that is reported stands twice, and no smaller one does. */
  lemma {:induction false} ReportsLeast(es: seq<Entry>, from: nat)
    requires 1 <= from && FirstDuplicate(es, from).Some?
    ensures exists i :: from <= i < |es| && IsFirstTwin(es, from, i) && es[i].key == FirstDuplicate(es, from).value
    decreases |es| - from
  {
    if es[from - 1].key != es[from].key {
      ReportsLeast(es, from + 1);
    }
  }

  // ---- What does not decode ----

  /**
   The jump table of the standard (appendix B), for an item at `pos`: which first bytes
   are read as what, and which are refused with which error.
   */
  lemma JumpTable(input: seq<byte>, pos: nat, depth: nat, limit: nat)
    requires pos < |input| && depth <= limit
    ensures var b, r := input[pos], Parse(input, pos, depth, limit);
            && (b <= 0x17 ==> r == Ok((Uint(b), pos + 1)))
            && (0x20 <= b <= 0x37 ==> r == Err(Forbidden(pos, "negative integer")))
            && (0x40 <= b <= 0x57 ==> r == if pos + 1 + (b - 0x40) > |input| then Err(Length(pos))
                                           else Ok((Bytes(input[pos + 1..pos + 1 + (b - 0x40)]), pos + 1 + (b - 0x40))))
            && (0x60 <= b <= 0x77 ==> r == if pos + 1 + (b - 0x60) > |input| then Err(Length(pos))
                                           else if !ValidUtf8(input[pos + 1..pos + 1 + (b - 0x60)]) then Err(BadUtf8(pos))
                                           else Ok((Text(input[pos + 1..pos + 1 + (b - 0x60)]), pos + 1 + (b - 0x60))))
            && (b == 0x80 ==> r == Ok((Array([]), pos + 1))) && (b == 0xa0 ==> r == Ok((Map([]), pos + 1)))
            && (0xc0 <= b <= 0xd7 ==> r == Err(Forbidden(pos, "tag")))
            && (0xe0 <= b <= 0xf7 ==> r == Err(Forbidden(pos, "float or simple value")))
            && (b % 0x20 in {0x1c, 0x1d, 0x1e} ==> r == Err(Forbidden(pos, "reserved additional-info")))
            && (b % 0x20 == 0x1f ==> r == Err(Forbidden(pos, "indefinite length")))
  {
    hide ReadWide;
    var head := ReadHead(input, pos);
    assert input[pos] % 32 < 24 ==> head == Ok(HeadRead(input[pos] / 32, input[pos] % 32, pos + 1));
    hide ReadHead, ValidUtf8;
  }

  /** How many bytes of argument a first byte announces (table 1 in section 3 says 24 to 27: one, two, four, eight). */
  ghost function Announced(b: byte): nat {
    if b % 0x20 == 0x18 then 1 else if b % 0x20 == 0x19 then 2 else if b % 0x20 == 0x1a then 4 else if b % 0x20 == 0x1b then 8 else 0
  }

  /** A longer argument than needed is refused, and one cut off by the end of the input as such. */
  lemma ArgumentErrors(input: seq<byte>, pos: nat)
    requires pos < |input| && Announced(input[pos]) > 0
    ensures ReadHead(input, pos) == Err(UnexpectedEof(|input|)) <==> pos + 1 + Announced(input[pos]) > |input|
    ensures ReadHead(input, pos) == Err(NonMinimal(pos)) <==> pos + 1 + Announced(input[pos]) <= |input| && IsTooLong(input, pos)
    ensures ReadHead(input, pos).Err? ==> ReadHead(input, pos) in {Err(UnexpectedEof(|input|)), Err(NonMinimal(pos))}
  {
    var width := Announced(input[pos]);
    if pos + 1 + width <= |input| {
      if width == 1 {
        OneByteIs(input[pos + 1]);
        assert input[pos + 1..pos + 2] == [input[pos + 1]];
      } else {
        UpperHalf(input, pos, width);
      }
    }
    hide FromBigEndian;
  }

  /** A shorter head holds the argument: below 24, or with an upper half of zeros. */
  ghost predicate IsTooLong(input: seq<byte>, pos: nat)
    requires pos < |input| && pos + 1 + Announced(input[pos]) <= |input|
  {
    var width := Announced(input[pos]);
    if width == 1 then input[pos + 1] < 24 else forall i :: pos < i <= pos + width / 2 ==> input[i] == 0
  }

  /** An argument fits half its width exactly when the upper half is zero. */
  lemma UpperHalf(input: seq<byte>, pos: nat, width: nat)
    requires width in {2, 4, 8} && pos + 1 + width <= |input|
    ensures FromBigEndian(input[pos + 1..pos + 1 + width]) < (if width == 2 then 0x100 else if width == 4 then 0x1_0000 else 0x1_0000_0000) <==>
            forall i :: pos < i <= pos + width / 2 ==> input[i] == 0
  {
    var s := input[pos + 1..pos + 1 + width];
    assert forall i :: 0 <= i < width ==> s[i] == input[pos + 1 + i];
    assert (forall i :: pos < i <= pos + width / 2 ==> input[i] == 0) <==> forall k :: 0 <= k < width / 2 ==> s[k] == 0 by {
      assert forall i :: pos < i <= pos + width / 2 ==> input[i] == s[i - pos - 1];
    }
    if width == 2 {
      TwoBytes(s);
    } else if width == 4 {
      FourBytes(s);
    } else {
      EightBytes(s);
    }
  }
}
