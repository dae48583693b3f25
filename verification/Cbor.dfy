/**
 The strict canonical CBOR codec (deterministic encoding, section 4.2.1 of
 RFC 8949). Encoded bytes are content identities, so the codec must be a
 bijection between canonical values and accepted byte strings.
 */
module Cbor {
  import opened Wrappers
  import opened Bytes

  datatype Value =
    | Uint(n: u64)
    | Bytes(bytes: seq<byte>)
    | Text(text: Utf8)
    | Array(items: seq<Value>)
    | Map(entries: seq<Entry>)

  datatype Entry = Entry(key: u64, val: Value)

  datatype EncodeError = DuplicateKey(key: u64)

  datatype DecodeError =
    | UnexpectedEof(at: nat)
    | Forbidden(at: nat, what: string)
    | NonMinimal(at: nat)
    | KeyOrder(at: nat)
    | Length(at: nat)
    | BadUtf8(at: nat)
    | Depth(at: nat)
    | Trailing(at: nat)

  const MAJOR_UINT := 0
  const MAJOR_NINT := 1
  const MAJOR_BYTES := 2
  const MAJOR_TEXT := 3
  const MAJOR_ARRAY := 4
  const MAJOR_MAP := 5
  const MAJOR_TAG := 6

  /** Decoder recursion guard. */
  const MAX_DEPTH: nat := 128

  /** Every length fits the 64-bit head argument, as any in-memory value's does. */
  ghost predicate Fits(v: Value) {
    match v
    case Uint(_) => true
    case Bytes(b) => |b| < TWO_64
    case Text(t) => |t| < TWO_64
    case Array(items) => |items| < TWO_64 && forall i :: i in items ==> Fits(i)
    case Map(entries) => |entries| < TWO_64 && forall e :: e in entries ==> Fits(e.val)
  }

  /** Nesting height at most `k`. */
  ghost predicate HeightAtMost(v: Value, k: nat) {
    match v
    case Array(items) => forall i :: i in items ==> k > 0 && HeightAtMost(i, k - 1)
    case Map(entries) => forall e :: e in entries ==> k > 0 && HeightAtMost(e.val, k - 1)
    case _ => true
  }

  // ---- Heads (section 3 of RFC 8949) ----

  /** The shortest head that holds `n`. */
  function Head(major: nat, n: u64): seq<byte>
    requires major < 8
  {
    if n < 24 then [major * 32 + n]
    else if n < 0x100 then [major * 32 + 24, n]
    else if n < 0x1_0000 then [major * 32 + 25] + BigEndian(n, 2)
    else if n < 0x1_0000_0000 then [major * 32 + 26] + BigEndian(n, 4)
    else [major * 32 + 27] + BigEndian(n, 8)
  }

  datatype HeadRead = HeadRead(major: nat, arg: u64, pos: nat)

  function ReadWide(input: seq<byte>, offset: nat, major: nat, width: nat, least: nat): (r: Result<HeadRead, DecodeError>)
    requires offset < |input| && width <= 8
  {
    if offset + 1 + width > |input| then Err(UnexpectedEof(|input|))
    else
      var v := FromBigEndian(input[offset + 1..offset + 1 + width]);
      WideBound(input[offset + 1..offset + 1 + width]);
      if v < least then Err(NonMinimal(offset)) else Ok(HeadRead(major, v, offset + 1 + width))
  }

  lemma WideBound(s: seq<byte>)
    requires |s| <= 8
    ensures FromBigEndian(s) < TWO_64
  {
    FromBigEndianRoundTrip(s);
    Pow256Bound(|s|);
  }

  lemma Pow256Bound(w: nat)
    requires w <= 8
    ensures Pow256(w) <= TWO_64
  {
    assert Pow256(1) == 0x100 && Pow256(2) == 0x1_0000;
    assert Pow256(3) == 0x100_0000 && Pow256(4) == 0x1_0000_0000;
    assert Pow256(5) == 0x100_0000_0000 && Pow256(6) == 0x1_0000_0000_0000;
    assert Pow256(7) == 0x100_0000_0000_0000 && Pow256(8) == TWO_64;
  }

  function ReadHead(input: seq<byte>, offset: nat): Result<HeadRead, DecodeError>
    requires offset <= |input|
  {
    if offset == |input| then Err(UnexpectedEof(offset))
    else
      var major, info := input[offset] / 32, input[offset] % 32;
      if info < 24 then Ok(HeadRead(major, info, offset + 1))
      else if info == 24 then ReadWide(input, offset, major, 1, 24)
      else if info == 25 then ReadWide(input, offset, major, 2, 0x100)
      else if info == 26 then ReadWide(input, offset, major, 4, 0x1_0000)
      else if info == 27 then ReadWide(input, offset, major, 8, 0x1_0000_0000)
      else if info < 31 then Err(Forbidden(offset, "reserved additional-info"))
      else Err(Forbidden(offset, "indefinite length"))
  }

  lemma ReadWideBack(input: seq<byte>, offset: nat, major: nat, width: nat, least: nat, n: u64)
    requires width in {1, 2, 4, 8} && n < Pow256(width) && least <= n && offset + 1 + width <= |input|
    requires input[offset + 1..offset + 1 + width] == BigEndian(n, width)
    ensures ReadWide(input, offset, major, width, least) == Ok(HeadRead(major, n, offset + 1 + width))
  {
    BigEndianRoundTrip(n, width);
  }

  /** Reading a head back, wherever it stands. */
  lemma HeadRoundTrip(input: seq<byte>, offset: nat, major: nat, n: u64)
    requires major < 8 && offset + |Head(major, n)| <= |input|
    requires input[offset..offset + |Head(major, n)|] == Head(major, n)
    ensures ReadHead(input, offset) == Ok(HeadRead(major, n, offset + |Head(major, n)|))
  {
    var h := Head(major, n);
    assert input[offset] == h[0];
    Pow256Bound(1);
    Pow256Bound(2);
    Pow256Bound(4);
    Pow256Bound(8);
    assert h[1..] == input[offset + 1..offset + |h|];
    if 24 <= n < 0x100 {
      assert BigEndian(n, 1) == [n];
      ReadWideBack(input, offset, major, 1, 24, n);
    } else if 0x100 <= n < 0x1_0000 {
      ReadWideBack(input, offset, major, 2, 0x100, n);
    } else if 0x1_0000 <= n < 0x1_0000_0000 {
      ReadWideBack(input, offset, major, 4, 0x1_0000, n);
    } else if 0x1_0000_0000 <= n {
      ReadWideBack(input, offset, major, 8, 0x1_0000_0000, n);
    }
  }

  /** An accepted head is the one the encoder would have written. */
  lemma HeadCanonical(input: seq<byte>, offset: nat)
    requires offset <= |input| && ReadHead(input, offset).Ok?
    ensures var r := ReadHead(input, offset).value;
            && offset < r.pos <= |input| && r.major < 8
            && input[offset..r.pos] == Head(r.major, r.arg)
  {
    var r := ReadHead(input, offset).value;
    var (major, info) := (input[offset] / 32, input[offset] % 32);
    assert input[offset] == major * 32 + info;
    hide ReadWide, BigEndian;
    if info == 24 {
      WideCanonical(input, offset, major, 1, 24);
      OneByte(r.arg);
    } else if info == 25 {
      WideCanonical(input, offset, major, 2, 0x100);
    } else if info == 26 {
      WideCanonical(input, offset, major, 4, 0x1_0000);
    } else if info == 27 {
      WideCanonical(input, offset, major, 8, 0x1_0000_0000);
    }
  }

  lemma HeadMoves(input: seq<byte>, offset: nat)
    requires offset <= |input| && ReadHead(input, offset).Ok?
    ensures offset < ReadHead(input, offset).value.pos <= |input|
  {
    HeadCanonical(input, offset);
    hide *;
  }

  lemma OneByte(n: nat)
    requires n < 0x100
    ensures BigEndian(n, 1) == [n]
  {
  }

  /** An accepted wide argument is spelled by its own bytes, and needs them. */
  lemma WideCanonical(input: seq<byte>, offset: nat, major: nat, width: nat, least: nat)
    requires offset < |input| && width <= 8 && ReadWide(input, offset, major, width, least).Ok?
    ensures var r := ReadWide(input, offset, major, width, least).value;
            && r.major == major && r.pos == offset + 1 + width <= |input| && least <= r.arg < Pow256(width)
            && input[offset..r.pos] == [input[offset]] + BigEndian(r.arg, width)
    ensures Pow256(1) == 0x100 && Pow256(2) == 0x1_0000 && Pow256(4) == 0x1_0000_0000
  {
    Powers();
    hide Pow256, FromBigEndian, BigEndian;
    var s := input[offset + 1..offset + 1 + width];
    FromBigEndianRoundTrip(s);
    assert input[offset..offset + 1 + width] == [input[offset]] + s;
  }

  lemma Powers()
    ensures Pow256(1) == 0x100 && Pow256(2) == 0x1_0000 && Pow256(4) == 0x1_0000_0000
  {
    assert Pow256(3) == 0x100_0000;
  }

  // ---- Key order ----

  ghost predicate KeysAscend(es: seq<Entry>) {
    forall i, j :: 0 <= i < j < |es| ==> es[i].key <= es[j].key
  }

  ghost predicate KeysAscendStrictly(es: seq<Entry>) {
    forall i, j :: 0 <= i < j < |es| ==> es[i].key < es[j].key
  }

  /** `sort_by_key`, stable: an entry goes after the entries with the same key. */
  function SortByKey(es: seq<Entry>): (r: seq<Entry>)
    ensures |r| == |es| && multiset(r) == multiset(es)
    decreases |es|
  {
    if es == [] then []
    else
      assert es == es[..|es| - 1] + [es[|es| - 1]];
      Insert(SortByKey(es[..|es| - 1]), es[|es| - 1])
  }

  function Insert(es: seq<Entry>, e: Entry): (r: seq<Entry>)
    ensures |r| == |es| + 1 && multiset(r) == multiset(es) + multiset{e}
    decreases |es|
  {
    if es == [] || es[|es| - 1].key <= e.key then es + [e]
    else
      assert es == es[..|es| - 1] + [es[|es| - 1]];
      Insert(es[..|es| - 1], e) + [es[|es| - 1]]
  }

  lemma {:induction false} InsertAscends(es: seq<Entry>, e: Entry)
    requires KeysAscend(es)
    ensures KeysAscend(Insert(es, e))
    decreases |es|
  {
    if es != [] && es[|es| - 1].key > e.key {
      var init, last := es[..|es| - 1], es[|es| - 1];
      InsertAscends(init, e);
      var longer := Insert(init, e);
      forall x | x in longer ensures x.key <= last.key {
        assert x in multiset(longer);
      }
      hide Insert;
      assert forall i :: 0 <= i < |longer| ==> longer[i] in longer;
      assert KeysAscend(longer + [last]);
    }
  }

  lemma {:induction false} SortAscends(es: seq<Entry>)
    ensures KeysAscend(SortByKey(es))
    decreases |es|
  {
    if es != [] {
      SortAscends(es[..|es| - 1]);
      InsertAscends(SortByKey(es[..|es| - 1]), es[|es| - 1]);
    }
  }

  lemma {:induction false} SortFixesSorted(es: seq<Entry>)
    requires KeysAscend(es)
    ensures SortByKey(es) == es
    decreases |es|
  {
    if es != [] {
      SortFixesSorted(es[..|es| - 1]);
    }
  }

  lemma SortMembers(es: seq<Entry>)
    ensures forall e :: e in SortByKey(es) <==> e in es
  {
    forall e ensures e in SortByKey(es) <==> e in es {
      assert e in SortByKey(es) <==> e in multiset(SortByKey(es));
      assert e in es <==> e in multiset(es);
    }
  }

  /** The first key that equals its predecessor in an ascending sequence. */
  function FirstDuplicate(es: seq<Entry>, from: nat): (r: Option<u64>)
    requires 1 <= from
    decreases |es| - from
  {
    if from >= |es| then None
    else if es[from - 1].key == es[from].key then Some(es[from].key)
    else FirstDuplicate(es, from + 1)
  }

  lemma {:induction false} NoDuplicateStrict(es: seq<Entry>, from: nat)
    requires KeysAscend(es) && 1 <= from
    ensures FirstDuplicate(es, from).None? <==> forall i :: from <= i < |es| ==> es[i - 1].key < es[i].key
    decreases |es| - from
  {
    if from < |es| {
      NoDuplicateStrict(es, from + 1);
    }
  }

  lemma {:induction false} AdjacentStrict(es: seq<Entry>, i: nat, j: nat)
    requires forall k :: 1 <= k < |es| ==> es[k - 1].key < es[k].key
    requires i < j < |es|
    ensures es[i].key < es[j].key
    decreases j - i
  {
    if i + 1 < j {
      AdjacentStrict(es, i, j - 1);
    }
  }

  lemma NoDuplicateAscends(es: seq<Entry>)
    requires KeysAscend(es) && FirstDuplicate(es, 1).None?
    ensures KeysAscendStrictly(es)
  {
    NoDuplicateStrict(es, 1);
    forall i, j | 0 <= i < j < |es| ensures es[i].key < es[j].key {
      AdjacentStrict(es, i, j);
    }
  }

  lemma StrictHasNoDuplicate(es: seq<Entry>)
    requires KeysAscendStrictly(es)
    ensures FirstDuplicate(es, 1).None? && SortByKey(es) == es
  {
    NoDuplicateStrict(es, 1);
    SortFixesSorted(es);
  }

  // ---- Encoding ----

  function Encode(v: Value): Result<seq<byte>, EncodeError>
    requires Fits(v)
    decreases v, 1, 0
  {
    match v
    case Uint(n) => Ok(Head(MAJOR_UINT, n))
    case Bytes(b) => Ok(Head(MAJOR_BYTES, |b|) + b)
    case Text(t) => Ok(Head(MAJOR_TEXT, |t|) + t)
    case Array(items) =>
      var body :- EncodeItems(v, items);
      Ok(Head(MAJOR_ARRAY, |items|) + body)
    case Map(entries) =>
      var sorted := SortByKey(entries);
      SortMembers(entries);
      if FirstDuplicate(sorted, 1).Some? then Err(DuplicateKey(FirstDuplicate(sorted, 1).value))
      else
        var body :- EncodeEntries(v, sorted);
        Ok(Head(MAJOR_MAP, |sorted|) + body)
  }

  function EncodeItems(ctx: Value, items: seq<Value>): Result<seq<byte>, EncodeError>
    requires forall k :: 0 <= k < |items| ==> items[k] < ctx && Fits(items[k])
    decreases ctx, 0, |items|
  {
    if items == [] then Ok([])
    else
      var first :- Encode(items[0]);
      var rest :- EncodeItems(ctx, items[1..]);
      Ok(first + rest)
  }

  function EncodeEntries(ctx: Value, entries: seq<Entry>): Result<seq<byte>, EncodeError>
    requires forall e :: e in entries ==> e.val < ctx && Fits(e.val)
    decreases ctx, 0, |entries|
  {
    if entries == [] then Ok([])
    else
      var first :- Encode(entries[0].val);
      var rest :- EncodeEntries(ctx, entries[1..]);
      Ok(Head(MAJOR_UINT, entries[0].key) + first + rest)
  }

  /** Sorted keys have no duplicate, so a canonical value always encodes. */
  lemma {:induction false} CanonicalEncodes(v: Value)
    requires Canonical(v) && Fits(v)
    ensures Encode(v).Ok?
    decreases v, 1, 0
  {
    if v.Array? || v.Map? {
      CanonicalParts(v);
      hide Encode, Canonical, Fits;
      match v {
        case Array(items) =>
          CanonicalItemsEncode(v, items);
          ArrayEncodes(v);
        case Map(entries) =>
          CanonicalEntriesEncode(v, entries);
          MapEncodes(v);
      }
    }
  }

  /** The parts of a canonical array or map. */
  lemma CanonicalParts(v: Value)
    requires Canonical(v) && Fits(v)
    ensures v.Array? ==> forall k :: 0 <= k < |v.items| ==> v.items[k] < v && Fits(v.items[k]) && Canonical(v.items[k])
    ensures v.Map? ==> KeysAscendStrictly(v.entries) && forall e :: e in v.entries ==> e.val < v && Fits(e.val) && Canonical(e.val)
  {
    if v.Array? {
      forall k | 0 <= k < |v.items| ensures v.items[k] < v && Fits(v.items[k]) && Canonical(v.items[k]) {
        assert v.items[k] in v.items;
      }
    }
  }

  lemma ArrayEncodes(v: Value)
    requires v.Array? && Fits(v) && forall k :: 0 <= k < |v.items| ==> v.items[k] < v && Fits(v.items[k])
    ensures Encode(v) == if EncodeItems(v, v.items).Err? then EncodeItems(v, v.items)
                         else Ok(Head(MAJOR_ARRAY, |v.items|) + EncodeItems(v, v.items).value)
  {
    hide EncodeItems, Head;
  }

  lemma MapEncodes(v: Value)
    requires v.Map? && Fits(v) && KeysAscendStrictly(v.entries) && forall e :: e in v.entries ==> e.val < v && Fits(e.val)
    ensures Encode(v) == if EncodeEntries(v, v.entries).Err? then EncodeEntries(v, v.entries)
                         else Ok(Head(MAJOR_MAP, |v.entries|) + EncodeEntries(v, v.entries).value)
  {
    StrictHasNoDuplicate(v.entries);
    hide EncodeEntries, Head, SortByKey, FirstDuplicate, KeysAscendStrictly;
  }

  lemma {:induction false} CanonicalItemsEncode(ctx: Value, items: seq<Value>)
    requires forall k :: 0 <= k < |items| ==> items[k] < ctx && Fits(items[k]) && Canonical(items[k])
    ensures EncodeItems(ctx, items).Ok?
    decreases ctx, 0, |items|
  {
    if items != [] {
      CanonicalEncodes(items[0]);
      CanonicalItemsEncode(ctx, items[1..]);
    }
  }

  lemma {:induction false} CanonicalEntriesEncode(ctx: Value, entries: seq<Entry>)
    requires forall e :: e in entries ==> e.val < ctx && Fits(e.val) && Canonical(e.val)
    ensures EncodeEntries(ctx, entries).Ok?
    decreases ctx, 0, |entries|
  {
    if entries != [] {
      CanonicalEncodes(entries[0].val);
      CanonicalEntriesEncode(ctx, entries[1..]);
    }
  }

  // ---- Decoding ----

  type Parsed = Result<(Value, nat), DecodeError>

  /** Decode one value at `pos`, `depth` levels down, refusing to go below `limit`. */
  function Parse(input: seq<byte>, pos: nat, depth: nat, limit: nat): (r: Parsed)
    requires pos <= |input| && depth <= limit + 1
    ensures r.Ok? ==> pos < r.value.1 <= |input|
    decreases limit + 1 - depth, 1, 0
  {
    if depth > limit then Err(Depth(pos))
    else
      var head :- ReadHead(input, pos);
      HeadMoves(input, pos);
      var arg, at := head.arg, head.pos;
      if head.major == MAJOR_UINT then Ok((Uint(arg), at))
      else if head.major == MAJOR_NINT then Err(Forbidden(pos, "negative integer"))
      else if head.major == MAJOR_BYTES then
        if at + arg > |input| then Err(Length(pos)) else Ok((Bytes(input[at..at + arg]), at + arg))
      else if head.major == MAJOR_TEXT then
        if at + arg > |input| then Err(Length(pos))
        else if !ValidUtf8(input[at..at + arg]) then Err(BadUtf8(pos))
        else Ok((Text(input[at..at + arg]), at + arg))
      else if head.major == MAJOR_ARRAY then
        if arg > |input| - at then Err(Length(pos))
        else
          var (items, end) :- ParseItems(input, at, depth, limit, arg);
          Ok((Array(items), end))
      else if head.major == MAJOR_MAP then
        if arg > |input| - at then Err(Length(pos))
        else
          var (entries, end) :- ParseEntries(input, at, depth, limit, arg, None);
          Ok((Map(entries), end))
      else if head.major == MAJOR_TAG then Err(Forbidden(pos, "tag"))
      else Err(Forbidden(pos, "float or simple value"))
  }

  function ParseItems(input: seq<byte>, pos: nat, depth: nat, limit: nat, count: nat): (r: Result<(seq<Value>, nat), DecodeError>)
    requires pos <= |input| && depth <= limit
    ensures r.Ok? ==> pos <= r.value.1 <= |input|
    decreases limit + 1 - depth, 0, count
  {
    if count == 0 then Ok(([], pos))
    else
      var (item, next) :- Parse(input, pos, depth + 1, limit);
      var (rest, end) :- ParseItems(input, next, depth, limit, count - 1);
      Ok(([item] + rest, end))
  }

  /** `count` entries whose keys must rise strictly from `prev`. */
  function ParseEntries(input: seq<byte>, pos: nat, depth: nat, limit: nat, count: nat, prev: Option<u64>):
    (r: Result<(seq<Entry>, nat), DecodeError>)
    requires pos <= |input| && depth <= limit
    ensures r.Ok? ==> pos <= r.value.1 <= |input|
    decreases limit + 1 - depth, 0, count
  {
    if count == 0 then Ok(([], pos))
    else
      var key :- ReadHead(input, pos);
      HeadMoves(input, pos);
      if key.major != MAJOR_UINT then Err(Forbidden(pos, "non-integer map key"))
      else if prev.Some? && prev.value >= key.arg then Err(KeyOrder(pos))
      else
        var (val, next) :- Parse(input, key.pos, depth + 1, limit);
        var (rest, end) :- ParseEntries(input, next, depth, limit, count - 1, Some(key.arg));
        Ok(([Entry(key.arg, val)] + rest, end))
  }

  /** Exactly one value spanning the whole input. */
  function DecodeWithin(input: seq<byte>, limit: nat): Result<Value, DecodeError> {
    var (v, end) :- Parse(input, 0, 0, limit);
    if end != |input| then Err(Trailing(end)) else Ok(v)
  }

  function Decode(input: seq<byte>): Result<Value, DecodeError> {
    DecodeWithin(input, MAX_DEPTH)
  }

  // ---- Canonical values ----

  /** Maps sorted strictly by key, all the way down. */
  ghost predicate Canonical(v: Value) {
    match v
    case Array(items) => forall i :: i in items ==> Canonical(i)
    case Map(entries) => KeysAscendStrictly(entries) && forall e :: e in entries ==> Canonical(e.val)
    case _ => true
  }

  /** The value with every map sorted by key. */
  function Normal(v: Value): Value
    decreases v, 1, 0
  {
    match v
    case Array(items) => Array(NormalItems(v, items))
    case Map(entries) =>
      SortMembers(entries);
      Map(NormalEntries(v, SortByKey(entries)))
    case _ => v
  }

  function NormalItems(ctx: Value, items: seq<Value>): seq<Value>
    requires forall k :: 0 <= k < |items| ==> items[k] < ctx
    decreases ctx, 0, |items|
  {
    if items == [] then [] else [Normal(items[0])] + NormalItems(ctx, items[1..])
  }

  function NormalEntries(ctx: Value, entries: seq<Entry>): seq<Entry>
    requires forall e :: e in entries ==> e.val < ctx
    decreases ctx, 0, |entries|
  {
    if entries == [] then []
    else [Entry(entries[0].key, Normal(entries[0].val))] + NormalEntries(ctx, entries[1..])
  }

  lemma SliceSplit(s: seq<byte>, i: nat, j: nat, k: nat)
    requires i <= j <= k <= |s|
    ensures s[i..k] == s[i..j] + s[j..k]
  {
  }

  /** A slice that equals a concatenation starts with its first part and ends with its second. */
  lemma SliceParts(s: seq<byte>, pos: nat, a: seq<byte>, b: seq<byte>)
    requires pos + |a| + |b| <= |s| && s[pos..pos + |a| + |b|] == a + b
    ensures s[pos..pos + |a|] == a && s[pos + |a|..pos + |a| + |b|] == b
  {
    var whole := s[pos..pos + |a| + |b|];
    assert s[pos..pos + |a|] == whole[..|a|];
    assert s[pos + |a|..pos + |a| + |b|] == whole[|a|..];
  }

  lemma EncodeItemsStep(ctx: Value, items: seq<Value>, first: seq<byte>, rest: seq<byte>)
    requires items != [] && forall k :: 0 <= k < |items| ==> items[k] < ctx && Fits(items[k])
    requires Encode(items[0]) == Ok(first) && EncodeItems(ctx, items[1..]) == Ok(rest)
    ensures EncodeItems(ctx, items) == Ok(first + rest)
  {
  }

  lemma NoItems(ctx: Value, input: seq<byte>, pos: nat, depth: nat, limit: nat)
    requires pos <= |input| && depth <= limit
    ensures EncodeItems(ctx, []) == Ok([]) && ParseItems(input, pos, depth, limit, 0) == Ok((NormalItems(ctx, []), pos))
  {
  }

  lemma NoEntries(ctx: Value, input: seq<byte>, pos: nat, depth: nat, limit: nat, prev: Option<u64>)
    requires pos <= |input| && depth <= limit
    ensures EncodeEntries(ctx, []) == Ok([]) && ParseEntries(input, pos, depth, limit, 0, prev) == Ok((NormalEntries(ctx, []), pos))
  {
  }

  lemma EncodeItemsParts(ctx: Value, items: seq<Value>, b: seq<byte>) returns (first: seq<byte>, rest: seq<byte>)
    requires items != [] && forall k :: 0 <= k < |items| ==> items[k] < ctx && Fits(items[k])
    requires EncodeItems(ctx, items) == Ok(b)
    ensures Encode(items[0]) == Ok(first) && EncodeItems(ctx, items[1..]) == Ok(rest) && b == first + rest
    ensures NormalItems(ctx, items) == [Normal(items[0])] + NormalItems(ctx, items[1..])
  {
    first := Encode(items[0]).value;
    rest := EncodeItems(ctx, items[1..]).value;
  }

  lemma EncodeEntriesParts(ctx: Value, entries: seq<Entry>, b: seq<byte>) returns (first: seq<byte>, rest: seq<byte>)
    requires entries != [] && forall e :: e in entries ==> e.val < ctx && Fits(e.val)
    requires EncodeEntries(ctx, entries) == Ok(b)
    ensures Encode(entries[0].val) == Ok(first) && EncodeEntries(ctx, entries[1..]) == Ok(rest)
    ensures b == Head(MAJOR_UINT, entries[0].key) + first + rest
    ensures NormalEntries(ctx, entries) == [Entry(entries[0].key, Normal(entries[0].val))] + NormalEntries(ctx, entries[1..])
  {
    first := Encode(entries[0].val).value;
    rest := EncodeEntries(ctx, entries[1..]).value;
  }

  lemma EncodeEntriesStep(ctx: Value, entries: seq<Entry>, first: seq<byte>, rest: seq<byte>)
    requires entries != [] && forall e :: e in entries ==> e.val < ctx && Fits(e.val)
    requires Encode(entries[0].val) == Ok(first) && EncodeEntries(ctx, entries[1..]) == Ok(rest)
    ensures EncodeEntries(ctx, entries) == Ok(Head(MAJOR_UINT, entries[0].key) + first + rest)
  {
  }

  lemma ParseItemsStep(input: seq<byte>, pos: nat, depth: nat, limit: nat, count: nat, item: Value, next: nat, rest: seq<Value>, end: nat)
    requires pos <= |input| && next <= |input| && depth <= limit && count > 0
    requires Parse(input, pos, depth + 1, limit) == Ok((item, next))
    requires ParseItems(input, next, depth, limit, count - 1) == Ok((rest, end))
    ensures ParseItems(input, pos, depth, limit, count) == Ok(([item] + rest, end))
  {
  }

  lemma ParseEntriesStep(input: seq<byte>, pos: nat, depth: nat, limit: nat, count: nat, prev: Option<u64>, key: u64, at: nat,
                         val: Value, next: nat, rest: seq<Entry>, end: nat)
    requires pos <= |input| && at <= |input| && next <= |input| && depth <= limit && count > 0
    requires ReadHead(input, pos) == Ok(HeadRead(MAJOR_UINT, key, at)) && (prev.Some? ==> prev.value < key)
    requires Parse(input, at, depth + 1, limit) == Ok((val, next))
    requires ParseEntries(input, next, depth, limit, count - 1, Some(key)) == Ok((rest, end))
    ensures ParseEntries(input, pos, depth, limit, count, prev) == Ok(([Entry(key, val)] + rest, end))
  {
  }

  // ---- An accepted input is the encoding of what it decodes to ----

  lemma {:induction false} ParseEncodes(input: seq<byte>, pos: nat, depth: nat, limit: nat)
    requires pos <= |input| && depth <= limit + 1 && Parse(input, pos, depth, limit).Ok?
    ensures var (v, end) := Parse(input, pos, depth, limit).value;
            && Fits(v) && Canonical(v) && depth <= limit && HeightAtMost(v, limit - depth)
            && Encode(v) == Ok(input[pos..end])
    decreases limit + 1 - depth, 1, 0
  {
    hide *;
    var (v, end) := Parse(input, pos, depth, limit).value;
    ParsedParts(input, pos, depth, limit, v, end);
    HeadCanonical(input, pos);
    var head := ReadHead(input, pos).value;
    SliceSplit(input, pos, head.pos, end);
    match v {
      case Array(items) =>
        ParseItemsEncodes(input, head.pos, depth, limit, head.arg, items, end, v);
        ArrayCloses(v, input[head.pos..end], limit - depth);
      case Map(entries) =>
        ParseEntriesEncodes(input, head.pos, depth, limit, head.arg, None, entries, end, v);
        MapCloses(v, input[head.pos..end], limit - depth);
      case _ =>
        PlainCloses(v, input[head.pos..end], limit - depth);
    }
  }

  lemma PlainCloses(v: Value, body: seq<byte>, k: nat)
    requires match v
             case Uint(n) => body == []
             case Bytes(b) => |b| < TWO_64 && body == b
             case Text(t) => |t| < TWO_64 && body == t
             case _ => false
    ensures Fits(v) && Canonical(v) && HeightAtMost(v, k)
    ensures v.Uint? ==> Encode(v) == Ok(Head(MAJOR_UINT, v.n) + body)
    ensures v.Bytes? ==> Encode(v) == Ok(Head(MAJOR_BYTES, |v.bytes|) + body)
    ensures v.Text? ==> Encode(v) == Ok(Head(MAJOR_TEXT, |v.text|) + body)
  {
    hide Head;
    if v.Uint? {
      assert Head(MAJOR_UINT, v.n) + [] == Head(MAJOR_UINT, v.n);
    }
  }

  lemma ArrayCloses(v: Value, body: seq<byte>, k: nat)
    requires v.Array? && |v.items| < TWO_64 && forall i :: 0 <= i < |v.items| ==> v.items[i] < v && Fits(v.items[i]) && Canonical(v.items[i])
    requires v.items == [] || (k > 0 && forall i :: 0 <= i < |v.items| ==> HeightAtMost(v.items[i], k - 1))
    requires EncodeItems(v, v.items) == Ok(body)
    ensures Fits(v) && Canonical(v) && HeightAtMost(v, k) && Encode(v) == Ok(Head(MAJOR_ARRAY, |v.items|) + body)
  {
    assert Fits(v);
    hide EncodeItems, Head, Encode;
    ArrayEncodes(v);
  }

  lemma MapCloses(v: Value, body: seq<byte>, k: nat)
    requires v.Map? && |v.entries| < TWO_64 && KeysAscendStrictly(v.entries) && forall e :: e in v.entries ==> e.val < v && Fits(e.val) && Canonical(e.val)
    requires forall e :: e in v.entries ==> k > 0 && HeightAtMost(e.val, k - 1)
    requires EncodeEntries(v, v.entries) == Ok(body)
    ensures Fits(v) && Canonical(v) && HeightAtMost(v, k) && Encode(v) == Ok(Head(MAJOR_MAP, |v.entries|) + body)
  {
    assert Fits(v);
    hide EncodeEntries, Head, Encode;
    MapEncodes(v);
  }

  /** What a parsed value is made of: its head, and bytes or parts up to its end. */
  lemma ParsedParts(input: seq<byte>, pos: nat, depth: nat, limit: nat, v: Value, end: nat)
    requires pos <= |input| && depth <= limit + 1 && Parse(input, pos, depth, limit) == Ok((v, end))
    ensures depth <= limit && ReadHead(input, pos).Ok?
    ensures var head := ReadHead(input, pos).value;
            && pos < head.pos <= end <= |input| && head.arg < TWO_64
            && match v
               case Uint(n) => head.major == MAJOR_UINT && n == head.arg && end == head.pos
               case Bytes(b) => head.major == MAJOR_BYTES && |b| == head.arg && b == input[head.pos..end]
               case Text(t) => head.major == MAJOR_TEXT && |t| == head.arg && t == input[head.pos..end]
               case Array(items) => head.major == MAJOR_ARRAY && ParseItems(input, head.pos, depth, limit, head.arg) == Ok((items, end))
               case Map(entries) => head.major == MAJOR_MAP && ParseEntries(input, head.pos, depth, limit, head.arg, None) == Ok((entries, end))
  {
    HeadMoves(input, pos);
    hide ReadHead, ParseItems, ParseEntries;
  }

  lemma {:induction false} ParseItemsEncodes(input: seq<byte>, pos: nat, depth: nat, limit: nat, count: nat,
                                             items: seq<Value>, end: nat, ctx: Value)
    requires pos <= |input| && depth <= limit && ParseItems(input, pos, depth, limit, count) == Ok((items, end))
    requires forall k :: 0 <= k < |items| ==> items[k] < ctx
    ensures |items| == count && end <= |input| && pos <= end
    ensures forall k :: 0 <= k < |items| ==> Fits(items[k]) && Canonical(items[k])
    ensures items == [] || (depth < limit && forall k :: 0 <= k < |items| ==> HeightAtMost(items[k], limit - depth - 1))
    ensures EncodeItems(ctx, items) == Ok(input[pos..end])
    decreases limit + 1 - depth, 0, count
  {
    hide Encode, EncodeItems, Parse, ParseItems, Fits, HeightAtMost, Canonical;
    if count == 0 {
      NoItems(ctx, input, pos, depth, limit);
      assert input[pos..pos] == [];
    } else {
      var item, next, rest := ParseItemsParts(input, pos, depth, limit, count, items, end);
      ParseEncodes(input, pos, depth + 1, limit);
      assert items[0] == item && items[1..] == rest;
      assert forall k :: 0 <= k < |rest| ==> rest[k] == items[k + 1];
      ParseItemsEncodes(input, next, depth, limit, count - 1, rest, end, ctx);
      forall k | 0 <= k < |items| ensures Fits(items[k]) && Canonical(items[k]) && HeightAtMost(items[k], limit - depth - 1) {
        if k > 0 {
          assert items[k] == rest[k - 1];
        }
      }
      SliceSplit(input, pos, next, end);
      EncodeItemsStep(ctx, items, input[pos..next], input[next..end]);
    }
  }

  lemma ParseItemsParts(input: seq<byte>, pos: nat, depth: nat, limit: nat, count: nat, items: seq<Value>, end: nat)
    returns (item: Value, next: nat, rest: seq<Value>)
    requires pos <= |input| && depth <= limit && count > 0
    requires ParseItems(input, pos, depth, limit, count) == Ok((items, end))
    ensures Parse(input, pos, depth + 1, limit) == Ok((item, next)) && pos < next <= |input|
    ensures ParseItems(input, next, depth, limit, count - 1) == Ok((rest, end)) && next <= end <= |input|
    ensures items == [item] + rest
  {
    hide Parse;
    var (v, n) := Parse(input, pos, depth + 1, limit).value;
    item, next := v, n;
    rest := ParseItems(input, next, depth, limit, count - 1).value.0;
  }

  lemma {:induction false} ParseEntriesEncodes(input: seq<byte>, pos: nat, depth: nat, limit: nat, count: nat, prev: Option<u64>,
                                               entries: seq<Entry>, end: nat, ctx: Value)
    requires pos <= |input| && depth <= limit && ParseEntries(input, pos, depth, limit, count, prev) == Ok((entries, end))
    requires forall e :: e in entries ==> e.val < ctx
    ensures |entries| == count && KeysAscendStrictly(entries) && end <= |input| && pos <= end
    ensures forall e :: e in entries ==> Fits(e.val) && Canonical(e.val) && (prev.Some? ==> prev.value < e.key)
    ensures forall e :: e in entries ==> depth < limit && HeightAtMost(e.val, limit - depth - 1)
    ensures EncodeEntries(ctx, entries) == Ok(input[pos..end])
    decreases limit + 1 - depth, 0, count
  {
    hide Encode, EncodeEntries, Parse, ParseEntries, ReadHead, Head, Fits, HeightAtMost, Canonical;
    if count == 0 {
      NoEntries(ctx, input, pos, depth, limit, prev);
      assert input[pos..pos] == [];
    } else {
      var key, val, next, rest := ParseEntriesParts(input, pos, depth, limit, count, prev, entries, end);
      HeadCanonical(input, pos);
      ParseEncodes(input, key.pos, depth + 1, limit);
      ParseEntriesEncodes(input, next, depth, limit, count - 1, Some(key.arg), rest, end, ctx);
      SliceSplit(input, pos, key.pos, next);
      SliceSplit(input, pos, next, end);
      assert entries[0] == Entry(key.arg, val) && entries[1..] == rest;
      EncodeEntriesStep(ctx, entries, input[key.pos..next], input[next..end]);
      forall i, j | 0 <= i < j < |entries| ensures entries[i].key < entries[j].key {
        assert entries[j] == rest[j - 1];
        if i > 0 {
          assert entries[i] == rest[i - 1];
        }
      }
    }
  }

  lemma ParseEntriesParts(input: seq<byte>, pos: nat, depth: nat, limit: nat, count: nat, prev: Option<u64>, entries: seq<Entry>, end: nat)
    returns (key: HeadRead, val: Value, next: nat, rest: seq<Entry>)
    requires pos <= |input| && depth <= limit && count > 0
    requires ParseEntries(input, pos, depth, limit, count, prev) == Ok((entries, end))
    ensures ReadHead(input, pos) == Ok(key) && pos < key.pos <= |input| && key.major == MAJOR_UINT && (prev.Some? ==> prev.value < key.arg)
    ensures Parse(input, key.pos, depth + 1, limit) == Ok((val, next)) && key.pos < next <= |input|
    ensures ParseEntries(input, next, depth, limit, count - 1, Some(key.arg)) == Ok((rest, end)) && next <= end <= |input|
    ensures entries == [Entry(key.arg, val)] + rest
  {
    hide Parse, ReadHead, Head;
    key := ReadHead(input, pos).value;
    HeadCanonical(input, pos);
    var (v, n) := Parse(input, key.pos, depth + 1, limit).value;
    val, next := v, n;
    rest := ParseEntries(input, next, depth, limit, count - 1, Some(key.arg)).value.0;
  }

  // ---- An encoding decodes, wherever it stands, to the sorted value ----

  lemma {:induction false} EncodeParses(v: Value, b: seq<byte>, input: seq<byte>, pos: nat, depth: nat, limit: nat)
    requires Fits(v) && Encode(v) == Ok(b) && depth <= limit && HeightAtMost(v, limit - depth)
    requires pos + |b| <= |input| && input[pos..pos + |b|] == b
    ensures b != [] && Parse(input, pos, depth, limit) == Ok((Normal(v), pos + |b|))
    decreases v, 1, 0
  {
    hide ReadHead, Head, EncodeItems, EncodeEntries, ParseItems, ParseEntries;
    var (major, arg) := HeadOf(v);
    var body := BodyOf(v, b);
    SliceParts(input, pos, Head(major, arg), body);
    HeadRoundTrip(input, pos, major, arg);
    var at := pos + |Head(major, arg)|;
    match v {
      case Array(items) =>
        forall k | 0 <= k < |items| ensures items[k] < v && Fits(items[k]) {
          assert items[k] in items;
        }
        if items != [] {
          assert items[0] in items;
          forall k | 0 <= k < |items| ensures HeightAtMost(items[k], limit - depth - 1) {
            assert items[k] in items;
          }
        }
        EncodeItemsParse(v, items, body, input, at, depth, limit);
      case Map(entries) =>
        var sorted := SortByKey(entries);
        SortMembers(entries);
        SortAscends(entries);
        NoDuplicateAscends(sorted);
        EncodeEntriesParse(v, sorted, body, input, at, depth, limit, None);
      case _ =>
    }
  }

  /** What follows the head. */
  lemma BodyOf(v: Value, b: seq<byte>) returns (body: seq<byte>)
    requires Fits(v) && Encode(v) == Ok(b)
    ensures var (major, arg) := HeadOf(v); b == Head(major, arg) + body && Head(major, arg) != []
    ensures v.Uint? ==> body == []
    ensures v.Bytes? ==> body == v.bytes
    ensures v.Text? ==> body == v.text
    ensures v.Array? ==> EncodeItems(v, v.items) == Ok(body)
    ensures v.Map? ==> (SortMembers(v.entries); EncodeEntries(v, SortByKey(v.entries)) == Ok(body)) && FirstDuplicate(SortByKey(v.entries), 1).None?
  {
    var (major, arg) := HeadOf(v);
    body := b[|Head(major, arg)|..];
    match v {
      case Map(entries) => SortMembers(entries);
      case _ =>
    }
  }

  /** The head the encoder writes for a value. */
  function HeadOf(v: Value): (r: (nat, u64))
    requires Fits(v)
    ensures r.0 < 8
  {
    match v
    case Uint(n) => (MAJOR_UINT, n)
    case Bytes(b) => (MAJOR_BYTES, |b|)
    case Text(t) => (MAJOR_TEXT, |t|)
    case Array(items) => (MAJOR_ARRAY, |items|)
    case Map(entries) => (MAJOR_MAP, |entries|)
  }

  lemma {:induction false} EncodeItemsParse(ctx: Value, items: seq<Value>, b: seq<byte>, input: seq<byte>, pos: nat, depth: nat, limit: nat)
    requires forall k :: 0 <= k < |items| ==> items[k] < ctx && Fits(items[k])
    requires items == [] || (depth < limit && forall k :: 0 <= k < |items| ==> HeightAtMost(items[k], limit - depth - 1))
    requires depth <= limit && EncodeItems(ctx, items) == Ok(b)
    requires pos + |b| <= |input| && input[pos..pos + |b|] == b
    ensures |items| <= |b| && ParseItems(input, pos, depth, limit, |items|) == Ok((NormalItems(ctx, items), pos + |b|))
    decreases ctx, 0, |items|
  {
    hide Encode, EncodeItems, Parse, ParseItems, Normal, NormalItems, Fits, HeightAtMost;
    if items == [] {
      NoItems(ctx, input, pos, depth, limit);
    } else {
      var first, rest := EncodeItemsParts(ctx, items, b);
      SliceParts(input, pos, first, rest);
      EncodeParses(items[0], first, input, pos, depth + 1, limit);
      EncodeItemsParse(ctx, items[1..], rest, input, pos + |first|, depth, limit);
      ParseItemsStep(input, pos, depth, limit, |items|, Normal(items[0]), pos + |first|, NormalItems(ctx, items[1..]), pos + |b|);
    }
  }

  lemma {:induction false} EncodeEntriesParse(ctx: Value, entries: seq<Entry>, b: seq<byte>, input: seq<byte>, pos: nat, depth: nat, limit: nat, prev: Option<u64>)
    requires forall e :: e in entries ==> e.val < ctx && Fits(e.val)
    requires forall e :: e in entries ==> depth < limit && HeightAtMost(e.val, limit - depth - 1)
    requires KeysAscendStrictly(entries) && (prev.Some? ==> forall e :: e in entries ==> prev.value < e.key)
    requires depth <= limit && EncodeEntries(ctx, entries) == Ok(b)
    requires pos + |b| <= |input| && input[pos..pos + |b|] == b
    ensures |entries| <= |b| && ParseEntries(input, pos, depth, limit, |entries|, prev) == Ok((NormalEntries(ctx, entries), pos + |b|))
    decreases ctx, 0, |entries|
  {
    hide Encode, EncodeEntries, Parse, ParseEntries, ReadHead, Head, Normal, NormalEntries, Fits, HeightAtMost;
    if entries == [] {
      NoEntries(ctx, input, pos, depth, limit, prev);
    } else {
      var e := entries[0];
      assert e in entries;
      var key := Head(MAJOR_UINT, e.key);
      var first, rest := EncodeEntriesParts(ctx, entries, b);
      var at, next := pos + |key|, pos + |key| + |first|;
      SliceParts(input, pos, key + first, rest);
      SliceParts(input, pos, key, first);
      HeadRoundTrip(input, pos, MAJOR_UINT, e.key);
      EncodeParses(e.val, first, input, at, depth + 1, limit);
      RestAscends(entries);
      EncodeEntriesParse(ctx, entries[1..], rest, input, next, depth, limit, Some(e.key));
      ParseEntriesStep(input, pos, depth, limit, |entries|, prev, e.key, at, Normal(e.val), next, NormalEntries(ctx, entries[1..]), pos + |b|);
    }
  }

  lemma RestAscends(entries: seq<Entry>)
    requires entries != [] && KeysAscendStrictly(entries)
    ensures KeysAscendStrictly(entries[1..])
    ensures forall e :: e in entries[1..] ==> e in entries && entries[0].key < e.key
  {
    forall e | e in entries[1..] ensures e in entries && entries[0].key < e.key {
      var j :| 0 <= j < |entries[1..]| && entries[1..][j] == e;
      assert entries[j + 1] == e;
    }
  }

  // ---- Main results ----

  /** Decoding accepts exactly the encodings of canonical values of bounded height, and inverts them. */
  lemma DecodeExact(b: seq<byte>, v: Value)
    ensures Decode(b) == Ok(v) <==> Canonical(v) && Fits(v) && HeightAtMost(v, MAX_DEPTH) && Encode(v) == Ok(b)
  {
    hide Encode, Parse, Canonical, Fits, HeightAtMost, Normal;
    if Decode(b) == Ok(v) {
      ParseEncodes(b, 0, 0, MAX_DEPTH);
      assert b[0..|b|] == b;
    }
    if Canonical(v) && Fits(v) && HeightAtMost(v, MAX_DEPTH) && Encode(v) == Ok(b) {
      EncodeDecodes(v, b, MAX_DEPTH);
      CanonicalIsNormal(v);
    }
  }

  /** Encoding any encodable value, in whatever entry order, then decoding gives it back sorted. */
  lemma EncodeDecodes(v: Value, b: seq<byte>, limit: nat)
    requires Fits(v) && Encode(v) == Ok(b) && HeightAtMost(v, limit)
    ensures DecodeWithin(b, limit) == Ok(Normal(v))
  {
    assert b[0..|b|] == b;
    EncodeParses(v, b, b, 0, 0, limit);
  }

  /** Sorting changes no encoding, so a value and its sorted form are one object. */
  lemma NormalSameBytes(v: Value, b: seq<byte>)
    requires Fits(v) && Encode(v) == Ok(b)
    ensures Fits(Normal(v)) && Canonical(Normal(v)) && Encode(Normal(v)) == Ok(b)
  {
    var limit := Height(v);
    HeightSuffices(v, limit);
    EncodeDecodes(v, b, limit);
    ParseEncodes(b, 0, 0, limit);
    assert b[0..|b|] == b;
  }

  /** No encoding is a proper prefix of another, at any nesting height. */
  lemma PrefixFree(v: Value, b: seq<byte>, w: Value, c: seq<byte>)
    requires Fits(v) && Encode(v) == Ok(b) && Fits(w) && Encode(w) == Ok(c)
    requires b <= c
    ensures b == c && Normal(v) == Normal(w)
  {
    hide Encode, Parse, Fits, HeightAtMost, Normal, Height;
    var limit := if Height(v) < Height(w) then Height(w) else Height(v);
    HeightSuffices(v, limit);
    HeightSuffices(w, limit);
    assert c[0..|b|] == b && c[0..|c|] == c;
    EncodeParses(v, b, c, 0, 0, limit);
    EncodeParses(w, c, c, 0, 0, limit);
  }

  /** Two values encode to the same bytes exactly when they agree up to entry order. */
  lemma SameBytesSameValue(v: Value, w: Value)
    requires Fits(v) && Encode(v).Ok? && Fits(w) && Encode(w).Ok?
    ensures Encode(v) == Encode(w) <==> Normal(v) == Normal(w)
  {
    if Encode(v) == Encode(w) {
      PrefixFree(v, Encode(v).value, w, Encode(w).value);
    }
    if Normal(v) == Normal(w) {
      NormalSameBytes(v, Encode(v).value);
      NormalSameBytes(w, Encode(w).value);
    }
  }

  lemma {:induction false} CanonicalIsNormal(v: Value)
    requires Canonical(v)
    ensures Normal(v) == v
    decreases v, 1, 0
  {
    match v {
      case Array(items) =>
        forall k | 0 <= k < |items| ensures items[k] < v && Canonical(items[k]) {
          assert items[k] in items;
        }
        CanonicalItemsNormal(v, items);
      case Map(entries) =>
        StrictHasNoDuplicate(entries);
        CanonicalEntriesNormal(v, entries);
      case _ =>
    }
  }

  lemma {:induction false} CanonicalItemsNormal(ctx: Value, items: seq<Value>)
    requires forall k :: 0 <= k < |items| ==> items[k] < ctx && Canonical(items[k])
    ensures NormalItems(ctx, items) == items
    decreases ctx, 0, |items|
  {
    if items != [] {
      CanonicalIsNormal(items[0]);
      CanonicalItemsNormal(ctx, items[1..]);
    }
  }

  lemma {:induction false} CanonicalEntriesNormal(ctx: Value, entries: seq<Entry>)
    requires forall e :: e in entries ==> e.val < ctx && Canonical(e.val)
    ensures NormalEntries(ctx, entries) == entries
    decreases ctx, 0, |entries|
  {
    if entries != [] {
      CanonicalIsNormal(entries[0].val);
      CanonicalEntriesNormal(ctx, entries[1..]);
    }
  }

  function Height(v: Value): nat
    decreases v, 1, 0
  {
    match v
    case Array(items) => 1 + ItemsHeight(v, items)
    case Map(entries) => 1 + EntriesHeight(v, entries)
    case _ => 0
  }

  function ItemsHeight(ctx: Value, items: seq<Value>): nat
    requires forall k :: 0 <= k < |items| ==> items[k] < ctx
    decreases ctx, 0, |items|
  {
    if items == [] then 0 else Max(Height(items[0]), ItemsHeight(ctx, items[1..]))
  }

  function EntriesHeight(ctx: Value, entries: seq<Entry>): nat
    requires forall e :: e in entries ==> e.val < ctx
    decreases ctx, 0, |entries|
  {
    if entries == [] then 0 else Max(Height(entries[0].val), EntriesHeight(ctx, entries[1..]))
  }

  function Max(a: nat, b: nat): nat {
    if a < b then b else a
  }

  lemma {:induction false} HeightSuffices(v: Value, k: nat)
    requires Height(v) <= k
    ensures HeightAtMost(v, k)
    decreases v, 1, 0
  {
    match v {
      case Array(items) =>
        forall i | i in items ensures HeightAtMost(i, k - 1) {
          var j :| 0 <= j < |items| && items[j] == i;
          ItemHeight(v, items, j);
          HeightSuffices(i, k - 1);
        }
      case Map(entries) =>
        forall e | e in entries ensures HeightAtMost(e.val, k - 1) {
          var j :| 0 <= j < |entries| && entries[j] == e;
          EntryHeight(v, entries, j);
          HeightSuffices(e.val, k - 1);
        }
      case _ =>
    }
  }

  lemma {:induction false} ItemHeight(ctx: Value, items: seq<Value>, j: nat)
    requires j < |items| && forall k :: 0 <= k < |items| ==> items[k] < ctx
    ensures Height(items[j]) <= ItemsHeight(ctx, items)
    decreases j
  {
    if j > 0 {
      ItemHeight(ctx, items[1..], j - 1);
    }
  }

  lemma {:induction false} EntryHeight(ctx: Value, entries: seq<Entry>, j: nat)
    requires j < |entries| && forall e :: e in entries ==> e.val < ctx
    ensures Height(entries[j].val) <= EntriesHeight(ctx, entries)
    decreases j
  {
    if j > 0 {
      EntryHeight(ctx, entries[1..], j - 1);
    }
  }

  // ---- The codec itself: an appending encoder and a cursor decoder ----

  /** `put_head`. */
  method PutHead(out: ByteVec, major: nat, value: u64)
    requires major < 8
    modifies out
    ensures out.bytes == old(out.bytes) + Head(major, value)
  {
    var m := major * 32;
    if value < 24 {
      out.Push(m + value);
    } else if value < 0x100 {
      out.Push(m + 24);
      out.Push(value);
    } else if value < 0x1_0000 {
      out.Push(m + 25);
      out.Extend(BigEndian(value, 2));
    } else if value < 0x1_0000_0000 {
      out.Push(m + 26);
      out.Extend(BigEndian(value, 4));
    } else {
      out.Push(m + 27);
      out.Extend(BigEndian(value, 8));
    }
  }

  /** `encode_into`: append the encoding; on a duplicate key what was appended so far is abandoned by the caller. */
  method EncodeInto(v: Value, out: ByteVec) returns (r: Result<(), EncodeError>)
    requires Fits(v)
    modifies out
    ensures match Encode(v)
            case Ok(b) => r.Ok? && out.bytes == old(out.bytes) + b
            case Err(e) => r == Err(e)
    decreases v
  {
    match v {
      case Uint(n) =>
        PutHead(out, MAJOR_UINT, n);
      case Bytes(b) =>
        PutHead(out, MAJOR_BYTES, |b|);
        out.Extend(b);
      case Text(t) =>
        PutHead(out, MAJOR_TEXT, |t|);
        out.Extend(t);
      case Array(items) =>
        PutHead(out, MAJOR_ARRAY, |items|);
        forall k | 0 <= k < |items| ensures items[k] < v && Fits(items[k]) {
          assert items[k] in items;
        }
        r := EncodeAll(v, items, out);
        return;
      case Map(entries) =>
        var sorted := SortByKey(entries);
        SortMembers(entries);
        var duplicate := FirstDuplicate(sorted, 1);
        if duplicate.Some? {
          return Err(DuplicateKey(duplicate.value));
        }
        PutHead(out, MAJOR_MAP, |sorted|);
        r := EncodeSorted(v, sorted, out);
        return;
    }
    return Ok(());
  }

  /** What one turn of the element loop contributes. */
  lemma EncodeItemsFrom(ctx: Value, items: seq<Value>, k: nat)
    requires forall k :: 0 <= k < |items| ==> items[k] < ctx && Fits(items[k])
    requires k < |items|
    ensures forall j :: 0 <= j < |items[k..]| ==> items[k..][j] < ctx && Fits(items[k..][j])
    ensures EncodeItems(ctx, items[k..]) ==
              var first := Encode(items[k]);
              var rest := EncodeItems(ctx, items[k + 1..]);
              if first.Err? then Err(first.error) else if rest.Err? then Err(rest.error) else Ok(first.value + rest.value)
  {
    assert items[k..][0] == items[k] && items[k..][1..] == items[k + 1..];
  }

  lemma EncodeEntriesFrom(ctx: Value, entries: seq<Entry>, k: nat)
    requires forall e :: e in entries ==> e.val < ctx && Fits(e.val)
    requires k < |entries|
    ensures EncodeEntries(ctx, entries[k..]) ==
              var first := Encode(entries[k].val);
              var rest := EncodeEntries(ctx, entries[k + 1..]);
              if first.Err? then Err(first.error) else if rest.Err? then Err(rest.error)
              else Ok(Head(MAJOR_UINT, entries[k].key) + first.value + rest.value)
  {
    assert entries[k..][0] == entries[k] && entries[k..][1..] == entries[k + 1..];
  }

  /** The element loop of `encode_into`. */
  method EncodeAll(ctx: Value, items: seq<Value>, out: ByteVec) returns (r: Result<(), EncodeError>)
    requires forall k :: 0 <= k < |items| ==> items[k] < ctx && Fits(items[k])
    modifies out
    ensures match EncodeItems(ctx, items)
            case Ok(b) => r.Ok? && out.bytes == old(out.bytes) + b
            case Err(e) => r == Err(e)
    decreases ctx, 0
  {
    hide Encode, EncodeItems, Fits;
    ghost var all := EncodeItems(ctx, items);
    assert items[0..] == items;
    assert all.Ok? ==> [] + all.value == all.value;
    var k := 0;
    ghost var done := [];
    while k < |items|
      invariant k <= |items|
      invariant out.bytes == old(out.bytes) + done
      invariant all == match EncodeItems(ctx, items[k..]) case Ok(rest) => Ok(done + rest) case Err(e) => Err(e)
    {
      EncodeItemsFrom(ctx, items, k);
      r := EncodeInto(items[k], out);
      if r.Err? {
        return;
      }
      ghost var first := Encode(items[k]).value;
      AppendAssociates(old(out.bytes), done, first);
      if EncodeItems(ctx, items[k + 1..]).Ok? {
        AppendAssociates(done, first, EncodeItems(ctx, items[k + 1..]).value);
      }
      done := done + first;
      k := k + 1;
    }
    NothingLeft(ctx, items, done);
    return Ok(());
  }

  lemma AppendAssociates(a: seq<byte>, b: seq<byte>, c: seq<byte>)
    ensures a + (b + c) == (a + b) + c
  {
  }

  lemma NothingLeft(ctx: Value, items: seq<Value>, done: seq<byte>)
    ensures EncodeItems(ctx, items[|items|..]) == Ok([]) && done + [] == done
  {
  }

  /** The entry loop of `encode_into`. */
  method EncodeSorted(ctx: Value, sorted: seq<Entry>, out: ByteVec) returns (r: Result<(), EncodeError>)
    requires forall e :: e in sorted ==> e.val < ctx && Fits(e.val)
    modifies out
    ensures match EncodeEntries(ctx, sorted)
            case Ok(b) => r.Ok? && out.bytes == old(out.bytes) + b
            case Err(e) => r == Err(e)
    decreases ctx, 0
  {
    hide Encode, EncodeEntries, Fits, Head;
    ghost var all := EncodeEntries(ctx, sorted);
    assert sorted[0..] == sorted;
    assert all.Ok? ==> [] + all.value == all.value;
    var k := 0;
    ghost var done := [];
    while k < |sorted|
      invariant k <= |sorted|
      invariant out.bytes == old(out.bytes) + done
      invariant all == match EncodeEntries(ctx, sorted[k..]) case Ok(rest) => Ok(done + rest) case Err(e) => Err(e)
    {
      EncodeEntriesFrom(ctx, sorted, k);
      PutHead(out, MAJOR_UINT, sorted[k].key);
      r := EncodeInto(sorted[k].val, out);
      if r.Err? {
        return;
      }
      ghost var head, first := Head(MAJOR_UINT, sorted[k].key), Encode(sorted[k].val).value;
      AppendAssociates(old(out.bytes), done, head);
      AppendAssociates(old(out.bytes), done + head, first);
      AppendAssociates(done, head, first);
      if EncodeEntries(ctx, sorted[k + 1..]).Ok? {
        AppendAssociates(done, head + first, EncodeEntries(ctx, sorted[k + 1..]).value);
      }
      done := done + (head + first);
      k := k + 1;
    }
    NoneLeft(ctx, sorted, done);
    return Ok(());
  }

  lemma NoneLeft(ctx: Value, entries: seq<Entry>, done: seq<byte>)
    ensures EncodeEntries(ctx, entries[|entries|..]) == Ok([]) && done + [] == done
  {
  }

  class Decoder {
    const input: seq<byte>
    var pos: nat

    ghost predicate Valid()
      reads this
    {
      pos <= |input|
    }

    constructor (input: seq<byte>)
      ensures Valid() && this.input == input && pos == 0
    {
      this.input := input;
      pos := 0;
    }

    method Byte() returns (r: Result<byte, DecodeError>)
      requires Valid()
      modifies this
      ensures Valid()
      ensures if old(pos) == |input| then r == Err(UnexpectedEof(old(pos))) && pos == old(pos)
              else r == Ok(input[old(pos)]) && pos == old(pos) + 1
    {
      if pos == |input| {
        return Err(UnexpectedEof(pos));
      }
      r := Ok(input[pos]);
      pos := pos + 1;
    }

    /** `be_uint`: accumulate `width` bytes, most significant first. */
    method BeUint(width: nat) returns (r: Result<u64, DecodeError>)
      requires Valid() && width <= 8
      modifies this
      ensures Valid()
      ensures if old(pos) + width > |input| then r == Err(UnexpectedEof(|input|))
              else r == Ok(FromBigEndian(input[old(pos)..old(pos) + width])) && pos == old(pos) + width
    {
      var v: nat := 0;
      for i := 0 to width
        invariant Valid() && pos == old(pos) + i
        invariant v == FromBigEndian(input[old(pos)..pos])
      {
        var b := Byte();
        if b.Err? {
          return Err(b.error);
        }
        assert input[old(pos)..pos][..i] == input[old(pos)..pos - 1];
        v := v * 256 + b.value;
      }
      WideBound(input[old(pos)..pos]);
      return Ok(v);
    }

    method Wide(offset: nat, major: nat, width: nat, least: nat) returns (r: Result<HeadRead, DecodeError>)
      requires Valid() && pos == offset + 1 && width <= 8
      modifies this
      ensures Valid()
      ensures r == ReadWide(input, offset, major, width, least)
      ensures r.Ok? ==> pos == r.value.pos
    {
      var v := BeUint(width);
      if v.Err? {
        return Err(v.error);
      }
      if v.value < least {
        return Err(NonMinimal(offset));
      }
      return Ok(HeadRead(major, v.value, pos));
    }

    /** `head`: minimal-length heads of definite length only. */
    method ReadHeadHere() returns (r: Result<HeadRead, DecodeError>)
      requires Valid()
      modifies this
      ensures Valid()
      ensures r == ReadHead(input, old(pos))
      ensures r.Ok? ==> pos == r.value.pos
    {
      var offset := pos;
      var initial := Byte();
      if initial.Err? {
        return Err(initial.error);
      }
      var major, info := initial.value / 32, initial.value % 32;
      if info < 24 {
        return Ok(HeadRead(major, info, pos));
      } else if info == 24 {
        r := Wide(offset, major, 1, 24);
      } else if info == 25 {
        r := Wide(offset, major, 2, 0x100);
      } else if info == 26 {
        r := Wide(offset, major, 4, 0x1_0000);
      } else if info == 27 {
        r := Wide(offset, major, 8, 0x1_0000_0000);
      } else if info < 31 {
        return Err(Forbidden(offset, "reserved additional-info"));
      } else {
        return Err(Forbidden(offset, "indefinite length"));
      }
    }

    /** `take`: the next `len` bytes, refused when they run past the input. */
    method Take(len: nat, at: nat) returns (r: Result<seq<byte>, DecodeError>)
      requires Valid()
      modifies this
      ensures Valid()
      ensures if old(pos) + len > |input| then r == Err(Length(at))
              else r == Ok(input[old(pos)..old(pos) + len]) && pos == old(pos) + len
    {
      if pos + len > |input| {
        return Err(Length(at));
      }
      r := Ok(input[pos..pos + len]);
      pos := pos + len;
    }

    /** `value`: one canonical value, `depth` levels down. */
    method ReadValue(depth: nat) returns (r: Result<Value, DecodeError>)
      requires Valid() && depth <= MAX_DEPTH + 1
      modifies this
      ensures Valid()
      ensures match Parse(input, old(pos), depth, MAX_DEPTH)
              case Ok(parsed) => r == Ok(parsed.0) && pos == parsed.1
              case Err(e) => r == Err(e)
      decreases MAX_DEPTH + 1 - depth, 1
    {
      if depth > MAX_DEPTH {
        return Err(Depth(pos));
      }
      var offset := pos;
      var head := ReadHeadHere();
      if head.Err? {
        return Err(head.error);
      }
      HeadCanonical(input, offset);
      var arg := head.value.arg;
      match head.value.major {
        case 0 =>
          return Ok(Uint(arg));
        case 1 =>
          return Err(Forbidden(offset, "negative integer"));
        case 2 =>
          var b := Take(arg, offset);
          if b.Err? {
            return Err(b.error);
          }
          return Ok(Value.Bytes(b.value));
        case 3 =>
          var b := Take(arg, offset);
          if b.Err? {
            return Err(b.error);
          }
          if !ValidUtf8(b.value) {
            return Err(BadUtf8(offset));
          }
          return Ok(Text(b.value));
        case 4 =>
          if arg > |input| - pos {
            return Err(Length(offset));
          }
          var items := ReadItems(depth, arg);
          if items.Err? {
            return Err(items.error);
          }
          return Ok(Array(items.value));
        case 5 =>
          if arg > |input| - pos {
            return Err(Length(offset));
          }
          var entries := ReadEntries(depth, arg);
          if entries.Err? {
            return Err(entries.error);
          }
          return Ok(Map(entries.value));
        case 6 =>
          return Err(Forbidden(offset, "tag"));
        case _ =>
          return Err(Forbidden(offset, "float or simple value"));
      }
    }

    /** The element loop of `value`. */
    method ReadItems(depth: nat, count: nat) returns (r: Result<seq<Value>, DecodeError>)
      requires Valid() && depth <= MAX_DEPTH
      modifies this
      ensures Valid()
      ensures match ParseItems(input, old(pos), depth, MAX_DEPTH, count)
              case Ok(parsed) => r == Ok(parsed.0) && pos == parsed.1
              case Err(e) => r == Err(e)
      decreases MAX_DEPTH + 1 - depth, 0
    {
      hide Parse;
      ghost var all := ParseItems(input, pos, depth, MAX_DEPTH, count);
      assert all.Ok? ==> [] + all.value.0 == all.value.0;
      var items: seq<Value> := [];
      for i := 0 to count
        invariant Valid()
        invariant all == match ParseItems(input, pos, depth, MAX_DEPTH, count - i)
                         case Ok(rest) => Ok((items + rest.0, rest.1)) case Err(e) => Err(e)
      {
        ghost var rest := ParseItems(input, pos, depth, MAX_DEPTH, count - i);
        var item := ReadValue(depth + 1);
        if item.Err? {
          return Err(item.error);
        }
        assert rest.Ok? ==> rest.value.0 == [item.value] + rest.value.0[1..] && items + rest.value.0 == (items + [item.value]) + rest.value.0[1..];
        items := items + [item.value];
      }
      assert items + [] == items;
      return Ok(items);
    }

    /** The entry loop of `value`: integer keys, strictly rising. */
    method ReadEntries(depth: nat, count: nat) returns (r: Result<seq<Entry>, DecodeError>)
      requires Valid() && depth <= MAX_DEPTH
      modifies this
      ensures Valid()
      ensures match ParseEntries(input, old(pos), depth, MAX_DEPTH, count, None)
              case Ok(parsed) => r == Ok(parsed.0) && pos == parsed.1
              case Err(e) => r == Err(e)
      decreases MAX_DEPTH + 1 - depth, 0
    {
      hide Parse, ReadHead;
      ghost var all := ParseEntries(input, pos, depth, MAX_DEPTH, count, None);
      assert all.Ok? ==> [] + all.value.0 == all.value.0;
      var entries: seq<Entry> := [];
      var prev: Option<u64> := None;
      for i := 0 to count
        invariant Valid()
        invariant all == match ParseEntries(input, pos, depth, MAX_DEPTH, count - i, prev)
                         case Ok(rest) => Ok((entries + rest.0, rest.1)) case Err(e) => Err(e)
      {
        ghost var rest := ParseEntries(input, pos, depth, MAX_DEPTH, count - i, prev);
        var keyOffset := pos;
        var key := ReadHeadHere();
        if key.Err? {
          return Err(key.error);
        }
        if key.value.major != MAJOR_UINT {
          return Err(Forbidden(keyOffset, "non-integer map key"));
        }
        if prev.Some? && prev.value >= key.value.arg {
          return Err(KeyOrder(keyOffset));
        }
        prev := Some(key.value.arg);
        var val := ReadValue(depth + 1);
        if val.Err? {
          return Err(val.error);
        }
        ghost var entry := Entry(key.value.arg, val.value);
        assert rest.Ok? ==> rest.value.0 == [entry] + rest.value.0[1..] && entries + rest.value.0 == (entries + [entry]) + rest.value.0[1..];
        entries := entries + [Entry(key.value.arg, val.value)];
      }
      assert entries + [] == entries;
      return Ok(entries);
    }
  }

  /** `encode`: canonical bytes, or the duplicate key that makes them impossible. */
  method EncodeValue(v: Value) returns (r: Result<seq<byte>, EncodeError>)
    requires Fits(v)
    ensures r == Encode(v)
  {
    var out := new ByteVec();
    var done := EncodeInto(v, out);
    if done.Err? {
      return Err(done.error);
    }
    assert [] + Encode(v).value == Encode(v).value;
    return Ok(out.bytes);
  }

  /** `decode`: exactly one canonical value spanning the whole input. */
  method DecodeInput(input: seq<byte>) returns (r: Result<Value, DecodeError>)
    ensures r == Decode(input)
  {
    var d := new Decoder(input);
    var v := d.ReadValue(0);
    if v.Err? {
      return v;
    }
    if d.pos != |input| {
      return Err(Trailing(d.pos));
    }
    return v;
  }
}
