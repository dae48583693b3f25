/**
 State snapshots and their sharded batches (snapshot.rs): objects whose encoders
 sort and whose decoders insist on order, so a set of rows has one byte string.
 */
module SnapshotObject {
  import opened Wrappers
  import opened Bytes
  import opened Cbor
  import opened Objects

  datatype SnapshotError =
    | WrongKind(what: string)
    | Version(what: string, version: u32)
    | BadCbor(error: DecodeError)
    | Invalid(why: string)

  const MAX_FANOUT: nat := 256

  /** Byte order, shorter first when one is a prefix: how hashes and UTF-8 texts compare. */
  predicate Before(a: seq<byte>, b: seq<byte>) {
    if b == [] then false
    else if a == [] then true
    else a[0] < b[0] || (a[0] == b[0] && Before(a[1..], b[1..]))
  }

  lemma {:induction false} BeforeTotal(a: seq<byte>, b: seq<byte>)
    ensures a == b || Before(a, b) || Before(b, a)
  {
    if a != [] && b != [] && a[0] == b[0] {
      BeforeTotal(a[1..], b[1..]);
      assert a == [a[0]] + a[1..] && b == [b[0]] + b[1..];
    }
  }

  lemma {:induction false} BeforeTransitive(a: seq<byte>, b: seq<byte>, c: seq<byte>)
    requires Before(a, b) && Before(b, c)
    ensures Before(a, c)
  {
    if a != [] && a[0] == b[0] == c[0] {
      BeforeTransitive(a[1..], b[1..], c[1..]);
    }
  }

  lemma {:induction false} BeforeIrreflexive(a: seq<byte>)
    ensures !Before(a, a)
  {
    if a != [] {
      BeforeIrreflexive(a[1..]);
    }
  }

  // ---- Rows in key order ----

  /** Keys ascend strictly. */
  ghost predicate Ascend<T(!new)>(rows: seq<T>, key: T -> seq<byte>) {
    forall i, j :: 0 <= i < j < |rows| ==> Before(key(rows[i]), key(rows[j]))
  }

  ghost predicate AscendWeakly<T(!new)>(rows: seq<T>, key: T -> seq<byte>) {
    forall i, j :: 0 <= i < j < |rows| ==> !Before(key(rows[j]), key(rows[i]))
  }

  function InsertRow<T>(rows: seq<T>, x: T, key: T -> seq<byte>): (r: seq<T>)
    ensures |r| == |rows| + 1 && multiset(r) == multiset(rows) + multiset{x}
    decreases |rows|
  {
    if rows == [] || !Before(key(x), key(rows[|rows| - 1])) then rows + [x]
    else
      assert rows == rows[..|rows| - 1] + [rows[|rows| - 1]];
      InsertRow(rows[..|rows| - 1], x, key) + [rows[|rows| - 1]]
  }

  /** `sort_by_key`, stable. */
  function SortRows<T>(rows: seq<T>, key: T -> seq<byte>): (r: seq<T>)
    ensures |r| == |rows| && multiset(r) == multiset(rows)
    decreases |rows|
  {
    if rows == [] then []
    else
      assert rows == rows[..|rows| - 1] + [rows[|rows| - 1]];
      InsertRow(SortRows(rows[..|rows| - 1], key), rows[|rows| - 1], key)
  }

  lemma AppendOrdered<T(!new)>(rows: seq<T>, x: T, key: T -> seq<byte>)
    requires AscendWeakly(rows, key) && forall y :: y in rows ==> !Before(key(x), key(y))
    ensures AscendWeakly(rows + [x], key)
  {
    hide Before;
  }

  lemma {:induction false} InsertKeepsOrder<T(!new)>(rows: seq<T>, x: T, key: T -> seq<byte>)
    requires AscendWeakly(rows, key)
    ensures AscendWeakly(InsertRow(rows, x, key), key)
    decreases |rows|
  {
    hide Before;
    var n := |rows|;
    if n > 0 && Before(key(x), key(rows[n - 1])) {
      var init, last := rows[..n - 1], rows[n - 1];
      InsertKeepsOrder(init, x, key);
      NotBothWays(key(x), key(last));
      forall y | y in InsertRow(init, x, key) ensures !Before(key(last), key(y)) {
        assert y in multiset(InsertRow(init, x, key));
      }
      AppendOrdered(InsertRow(init, x, key), last, key);
    } else {
      forall y | y in rows ensures !Before(key(x), key(y)) {
        var i :| 0 <= i < n && rows[i] == y;
        if i < n - 1 {
          WeakTransitive(key(y), key(rows[n - 1]), key(x));
        }
      }
      AppendOrdered(rows, x, key);
    }
  }

  lemma WeakTransitive(a: seq<byte>, b: seq<byte>, c: seq<byte>)
    requires !Before(b, a) && !Before(c, b)
    ensures !Before(c, a)
  {
    if Before(c, a) {
      BeforeTotal(b, c);
      if Before(b, c) {
        BeforeTransitive(b, c, a);
      }
    }
  }

  lemma {:induction false} SortOrders<T(!new)>(rows: seq<T>, key: T -> seq<byte>)
    ensures AscendWeakly(SortRows(rows, key), key)
    decreases |rows|
  {
    if rows != [] {
      SortOrders(rows[..|rows| - 1], key);
      InsertKeepsOrder(SortRows(rows[..|rows| - 1], key), rows[|rows| - 1], key);
    }
  }

  lemma {:induction false} SortFixesOrdered<T(!new)>(rows: seq<T>, key: T -> seq<byte>)
    requires Ascend(rows, key)
    ensures SortRows(rows, key) == rows
    decreases |rows|
  {
    hide Before, InsertRow;
    if rows != [] {
      var n := |rows| - 1;
      assert Ascend(rows[..n], key);
      SortFixesOrdered(rows[..n], key);
      InsertAtEnd(rows[..n], rows[n], key);
      assert rows == rows[..n] + [rows[n]];
    }
  }

  lemma InsertAtEnd<T(!new)>(rows: seq<T>, x: T, key: T -> seq<byte>)
    requires rows == [] || Before(key(rows[|rows| - 1]), key(x))
    ensures InsertRow(rows, x, key) == rows + [x]
  {
    if rows != [] {
      NotBothWays(key(rows[|rows| - 1]), key(x));
    }
  }

  lemma NotBothWays(a: seq<byte>, b: seq<byte>)
    ensures Before(a, b) ==> !Before(b, a)
  {
    if Before(a, b) && Before(b, a) {
      BeforeTransitive(a, b, a);
      BeforeIrreflexive(a);
    }
  }

  /** Two strictly ordered lists of the same rows are one list. */
  lemma {:induction false} OneOrder<T(!new)>(a: seq<T>, b: seq<T>, key: T -> seq<byte>)
    requires Ascend(a, key) && Ascend(b, key) && multiset(a) == multiset(b)
    ensures a == b
    decreases |a|
  {
    hide Before, Ascend;
    assert |b| == |multiset(b)| == |multiset(a)| == |a|;
    if a != [] {
      var n := |a| - 1;
      SameLast(a, b, key);
      SameRest(a, b, n);
      AscendFront(a, n, key);
      AscendFront(b, n, key);
      OneOrder(a[..n], b[..n], key);
      assert a == a[..n] + [a[n]] && b == b[..n] + [b[n]];
    }
  }

  lemma AscendFront<T(!new)>(rows: seq<T>, n: nat, key: T -> seq<byte>)
    requires Ascend(rows, key) && n <= |rows|
    ensures Ascend(rows[..n], key)
  {
    hide Before;
  }

  lemma SameLast<T(!new)>(a: seq<T>, b: seq<T>, key: T -> seq<byte>)
    requires Ascend(a, key) && Ascend(b, key) && multiset(a) == multiset(b) && |a| == |b| > 0
    ensures a[|a| - 1] == b[|b| - 1]
  {
    hide Before, Ascend;
    assert a[|a| - 1] in multiset(b) && b[|b| - 1] in multiset(a);
    var i :| 0 <= i < |b| && b[i] == a[|a| - 1];
    var j :| 0 <= j < |a| && a[j] == b[|b| - 1];
    LastIsLast(a, b, key, i, j);
  }

  lemma SameRest<T>(a: seq<T>, b: seq<T>, n: nat)
    requires |a| == |b| == n + 1 && a[n] == b[n] && multiset(a) == multiset(b)
    ensures multiset(a[..n]) == multiset(b[..n])
  {
    assert a == a[..n] + [a[n]] && b == b[..n] + [b[n]];
    assert multiset(a[..n]) == multiset(a) - multiset{a[n]};
    assert multiset(b[..n]) == multiset(b) - multiset{b[n]};
  }

  lemma LastIsLast<T(!new)>(a: seq<T>, b: seq<T>, key: T -> seq<byte>, i: nat, j: nat)
    requires Ascend(a, key) && Ascend(b, key) && |a| == |b| > 0 && i < |b| && j < |a|
    requires b[i] == a[|a| - 1] && a[j] == b[|b| - 1]
    ensures a[|a| - 1] == b[|b| - 1]
  {
    var n := |a| - 1;
    if i < n && j < n {
      BeforeTransitive(key(b[i]), key(b[n]), key(a[n]));
      BeforeIrreflexive(key(a[n]));
    }
  }

  /** The first pair of equal neighbouring keys, if any, in an ordered list. */
  method HasDuplicate<T(!new)>(rows: seq<T>, key: T -> seq<byte>) returns (found: bool)
    requires AscendWeakly(rows, key)
    ensures !found <==> Ascend(rows, key)
  {
    var i := 1;
    while i < |rows|
      invariant 1 <= i && forall a, b :: 0 <= a < b < i && b < |rows| ==> Before(key(rows[a]), key(rows[b]))
    {
      if key(rows[i - 1]) == key(rows[i]) {
        BeforeIrreflexive(key(rows[i]));
        return true;
      }
      BeforeTotal(key(rows[i - 1]), key(rows[i]));
      forall a | 0 <= a < i ensures Before(key(rows[a]), key(rows[i])) {
        if a < i - 1 {
          BeforeTransitive(key(rows[a]), key(rows[i - 1]), key(rows[i]));
        }
      }
      i := i + 1;
    }
    return false;
  }

  /** The decoder's check of neighbours. */
  method IsAscending<T(!new)>(rows: seq<T>, key: T -> seq<byte>) returns (ok: bool)
    ensures ok <==> Ascend(rows, key)
  {
    var i := 1;
    while i < |rows|
      invariant 1 <= i && forall a, b :: 0 <= a < b < i && b < |rows| ==> Before(key(rows[a]), key(rows[b]))
    {
      if !Before(key(rows[i - 1]), key(rows[i])) {
        return false;
      }
      forall a | 0 <= a < i ensures Before(key(rows[a]), key(rows[i])) {
        if a < i - 1 {
          BeforeTransitive(key(rows[a]), key(rows[i - 1]), key(rows[i]));
        }
      }
      i := i + 1;
    }
    return true;
  }

  // ---- Batches ----

  /** A batch's value: a map with its rows under the one key. */
  function BatchValue<T(!new)>(rows: seq<T>, fields: T -> seq<Option<Value>>): Value
    requires forall x :: |fields(x)| < TWO_64
  {
    FieldMap([Some(Array(Records(rows, fields)))])
  }

  ghost predicate RowsFit<T(!new)>(rows: seq<T>, fields: T -> seq<Option<Value>>) {
    |rows| < TWO_64 && (forall x :: |fields(x)| < TWO_64) && forall i :: 0 <= i < |rows| ==> FieldsOk(fields(rows[i]), 0)
  }

  lemma BatchValueOk<T(!new)>(rows: seq<T>, fields: T -> seq<Option<Value>>)
    requires RowsFit(rows, fields)
    ensures Canonical(BatchValue(rows, fields)) && Fits(BatchValue(rows, fields)) && HeightAtMost(BatchValue(rows, fields), MAX_DEPTH)
  {
    RecordsOk(rows, fields);
    hide FieldMap, Records;
    FieldMapOk([Some(Array(Records(rows, fields)))], 2);
    HeightsTo(BatchValue(rows, fields), 3, MAX_DEPTH);
  }

  function EncodedBatch<T(!new)>(kind: ObjectKind, rows: seq<T>, fields: T -> seq<Option<Value>>): seq<byte>
    requires RowsFit(rows, fields)
  {
    BatchValueOk(rows, fields);
    CanonicalEncodes(BatchValue(rows, fields));
    Header(kind, 1) + Encode(BatchValue(rows, fields)).value
  }

  ghost predicate AllOk<T(!new)>(rows: seq<T>, ok: T -> bool) {
    forall x :: x in rows ==> ok(x)
  }

  method CheckRows<T(!new)>(rows: seq<T>, ok: T -> bool) returns (r: bool)
    ensures r <==> AllOk(rows, ok)
  {
    for i := 0 to |rows|
      invariant forall k :: 0 <= k < i ==> ok(rows[k])
    {
      if !ok(rows[i]) {
        assert rows[i] in rows;
        return false;
      }
    }
    return true;
  }

  /** Sorting changes neither which rows there are nor whether they fit. */
  lemma SortedFits<T(!new)>(rows: seq<T>, fields: T -> seq<Option<Value>>, key: T -> seq<byte>, ok: T -> bool)
    requires RowsFit(rows, fields)
    ensures RowsFit(SortRows(rows, key), fields) && (AllOk(SortRows(rows, key), ok) <==> AllOk(rows, ok))
  {
    hide FieldsOk;
    var sorted := SortRows(rows, key);
    forall x ensures x in sorted <==> x in rows {
      assert x in sorted <==> x in multiset(sorted);
      assert x in rows <==> x in multiset(rows);
    }
    forall i | 0 <= i < |sorted| ensures FieldsOk(fields(sorted[i]), 0) {
      assert sorted[i] in sorted;
      var k :| 0 <= k < |rows| && rows[k] == sorted[i];
    }
  }

  /** Rows whose sorted keys repeat have no strictly ordered arrangement. */
  lemma NoArrangement<T(!new)>(rows: seq<T>, other: seq<T>, key: T -> seq<byte>)
    requires multiset(other) == multiset(rows) && Ascend(other, key)
    ensures Ascend(SortRows(rows, key), key) && SortRows(rows, key) == other
  {
    SortOrders(rows, key);
    var sorted := SortRows(rows, key);
    assert |sorted| == |rows| == |multiset(rows)| == |multiset(other)| == |other|;
    Strict(sorted, other, key);
    OneOrder(sorted, other, key);
  }

  lemma Strict<T(!new)>(sorted: seq<T>, other: seq<T>, key: T -> seq<byte>)
    requires AscendWeakly(sorted, key) && Ascend(other, key) && multiset(sorted) == multiset(other)
    ensures Ascend(sorted, key)
  {
    hide Before;
    forall i, j | 0 <= i < j < |sorted| ensures Before(key(sorted[i]), key(sorted[j])) {
      BeforeTotal(key(sorted[i]), key(sorted[j]));
      if key(sorted[i]) == key(sorted[j]) {
        TwoPlaces(sorted, other, key, i, j);
      }
    }
  }

  /** Keys of a strictly ordered list do not repeat, in any arrangement of its rows. */
  lemma TwoPlaces<T(!new)>(sorted: seq<T>, other: seq<T>, key: T -> seq<byte>, i: nat, j: nat)
    requires Ascend(other, key) && multiset(sorted) == multiset(other) && i < j < |sorted|
    ensures key(sorted[i]) != key(sorted[j])
  {
    hide Before;
    var x, y := sorted[i], sorted[j];
    assert x in multiset(other) && y in multiset(other);
    var p :| 0 <= p < |other| && other[p] == x;
    var q :| 0 <= q < |other| && other[q] == y;
    BeforeIrreflexive(key(x));
    if p == q {
      TwiceIn(sorted, i, j);
      OnceIn(other, key, p);
    }
  }

  lemma TwiceIn<T>(s: seq<T>, i: nat, j: nat)
    requires i < j < |s| && s[i] == s[j]
    ensures multiset(s)[s[i]] >= 2
  {
    assert s == s[..i] + [s[i]] + s[i + 1..j] + [s[j]] + s[j + 1..];
  }

  lemma OnceIn<T(!new)>(s: seq<T>, key: T -> seq<byte>, p: nat)
    requires Ascend(s, key) && p < |s|
    ensures multiset(s)[s[p]] == 1
  {
    hide Before;
    forall k | 0 <= k < |s| && k != p ensures s[k] != s[p] {
      BeforeIrreflexive(key(s[p]));
    }
    assert s == s[..p] + [s[p]] + s[p + 1..];
    assert s[p] !in s[..p] && s[p] !in s[p + 1..];
  }

  /**
   Encode a batch: rows are sorted first, and rows that share a key are refused, so
   any order of the same rows gives the same bytes.
   */
  method EncodeBatch<T(!new)>(kind: ObjectKind, rows: seq<T>, fields: T -> seq<Option<Value>>, key: T -> seq<byte>, ok: T -> bool)
    returns (r: Result<seq<byte>, SnapshotError>)
    requires RowsFit(rows, fields)
    ensures r.Ok? <==> Ascend(SortRows(rows, key), key) && AllOk(rows, ok)
    ensures r.Ok? ==> RowsFit(SortRows(rows, key), fields) && r.value == EncodedBatch(kind, SortRows(rows, key), fields)
  {
    hide RowsFit, Ascend, AscendWeakly, AllOk, BatchValue;
    var sorted := SortRows(rows, key);
    SortOrders(rows, key);
    SortedFits(rows, fields, key, ok);
    var duplicate := HasDuplicate(sorted, key);
    if duplicate {
      return Err(Invalid("duplicate key"));
    }
    var fine := CheckRows(sorted, ok);
    if !fine {
      return Err(Invalid("row"));
    }
    FieldCounts(sorted, fields);
    BatchValueOk(sorted, fields);
    CanonicalEncodes(BatchValue(sorted, fields));
    var body := EncodeValue(BatchValue(sorted, fields));
    return Ok(Header(kind, 1) + body.value);
  }

  lemma FieldCounts<T(!new)>(rows: seq<T>, fields: T -> seq<Option<Value>>)
    requires RowsFit(rows, fields)
    ensures forall x :: |fields(x)| < TWO_64
  {
  }

  /** Any two arrangements of the same rows encode to the same bytes, or neither encodes. */
  lemma SameRowsSameBytes<T(!new)>(a: seq<T>, b: seq<T>, key: T -> seq<byte>)
    requires multiset(a) == multiset(b)
    ensures Ascend(SortRows(a, key), key) <==> Ascend(SortRows(b, key), key)
    ensures Ascend(SortRows(a, key), key) ==> SortRows(a, key) == SortRows(b, key)
  {
    if Ascend(SortRows(a, key), key) {
      NoArrangement(b, SortRows(a, key), key);
    }
    if Ascend(SortRows(b, key), key) {
      NoArrangement(a, SortRows(b, key), key);
    }
  }

  /** Record fields that hold no arrays or maps. */
  ghost predicate Flat<T(!new)>(fields: T -> seq<Option<Value>>) {
    forall x, k :: 0 <= k < |fields(x)| && fields(x)[k].Some? ==> !fields(x)[k].value.Array? && !fields(x)[k].value.Map?
  }

  lemma RowsFitBack<T(!new)>(rows: seq<T>, fields: T -> seq<Option<Value>>)
    requires Flat(fields) && (forall x :: |fields(x)| < TWO_64) && Fits(BatchValue(rows, fields))
    ensures RowsFit(rows, fields)
  {
    var outer := [Some(Array(Records(rows, fields)))];
    FieldFits(outer);
    assert Fits(outer[0].value);
    RecordFits(rows, fields);
    forall i | 0 <= i < |rows| ensures FieldsOk(fields(rows[i]), 0) {
      forall k | 0 <= k < |fields(rows[i])| && fields(rows[i])[k].Some?
        ensures Canonical(fields(rows[i])[k].value) && HeightAtMost(fields(rows[i])[k].value, 0)
      {
      }
    }
  }

  /** The body decodes to a batch's value exactly when the bytes are its encoding. */
  lemma BatchDecodes<T(!new)>(kind: ObjectKind, head: seq<byte>, body: seq<byte>, rows: seq<T>, fields: T -> seq<Option<Value>>)
    requires RowsFit(rows, fields) && head == Header(kind, 1)
    ensures head + body == EncodedBatch(kind, rows, fields) <==> Decode(body) == Ok(BatchValue(rows, fields))
  {
    BatchValueOk(rows, fields);
    CanonicalEncodes(BatchValue(rows, fields));
    hide Header, BatchValue, Encode, Decode, Canonical, Fits, HeightAtMost, RowsFit;
    DecodeExact(body, BatchValue(rows, fields));
    assert body == (head + body)[|head|..];
    assert Encode(BatchValue(rows, fields)).value == (head + Encode(BatchValue(rows, fields)).value)[|head|..];
  }

  lemma BatchesDecode<T(!new)>(kind: ObjectKind, head: seq<byte>, body: seq<byte>, fields: T -> seq<Option<Value>>)
    requires head == Header(kind, 1)
    ensures forall rows :: RowsFit(rows, fields) ==> (head + body == EncodedBatch(kind, rows, fields) <==> Decode(body) == Ok(BatchValue(rows, fields)))
  {
    hide Header, BatchValue, Decode, EncodedBatch, FieldsOk;
    forall rows | RowsFit(rows, fields) ensures head + body == EncodedBatch(kind, rows, fields) <==> Decode(body) == Ok(BatchValue(rows, fields)) {
      BatchDecodes(kind, head, body, rows, fields);
    }
  }

  lemma BatchHasHeader<T(!new)>(kind: ObjectKind, bytes: seq<byte>, fields: T -> seq<Option<Value>>)
    requires !(Header(kind, 1) <= bytes)
    ensures forall rows :: RowsFit(rows, fields) ==> bytes != EncodedBatch(kind, rows, fields)
  {
    hide Header, BatchValue, RowsFit, Encode;
  }

  /** `expect_object`: the body behind the one header this kind of object has. */
  method ExpectObject(bytes: seq<byte>, kind: ObjectKind, what: string) returns (r: Result<seq<byte>, SnapshotError>)
    ensures r.Ok? <==> Header(kind, 1) <= bytes
    ensures r.Ok? ==> bytes == Header(kind, 1) + r.value
  {
    hide Header;
    var sniffed := Sniff(bytes);
    if sniffed.None? || sniffed.value.0 != kind {
      return Err(WrongKind(what));
    }
    if sniffed.value.1 != 1 {
      return Err(Version(what, sniffed.value.1));
    }
    var body := bytes[sniffed.value.2..];
    assert bytes == Header(kind, 1) + body;
    return Ok(body);
  }

  /** The rows of a batch's value. */
  method RowsFromValue<T(!new)>(v: Value, ghost fields: T -> seq<Option<Value>>, read: seq<Option<Value>> -> Option<T>, n: nat) returns (r: Option<seq<T>>)
    requires Canonical(v) && ReadsBack(fields, read, n)
    ensures forall rows :: r == Some(rows) <==> v == BatchValue(rows, fields)
  {
    hide FieldMap, ReadsBack, Canonical;
    CountsOf(fields, read, n);
    var scanned := FieldsOf(v, 1);
    r := None;
    if scanned.Some? {
      ScannedCanonical(v, scanned.value);
      r := RecordsFrom(scanned.value[0], fields, read, n);
    }
    forall rows: seq<T> ensures r == Some(rows) <==> v == BatchValue(rows, fields) {
      var one := [Some(Array(Records(rows, fields)))];
      assert v == FieldMap(one) <==> scanned == Some(one);
      if scanned.Some? {
        assert scanned.value == [scanned.value[0]];
      }
    }
  }

  lemma CountsOf<T(!new)>(fields: T -> seq<Option<Value>>, read: seq<Option<Value>> -> Option<T>, n: nat)
    requires ReadsBack(fields, read, n)
    ensures n < TWO_64 && forall x :: |fields(x)| < TWO_64
  {
  }

  /**
   Decode a batch: exactly the strictly ordered, well-formed batches decode, each
   from its one encoding.
   */
  method DecodeBatch<T(!new)>(kind: ObjectKind, bytes: seq<byte>, ghost fields: T -> seq<Option<Value>>, read: seq<Option<Value>> -> Option<T>, n: nat,
                              key: T -> seq<byte>, ok: T -> bool)
    returns (r: Result<seq<T>, SnapshotError>)
    requires ReadsBack(fields, read, n) && Flat(fields)
    ensures forall rows :: r == Ok(rows) <==>
              RowsFit(rows, fields) && Ascend(rows, key) && AllOk(rows, ok) && bytes == EncodedBatch(kind, rows, fields)
  {
    hide ReadsBack, Flat, RowsFit, Ascend, AllOk, Header, EncodedBatch, BatchValue, Decode, Canonical, Fits, Encode, HeightAtMost;
    var body := ExpectObject(bytes, kind, "batch");
    if body.Err? {
      BatchHasHeader(kind, bytes, fields);
      return Err(body.error);
    }
    BatchesDecode(kind, Header(kind, 1), body.value, fields);
    var value := DecodeInput(body.value);
    if value.Err? {
      return Err(BadCbor(value.error));
    }
    DecodeExact(body.value, value.value);
    var rows := RowsFromValue(value.value, fields, read, n);
    if rows.None? {
      return Err(Invalid("rows"));
    }
    CountsOf(fields, read, n);
    RowsFitBack(rows.value, fields);
    var fine := CheckRows(rows.value, ok);
    if !fine {
      return Err(Invalid("row"));
    }
    var ascending := IsAscending(rows.value, key);
    if !ascending {
      return Err(Invalid("rows not strictly ascending"));
    }
    return Ok(rows.value);
  }

  // ---- Alias batches ----

  type Bytes4 = s: seq<byte> | |s| == 4 witness [0, 0, 0, 0]
  type Bytes16 = s: seq<byte> | |s| == 16 witness seq(16, _ => 0)
  type Bytes20 = s: seq<byte> | |s| == 20 witness seq(20, _ => 0)

  datatype AliasRow = AliasRow(blake3: Hash32, size: u64, crc32: Bytes4, md5: Bytes16, sha1: Bytes20, sha256: Hash32)

  function AliasFields(x: AliasRow): (r: seq<Option<Value>>)
    ensures |r| == 6
  {
    [Some(Value.Bytes(x.blake3)), Some(Uint(x.size)), Some(Value.Bytes(x.crc32)), Some(Value.Bytes(x.md5)), Some(Value.Bytes(x.sha1)), Some(Value.Bytes(x.sha256))]
  }

  function AsFixed(v: Option<Value>, n: nat): Option<seq<byte>> {
    if v.Some? && v.value.Bytes? && |v.value.bytes| == n then Some(v.value.bytes) else None
  }

  function ReadAlias(f: seq<Option<Value>>): Option<AliasRow> {
    if |f| != 6 || AsHash(f[0]).None? || AsUint(f[1]).None? || AsFixed(f[2], 4).None? || AsFixed(f[3], 16).None?
       || AsFixed(f[4], 20).None? || AsHash(f[5]).None? then None
    else Some(AliasRow(AsHash(f[0]).value, AsUint(f[1]).value, AsFixed(f[2], 4).value, AsFixed(f[3], 16).value, AsFixed(f[4], 20).value, AsHash(f[5]).value))
  }

  lemma AliasReadsBack()
    ensures ReadsBack(AliasFields, ReadAlias, 6) && Flat(AliasFields)
  {
    forall f: seq<Option<Value>>, x | |f| == 6 ensures Inverse(AliasFields, ReadAlias, f, x) {
      if ReadAlias(f) == Some(x) {
        assert f == AliasFields(x);
      }
    }
  }

  function AliasKey(x: AliasRow): seq<byte> {
    x.blake3
  }

  method EncodeAliases(rows: seq<AliasRow>) returns (r: Result<seq<byte>, SnapshotError>)
    requires RowsFit(rows, AliasFields)
    ensures r.Ok? <==> Ascend(SortRows(rows, AliasKey), AliasKey)
    ensures r.Ok? ==> RowsFit(SortRows(rows, AliasKey), AliasFields)
                      && r.value == EncodedBatch(AliasBatchKind, SortRows(rows, AliasKey), AliasFields)
  {
    hide RowsFit, Ascend;
    r := EncodeBatch(AliasBatchKind, rows, AliasFields, AliasKey, (x: AliasRow) => true);
  }

  method DecodeAliases(bytes: seq<byte>) returns (r: Result<seq<AliasRow>, SnapshotError>)
    ensures forall rows :: r == Ok(rows) <==>
              RowsFit(rows, AliasFields) && Ascend(rows, AliasKey) && bytes == EncodedBatch(AliasBatchKind, rows, AliasFields)
  {
    hide RowsFit, Ascend, ReadsBack, Flat, EncodedBatch, ReadAlias, AliasFields;
    AliasReadsBack();
    r := DecodeBatch(AliasBatchKind, bytes, AliasFields, ReadAlias, 6, AliasKey, (x: AliasRow) => true);
  }

  /** Alias rows decoded from bytes encode to the same bytes again. */
  method ReencodeAliases(bytes: seq<byte>) returns (rows: Result<seq<AliasRow>, SnapshotError>, again: Result<seq<byte>, SnapshotError>)
    ensures rows.Ok? ==> again == Ok(bytes)
    ensures rows.Err? ==> again == Err(rows.error)
  {
    hide RowsFit, Ascend, EncodedBatch;
    rows := DecodeAliases(bytes);
    if rows.Err? {
      return rows, Err(rows.error);
    }
    SortFixesOrdered(rows.value, AliasKey);
    again := EncodeAliases(rows.value);
  }

  /** Encoded alias rows decode to those rows in hash order. */
  method RedecodeAliases(rows: seq<AliasRow>) returns (bytes: Result<seq<byte>, SnapshotError>, back: Result<seq<AliasRow>, SnapshotError>)
    requires RowsFit(rows, AliasFields)
    ensures bytes.Ok? ==> back.Ok? && multiset(back.value) == multiset(rows) && Ascend(back.value, AliasKey)
    ensures bytes.Err? ==> back == Err(bytes.error)
  {
    hide RowsFit, Ascend, EncodedBatch;
    bytes := EncodeAliases(rows);
    if bytes.Err? {
      return bytes, Err(bytes.error);
    }
    back := DecodeAliases(bytes.value);
    assert back == Ok(SortRows(rows, AliasKey));
  }

  // ---- Analysis batches ----

  datatype AnalysisRow = AnalysisRow(blob: Hash32, analyzer: Hash32, positive: bool, detail: Option<Utf8>)

  function AnalysisFields(x: AnalysisRow): (r: seq<Option<Value>>)
    ensures |r| == 4
  {
    [Some(Value.Bytes(x.blob)), Some(Value.Bytes(x.analyzer)), Some(Uint(if x.positive then 1 else 0)),
     if x.detail.None? then None else Some(Text(x.detail.value))]
  }

  function ReadAnalysis(f: seq<Option<Value>>): Option<AnalysisRow> {
    if |f| != 4 || AsHash(f[0]).None? || AsHash(f[1]).None? || AsUint(f[2]).None? || AsUint(f[2]).value > 1 || (f[3].Some? && AsText(f[3]).None?) then None
    else Some(AnalysisRow(AsHash(f[0]).value, AsHash(f[1]).value, AsUint(f[2]).value == 1, AsText(f[3])))
  }

  lemma AnalysisReadsBack()
    ensures ReadsBack(AnalysisFields, ReadAnalysis, 4) && Flat(AnalysisFields)
  {
    forall f: seq<Option<Value>>, x | |f| == 4 ensures Inverse(AnalysisFields, ReadAnalysis, f, x) {
      if ReadAnalysis(f) == Some(x) {
        assert f == AnalysisFields(x);
      }
    }
  }

  /** Two hashes of one length, so comparing them joined is comparing them in turn. */
  function AnalysisKey(x: AnalysisRow): seq<byte> {
    x.blob + x.analyzer
  }

  predicate AnalysisOk(x: AnalysisRow) {
    x.detail.Some? ==> x.detail.value != []
  }

  method EncodeAnalysis(rows: seq<AnalysisRow>) returns (r: Result<seq<byte>, SnapshotError>)
    requires RowsFit(rows, AnalysisFields)
    ensures r.Ok? <==> Ascend(SortRows(rows, AnalysisKey), AnalysisKey) && AllOk(rows, AnalysisOk)
    ensures r.Ok? ==> RowsFit(SortRows(rows, AnalysisKey), AnalysisFields)
                      && r.value == EncodedBatch(AnalysisBatchKind, SortRows(rows, AnalysisKey), AnalysisFields)
  {
    hide RowsFit, Ascend, AllOk;
    r := EncodeBatch(AnalysisBatchKind, rows, AnalysisFields, AnalysisKey, AnalysisOk);
  }

  method DecodeAnalysis(bytes: seq<byte>) returns (r: Result<seq<AnalysisRow>, SnapshotError>)
    ensures forall rows :: r == Ok(rows) <==>
              RowsFit(rows, AnalysisFields) && Ascend(rows, AnalysisKey) && AllOk(rows, AnalysisOk)
              && bytes == EncodedBatch(AnalysisBatchKind, rows, AnalysisFields)
  {
    hide RowsFit, Ascend, ReadsBack, Flat, EncodedBatch, ReadAnalysis, AnalysisFields, AllOk;
    AnalysisReadsBack();
    r := DecodeBatch(AnalysisBatchKind, bytes, AnalysisFields, ReadAnalysis, 4, AnalysisKey, AnalysisOk);
  }

  /** Analysis rows decoded from bytes encode to the same bytes again. */
  method ReencodeAnalysis(bytes: seq<byte>) returns (rows: Result<seq<AnalysisRow>, SnapshotError>, again: Result<seq<byte>, SnapshotError>)
    ensures rows.Ok? ==> again == Ok(bytes)
    ensures rows.Err? ==> again == Err(rows.error)
  {
    hide RowsFit, Ascend, EncodedBatch, AllOk;
    rows := DecodeAnalysis(bytes);
    if rows.Err? {
      return rows, Err(rows.error);
    }
    SortFixesOrdered(rows.value, AnalysisKey);
    again := EncodeAnalysis(rows.value);
  }

  /** Encoded analysis rows decode to those rows in key order. */
  method RedecodeAnalysis(rows: seq<AnalysisRow>) returns (bytes: Result<seq<byte>, SnapshotError>, back: Result<seq<AnalysisRow>, SnapshotError>)
    requires RowsFit(rows, AnalysisFields)
    ensures bytes.Ok? ==> back.Ok? && multiset(back.value) == multiset(rows) && Ascend(back.value, AnalysisKey)
    ensures bytes.Err? ==> back == Err(bytes.error)
  {
    hide RowsFit, Ascend, EncodedBatch, AllOk;
    SortedFits(rows, AnalysisFields, AnalysisKey, AnalysisOk);
    bytes := EncodeAnalysis(rows);
    if bytes.Err? {
      return bytes, Err(bytes.error);
    }
    back := DecodeAnalysis(bytes.value);
    assert back == Ok(SortRows(rows, AnalysisKey));
  }

  // ---- Snapshot payload ----

  datatype SourceRef = SourceRef(provider: Utf8, system: Utf8, datBlob: Hash32, importedAt: u64)

  datatype TagRow = TagRow(name: Utf8, hash: Hash32)

  datatype ConfigRow = ConfigRow(key: Utf8, value: seq<byte>)

  datatype Payload = Payload(
    sequence: u64, createdAt: u64, sources: seq<SourceRef>, aliasFanout: u64, aliasBatches: seq<Hash32>,
    analysisFanout: u64, analysisBatches: seq<Hash32>, tags: seq<TagRow>, config: seq<ConfigRow>)

  function SourceFields(x: SourceRef): (r: seq<Option<Value>>)
    ensures |r| == 4
  {
    [Some(Text(x.provider)), Some(Text(x.system)), Some(Value.Bytes(x.datBlob)), Some(Uint(x.importedAt))]
  }

  function ReadSource(f: seq<Option<Value>>): Option<SourceRef> {
    if |f| != 4 || AsText(f[0]).None? || AsText(f[1]).None? || AsHash(f[2]).None? || AsUint(f[3]).None? then None
    else Some(SourceRef(AsText(f[0]).value, AsText(f[1]).value, AsHash(f[2]).value, AsUint(f[3]).value))
  }

  function TagFields(x: TagRow): (r: seq<Option<Value>>)
    ensures |r| == 2
  {
    [Some(Text(x.name)), Some(Value.Bytes(x.hash))]
  }

  function ReadTag(f: seq<Option<Value>>): Option<TagRow> {
    if |f| != 2 || AsText(f[0]).None? || AsHash(f[1]).None? then None else Some(TagRow(AsText(f[0]).value, AsHash(f[1]).value))
  }

  function ConfigFields(x: ConfigRow): (r: seq<Option<Value>>)
    ensures |r| == 2
  {
    [Some(Text(x.key)), Some(Value.Bytes(x.value))]
  }

  function ReadConfig(f: seq<Option<Value>>): Option<ConfigRow> {
    if |f| != 2 || AsText(f[0]).None? || f[1].None? || !f[1].value.Bytes? then None
    else Some(ConfigRow(AsText(f[0]).value, f[1].value.bytes))
  }

  lemma SourcesReadBack()
    ensures ReadsBack(SourceFields, ReadSource, 4) && Flat(SourceFields)
  {
    forall f: seq<Option<Value>>, x | |f| == 4 ensures Inverse(SourceFields, ReadSource, f, x) {
      if ReadSource(f) == Some(x) {
        assert f == SourceFields(x);
      }
    }
  }

  lemma TagsReadBack()
    ensures ReadsBack(TagFields, ReadTag, 2) && Flat(TagFields)
  {
    forall f: seq<Option<Value>>, x | |f| == 2 ensures Inverse(TagFields, ReadTag, f, x) {
      if ReadTag(f) == Some(x) {
        assert f == TagFields(x);
      }
    }
  }

  lemma ConfigReadsBack()
    ensures ReadsBack(ConfigFields, ReadConfig, 2) && Flat(ConfigFields)
  {
    forall f: seq<Option<Value>>, x | |f| == 2 ensures Inverse(ConfigFields, ReadConfig, f, x) {
      if ReadConfig(f) == Some(x) {
        assert f == ConfigFields(x);
      }
    }
  }

  function HashValues(hs: seq<Hash32>): (r: seq<Value>)
    ensures |r| == |hs|
  {
    seq(|hs|, i requires 0 <= i < |hs| => Value.Bytes(hs[i]))
  }

  /** Present only when there is something: an empty list and a zero fanout are written as absence. */
  function IfAny(present: bool, v: Value): Option<Value> {
    if present then Some(v) else None
  }

  function PayloadFields(x: Payload): (r: seq<Option<Value>>)
    ensures |r| == 9
  {
    [Some(Uint(x.sequence)), Some(Uint(x.createdAt)), Some(Array(Records(x.sources, SourceFields))),
     Some(Uint(x.aliasFanout)), Some(Array(HashValues(x.aliasBatches))),
     IfAny(x.analysisFanout > 0, Uint(x.analysisFanout)), IfAny(x.analysisFanout > 0, Array(HashValues(x.analysisBatches))),
     IfAny(x.tags != [], Array(Records(x.tags, TagFields))), IfAny(x.config != [], Array(Records(x.config, ConfigFields)))]
  }

  function PayloadValue(x: Payload): Value {
    FieldMap(PayloadFields(x))
  }

  // ---- Validity ----

  predicate SourceBefore(a: SourceRef, b: SourceRef) {
    Before(a.provider, b.provider) || (a.provider == b.provider && Before(a.system, b.system))
  }

  function TagKey(x: TagRow): seq<byte> {
    x.name
  }

  function ConfigKey(x: ConfigRow): seq<byte> {
    x.key
  }

  /** `SnapshotPayload::validate`. */
  ghost predicate PayloadValid(x: Payload) {
    && 1 <= x.aliasFanout <= MAX_FANOUT && |x.aliasBatches| == x.aliasFanout
    && x.analysisFanout <= MAX_FANOUT && |x.analysisBatches| == x.analysisFanout
    && (forall i :: 0 < i < |x.sources| ==> SourceBefore(x.sources[i - 1], x.sources[i]))
    && (forall i :: 0 <= i < |x.sources| ==> x.sources[i].provider != [] && x.sources[i].system != [])
    && Ascend(x.tags, TagKey) && (forall i :: 0 <= i < |x.tags| ==> x.tags[i].name != [])
    && Ascend(x.config, ConfigKey) && forall i :: 0 <= i < |x.config| ==> x.config[i].key != []
  }

  ghost predicate PayloadFits(x: Payload) {
    RowsFit(x.sources, SourceFields) && RowsFit(x.tags, TagFields) && RowsFit(x.config, ConfigFields)
    && |x.aliasBatches| < TWO_64 && |x.analysisBatches| < TWO_64
  }

  method CheckSources(xs: seq<SourceRef>) returns (ok: bool)
    ensures ok <==> (forall i :: 0 < i < |xs| ==> SourceBefore(xs[i - 1], xs[i])) && forall i :: 0 <= i < |xs| ==> xs[i].provider != [] && xs[i].system != []
  {
    for i := 0 to |xs|
      invariant forall k :: 0 < k < i ==> SourceBefore(xs[k - 1], xs[k])
      invariant forall k :: 0 <= k < i ==> xs[k].provider != [] && xs[k].system != []
    {
      if (i > 0 && !SourceBefore(xs[i - 1], xs[i])) || xs[i].provider == [] || xs[i].system == [] {
        return false;
      }
    }
    return true;
  }

  method ValidatePayload(x: Payload) returns (r: Option<SnapshotError>)
    ensures r.None? <==> PayloadValid(x)
  {
    hide Ascend, SourceBefore;
    if x.aliasFanout < 1 || x.aliasFanout > MAX_FANOUT || |x.aliasBatches| != x.aliasFanout {
      return Some(Invalid("alias fanout"));
    }
    if x.analysisFanout > MAX_FANOUT || |x.analysisBatches| != x.analysisFanout {
      return Some(Invalid("analysis fanout"));
    }
    var sourcesOk := CheckSources(x.sources);
    var tagsOk := IsAscending(x.tags, TagKey);
    var namesOk := CheckRows(x.tags, (t: TagRow) => t.name != []);
    var configOk := IsAscending(x.config, ConfigKey);
    var keysOk := CheckRows(x.config, (c: ConfigRow) => c.key != []);
    AllOkIs(x.tags, (t: TagRow) => t.name != []);
    AllOkIs(x.config, (c: ConfigRow) => c.key != []);
    if !(sourcesOk && tagsOk && namesOk && configOk && keysOk) {
      return Some(Invalid("order or empty name"));
    }
    return None;
  }

  lemma AllOkIs<T(!new)>(rows: seq<T>, ok: T -> bool)
    ensures AllOk(rows, ok) <==> forall i :: 0 <= i < |rows| ==> ok(rows[i])
  {
    if forall i :: 0 <= i < |rows| ==> ok(rows[i]) {
      forall x | x in rows ensures ok(x) {
        var i :| 0 <= i < |rows| && rows[i] == x;
      }
    }
  }

  lemma HashesOk(hs: seq<Hash32>)
    requires |hs| < TWO_64
    ensures Canonical(Array(HashValues(hs))) && Fits(Array(HashValues(hs))) && HeightAtMost(Array(HashValues(hs)), 2)
  {
  }

  lemma PayloadValueOk(x: Payload)
    requires PayloadFits(x)
    ensures Canonical(PayloadValue(x)) && Fits(PayloadValue(x)) && HeightAtMost(PayloadValue(x), MAX_DEPTH)
  {
    RecordsOk(x.sources, SourceFields);
    RecordsOk(x.tags, TagFields);
    RecordsOk(x.config, ConfigFields);
    HashesOk(x.aliasBatches);
    HashesOk(x.analysisBatches);
    hide FieldMap, Records, HashValues, RowsFit;
    LeavesOk(x.sequence, 2);
    LeavesOk(x.createdAt, 2);
    LeavesOk(x.aliasFanout, 2);
    LeavesOk(x.analysisFanout, 2);
    hide Canonical, Fits, HeightAtMost;
    FieldMapOk(PayloadFields(x), 2);
    HeightsTo(PayloadValue(x), 3, MAX_DEPTH);
  }

  lemma LeavesOk(n: u64, k: nat)
    ensures Canonical(Uint(n)) && Fits(Uint(n)) && HeightAtMost(Uint(n), k)
  {
  }

  /** The payload's bytes: what the snapshot's signature covers, behind the header. */
  function EncodedPayload(x: Payload): seq<byte>
    requires PayloadFits(x)
  {
    PayloadValueOk(x);
    CanonicalEncodes(PayloadValue(x));
    Encode(PayloadValue(x)).value
  }

  method EncodePayload(x: Payload) returns (r: Result<seq<byte>, SnapshotError>)
    requires PayloadFits(x)
    ensures r.Ok? <==> PayloadValid(x)
    ensures r.Ok? ==> r.value == EncodedPayload(x)
  {
    hide PayloadValid, PayloadValue, PayloadFits, Encode;
    var bad := ValidatePayload(x);
    if bad.Some? {
      return Err(bad.value);
    }
    PayloadValueOk(x);
    CanonicalEncodes(PayloadValue(x));
    var body := EncodeValue(PayloadValue(x));
    return Ok(body.value);
  }

  lemma HashAt(items: seq<Value>, i: nat)
    requires i < |items|
    ensures forall hs: seq<Hash32> :: items == HashValues(hs) ==> |hs| == |items| && AsHash(Some(items[i])) == Some(hs[i])
  {
    forall hs: seq<Hash32> | items == HashValues(hs) ensures |hs| == |items| && AsHash(Some(items[i])) == Some(hs[i]) {
      assert items[i] == HashValues(hs)[i];
    }
  }

  method HashesFrom(v: Option<Value>) returns (r: Option<seq<Hash32>>)
    ensures forall hs :: r == Some(hs) <==> v == Some(Array(HashValues(hs)))
  {
    if v.None? || !v.value.Array? {
      return None;
    }
    var items := v.value.items;
    var out: seq<Hash32> := [];
    for i := 0 to |items|
      invariant |out| == i && forall k :: 0 <= k < i ==> items[k] == Value.Bytes(out[k])
    {
      var h := AsHash(Some(items[i]));
      HashAt(items, i);
      if h.None? {
        return None;
      }
      out := out + [h.value];
    }
    assert items == HashValues(out);
    r := Some(out);
    forall hs: seq<Hash32> ensures r == Some(hs) <==> v == Some(Array(HashValues(hs))) {
      if v == Some(Array(HashValues(hs))) {
        forall i | 0 <= i < |out| ensures |hs| == |out| && out[i] == hs[i] {
          assert items[i] == HashValues(hs)[i];
        }
        assert out == hs;
      }
    }
  }

  /** What a payload's fields can be read as: absent analysis shards are no shards. */
  ghost predicate Normal(x: Payload) {
    x.analysisFanout == 0 ==> x.analysisBatches == []
  }

  method PayloadFromFields(f: seq<Option<Value>>) returns (r: Option<Payload>)
    requires |f| == 9 && forall k :: 0 <= k < 9 && f[k].Some? ==> Canonical(f[k].value)
    ensures forall x :: r == Some(x) <==> Normal(x) && f == PayloadFields(x)
  {
    hide Canonical, ReadsBack, Records, HashValues, Flat;
    SourcesReadBack();
    TagsReadBack();
    ConfigReadsBack();
    var sources := RecordsFrom(f[2], SourceFields, ReadSource, 4);
    var aliases := HashesFrom(f[4]);
    var analysis := HashesFrom(f[6]);
    var tags := RecordsFrom(f[7], TagFields, ReadTag, 2);
    var config := RecordsFrom(f[8], ConfigFields, ReadConfig, 2);
    r := Combine(f, sources, aliases, analysis, tags, config);
    forall x: Payload ensures r == Some(x) <==> Normal(x) && f == PayloadFields(x) {
      PayloadParts(f, x);
      CombineExact(f, sources, aliases, analysis, tags, config, x);
    }
  }

  /** The parts a payload's fields determine. */
  ghost predicate Parts(f: seq<Option<Value>>, x: Payload)
    requires |f| == 9
  {
    && f[0] == Some(Uint(x.sequence)) && f[1] == Some(Uint(x.createdAt)) && f[2] == Some(Array(Records(x.sources, SourceFields)))
    && f[3] == Some(Uint(x.aliasFanout)) && f[4] == Some(Array(HashValues(x.aliasBatches)))
    && f[5] == IfAny(x.analysisFanout > 0, Uint(x.analysisFanout)) && f[6] == IfAny(x.analysisFanout > 0, Array(HashValues(x.analysisBatches)))
    && f[7] == IfAny(x.tags != [], Array(Records(x.tags, TagFields))) && f[8] == IfAny(x.config != [], Array(Records(x.config, ConfigFields)))
  }

  lemma PayloadParts(f: seq<Option<Value>>, x: Payload)
    requires |f| == 9
    ensures f == PayloadFields(x) <==> Parts(f, x)
  {
    hide Records, HashValues;
    if Parts(f, x) {
      assert f == PayloadFields(x);
    }
  }

  /** Put the read fields together: the analysis fields come together or not at all, and nothing present is empty. */
  function Combine(f: seq<Option<Value>>, sources: Option<seq<SourceRef>>, aliases: Option<seq<Hash32>>, analysis: Option<seq<Hash32>>,
                   tags: Option<seq<TagRow>>, config: Option<seq<ConfigRow>>): Option<Payload>
    requires |f| == 9
  {
    var (sequence, createdAt, fanout, analysisFanout) := (AsUint(f[0]), AsUint(f[1]), AsUint(f[3]), AsUint(f[5]));
    if sequence.None? || createdAt.None? || sources.None? || fanout.None? || aliases.None? then None
    else if f[5].Some? != f[6].Some? then None
    else if f[5].Some? && (analysisFanout.None? || analysisFanout.value == 0 || analysis.None?) then None
    else if f[7].Some? && (tags.None? || tags.value == []) then None
    else if f[8].Some? && (config.None? || config.value == []) then None
    else
      Some(Payload(sequence.value, createdAt.value, sources.value, fanout.value, aliases.value,
                   if f[5].Some? then analysisFanout.value else 0, if f[6].Some? then analysis.value else [],
                   if f[7].Some? then tags.value else [], if f[8].Some? then config.value else []))
  }

  lemma CombineExact(f: seq<Option<Value>>, sources: Option<seq<SourceRef>>, aliases: Option<seq<Hash32>>, analysis: Option<seq<Hash32>>,
                     tags: Option<seq<TagRow>>, config: Option<seq<ConfigRow>>, x: Payload)
    requires |f| == 9
    requires sources == Some(x.sources) <==> f[2] == Some(Array(Records(x.sources, SourceFields)))
    requires aliases == Some(x.aliasBatches) <==> f[4] == Some(Array(HashValues(x.aliasBatches)))
    requires analysis == Some(x.analysisBatches) <==> f[6] == Some(Array(HashValues(x.analysisBatches)))
    requires tags == Some(x.tags) <==> f[7] == Some(Array(Records(x.tags, TagFields)))
    requires config == Some(x.config) <==> f[8] == Some(Array(Records(x.config, ConfigFields)))
    ensures Combine(f, sources, aliases, analysis, tags, config) == Some(x) <==> Normal(x) && Parts(f, x)
  {
    hide Records, HashValues;
  }

  method PayloadFromValue(v: Value) returns (r: Option<Payload>)
    requires Canonical(v)
    ensures forall x :: r == Some(x) <==> Normal(x) && v == PayloadValue(x)
  {
    hide FieldMap, PayloadFields, Canonical, Normal;
    var scanned := FieldsOf(v, 9);
    r := None;
    if scanned.Some? {
      ScannedCanonical(v, scanned.value);
      r := PayloadFromFields(scanned.value);
    }
    forall x ensures r == Some(x) <==> Normal(x) && v == PayloadValue(x) {
      assert v == PayloadValue(x) <==> scanned == Some(PayloadFields(x));
    }
  }

  lemma PayloadFitsBack(x: Payload)
    requires Fits(PayloadValue(x)) && Normal(x)
    ensures PayloadFits(x)
  {
    hide Records, HashValues, FieldMap, RowsFit;
    var f := PayloadFields(x);
    FieldFits(f);
    assert Fits(f[2].value) && Fits(f[4].value);
    assert x.analysisFanout > 0 ==> f[6].Some? && Fits(f[6].value);
    assert x.tags != [] ==> f[7].Some? && Fits(f[7].value);
    assert x.config != [] ==> f[8].Some? && Fits(f[8].value);
    SourcesReadBack();
    TagsReadBack();
    ConfigReadsBack();
    ListFitsBack(x.sources, SourceFields);
    ListFitsBack(x.tags, TagFields);
    ListFitsBack(x.config, ConfigFields);
    HashCount(x.aliasBatches);
    HashCount(x.analysisBatches);
  }

  lemma HashCount(hs: seq<Hash32>)
    ensures Fits(Array(HashValues(hs))) ==> |hs| < TWO_64
  {
  }

  lemma ListFitsBack<T(!new)>(rows: seq<T>, fields: T -> seq<Option<Value>>)
    requires Flat(fields) && (forall x :: |fields(x)| < TWO_64)
    ensures rows == [] || Fits(Array(Records(rows, fields))) ==> RowsFit(rows, fields)
  {
    if rows != [] && Fits(Array(Records(rows, fields))) {
      RecordFits(rows, fields);
      forall i | 0 <= i < |rows| ensures FieldsOk(fields(rows[i]), 0) {
        forall k | 0 <= k < |fields(rows[i])| && fields(rows[i])[k].Some?
          ensures Canonical(fields(rows[i])[k].value) && HeightAtMost(fields(rows[i])[k].value, 0)
        {
        }
      }
    }
  }

  /**
   Decode and validate a payload: exactly the valid payloads decode, each from its
   one encoding, whichever optional fields it leaves out.
   */
  method DecodePayload(b: seq<byte>) returns (r: Result<Payload, SnapshotError>)
    ensures forall x :: r == Ok(x) <==> PayloadFits(x) && PayloadValid(x) && b == EncodedPayload(x)
  {
    hide PayloadValue, PayloadValid, PayloadFits, Encode, Decode, Canonical, Fits, HeightAtMost, EncodedPayload;
    var value := DecodeInput(b);
    PayloadsDecode(b);
    if value.Err? {
      return Err(BadCbor(value.error));
    }
    DecodeExact(b, value.value);
    var x := PayloadFromValue(value.value);
    ValidNormal();
    if x.None? {
      return Err(Invalid("structure"));
    }
    PayloadFitsBack(x.value);
    var bad := ValidatePayload(x.value);
    if bad.Some? {
      return Err(bad.value);
    }
    return Ok(x.value);
  }

  lemma ValidNormal()
    ensures forall x :: PayloadValid(x) ==> Normal(x)
  {
    hide Ascend, SourceBefore;
  }

  lemma PayloadsDecode(b: seq<byte>)
    ensures forall x :: PayloadFits(x) ==> (b == EncodedPayload(x) <==> Decode(b) == Ok(PayloadValue(x)))
  {
    hide PayloadValue, PayloadFits, Encode, Decode, Canonical, Fits, HeightAtMost;
    forall x | PayloadFits(x) ensures b == EncodedPayload(x) <==> Decode(b) == Ok(PayloadValue(x)) {
      PayloadValueOk(x);
      CanonicalEncodes(PayloadValue(x));
      DecodeExact(b, PayloadValue(x));
    }
  }

  // ---- Shards ----

  /** `alias_shard`: which of `fanout` ranges of leading bytes a hash falls in. */
  function AliasShard(hash: Hash32, fanout: nat): nat
    requires 1 <= fanout <= MAX_FANOUT
  {
    hash[0] * fanout / 256
  }

  /** Shards are in range, follow hash order, and with full fanout are the leading bytes. */
  lemma ShardsAreRanges(a: Hash32, b: Hash32, fanout: nat)
    requires 1 <= fanout <= MAX_FANOUT
    ensures AliasShard(a, fanout) < fanout
    ensures Before(a, b) ==> AliasShard(a, fanout) <= AliasShard(b, fanout)
    ensures fanout == MAX_FANOUT ==> AliasShard(a, fanout) == a[0]
  {
    assert a[0] * fanout <= 255 * fanout;
    assert a[0] <= b[0] ==> a[0] * fanout <= b[0] * fanout;
  }
}
