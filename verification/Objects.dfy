/**
 What the identity-bearing objects share: the `datboi/<tag>/<version>` header line
 (object.rs `sniff`) and the reading of canonical maps by key.
 */
module Objects {
  import opened Wrappers
  import opened Bytes
  import opened Cbor

  type Hash32 = s: seq<byte> | |s| == 32 witness seq(32, _ => 0)

  // ---- ASCII text ----

  predicate IsAscii(s: string) {
    forall i :: 0 <= i < |s| ==> s[i] as int < 0x80
  }

  function Ascii(s: string): (r: Utf8)
    requires IsAscii(s)
    ensures |r| == |s| && forall i :: 0 <= i < |s| ==> r[i] == s[i] as int
  {
    var bytes := seq(|s|, i requires 0 <= i < |s| => s[i] as int as byte);
    AsciiIsUtf8(bytes);
    bytes
  }

  lemma {:induction false} AsciiIsUtf8(s: seq<byte>)
    requires forall i :: 0 <= i < |s| ==> s[i] < 0x80
    ensures ValidUtf8(s)
    decreases |s|
  {
    if s != [] {
      AsciiIsUtf8(s[1..]);
    }
  }

  lemma AsciiInjective(a: string, b: string)
    requires IsAscii(a) && IsAscii(b) && Ascii(a) == Ascii(b)
    ensures a == b
  {
    assert forall i :: 0 <= i < |a| ==> a[i] as int == Ascii(a)[i] == Ascii(b)[i] == b[i] as int;
  }

  // ---- Decimal versions ----

  predicate IsDigit(b: byte) {
    0x30 <= b <= 0x39
  }

  /** A bare decimal integer: digits only, no leading zero. */
  predicate IsDecimal(s: seq<byte>) {
    s != [] && (|s| > 1 ==> s[0] != 0x30) && forall i :: 0 <= i < |s| ==> IsDigit(s[i])
  }

  function FromDecimal(s: seq<byte>): nat
    requires forall i :: 0 <= i < |s| ==> IsDigit(s[i])
  {
    if s == [] then 0
    else
      assert IsDigit(s[|s| - 1]);
      FromDecimal(s[..|s| - 1]) * 10 + (s[|s| - 1] as int - 0x30)
  }

  lemma {:induction false} DigitsDecimal(n: nat)
    ensures IsDecimal(Digits(n)) && FromDecimal(Digits(n)) == n
    ensures n > 0 ==> Digits(n)[0] != 0x30
  {
    if n >= 10 {
      DigitsDecimal(n / 10);
      assert Digits(n)[..|Digits(n)| - 1] == Digits(n / 10);
    }
  }

  /** A strict decimal is the digits of its value, so spellings are unique. */
  lemma {:induction false} DecimalDigits(s: seq<byte>)
    requires IsDecimal(s)
    ensures Digits(FromDecimal(s)) == s
    ensures |s| > 1 ==> FromDecimal(s) >= 10
    ensures s[0] != 0x30 ==> FromDecimal(s) > 0
  {
    if |s| > 1 {
      var init := s[..|s| - 1];
      DecimalDigits(init);
      assert s == init + [s[|s| - 1]];
    } else {
      assert s == [s[0]] && s[..0] == [];
    }
  }

  // ---- Headers ----

  datatype ObjectKind = RecipeKind | ViewSnapshotKind | StateSnapshotKind | AliasBatchKind | AnalysisBatchKind

  function Tag(kind: ObjectKind): string {
    match kind
    case RecipeKind => "recipe"
    case ViewSnapshotKind => "viewsnap"
    case StateSnapshotKind => "statesnap"
    case AliasBatchKind => "aliases"
    case AnalysisBatchKind => "analysis"
  }

  lemma TagAscii(kind: ObjectKind)
    ensures IsAscii(Tag(kind)) && '/' !in Tag(kind)
  {
  }

  const PREFIX: string := "datboi/"
  const SLASH: byte := 0x2F
  const NEWLINE: byte := 0x0A

  function Header(kind: ObjectKind, version: nat): seq<byte> {
    TagAscii(kind);
    Ascii("datboi/") + (Ascii(Tag(kind)) + ([SLASH] + (Digits(version) + [NEWLINE])))
  }

  function KindOf(tag: seq<byte>): Option<ObjectKind> {
    TagAscii(RecipeKind);
    TagAscii(ViewSnapshotKind);
    TagAscii(StateSnapshotKind);
    TagAscii(AliasBatchKind);
    TagAscii(AnalysisBatchKind);
    if tag == Ascii(Tag(RecipeKind)) then Some(RecipeKind)
    else if tag == Ascii(Tag(ViewSnapshotKind)) then Some(ViewSnapshotKind)
    else if tag == Ascii(Tag(StateSnapshotKind)) then Some(StateSnapshotKind)
    else if tag == Ascii(Tag(AliasBatchKind)) then Some(AliasBatchKind)
    else if tag == Ascii(Tag(AnalysisBatchKind)) then Some(AnalysisBatchKind)
    else None
  }

  lemma TagsDiffer(a: ObjectKind, b: ObjectKind)
    ensures Tag(a) == Tag(b) ==> a == b
  {
    assert |Tag(RecipeKind)| == 6 && |Tag(ViewSnapshotKind)| == |Tag(AnalysisBatchKind)| == 8 && |Tag(StateSnapshotKind)| == 9 && |Tag(AliasBatchKind)| == 7;
    assert Tag(ViewSnapshotKind)[0] == 'v' && Tag(AnalysisBatchKind)[0] == 'a';
  }

  lemma KindExact(tag: seq<byte>, kind: ObjectKind)
    ensures IsAscii(Tag(kind)) && (KindOf(tag) == Some(kind) <==> tag == Ascii(Tag(kind)))
  {
    TagAscii(kind);
    hide Ascii, Tag;
    if tag == Ascii(Tag(kind)) {
      var found := KindOf(tag).value;
      TagAscii(found);
      AsciiInjective(Tag(found), Tag(kind));
      TagsDiffer(found, kind);
    }
  }

  /** The header line without its prefix and newline. */
  function Line(kind: ObjectKind, version: nat): seq<byte> {
    TagAscii(kind);
    Ascii(Tag(kind)) + [SLASH] + Digits(version)
  }

  lemma HeaderIsLine(kind: ObjectKind, version: nat)
    ensures IsAscii(PREFIX) && Header(kind, version) == Ascii(PREFIX) + Line(kind, version) + [NEWLINE]
  {
    TagAscii(kind);
    assert Ascii(PREFIX) + (Ascii(Tag(kind)) + ([SLASH] + (Digits(version) + [NEWLINE])))
        == Ascii(PREFIX) + (Ascii(Tag(kind)) + [SLASH] + Digits(version)) + [NEWLINE];
  }

  lemma TagPlain(kind: ObjectKind)
    ensures IsAscii(Tag(kind)) && SLASH !in Ascii(Tag(kind)) && NEWLINE !in Ascii(Tag(kind))
  {
    TagAscii(kind);
    var t := Tag(kind);
    assert forall i :: 0 <= i < |t| ==> t[i] >= 'a';
    hide Tag;
  }

  lemma DigitsPlain(n: nat)
    ensures SLASH !in Digits(n) && NEWLINE !in Digits(n)
  {
  }

  lemma {:induction false} PositionOf(a: seq<byte>, b: byte, rest: seq<byte>)
    requires b !in a
    ensures Position(a + [b] + rest, b) == Some(|a|)
  {
    var s := a + [b] + rest;
    if a != [] {
      assert s[1..] == a[1..] + [b] + rest;
      PositionOf(a[1..], b, rest);
      assert s[0] == a[0] && a[0] in a;
    }
  }

  /** What the front of a header splits into. */
  lemma LineSplits(kind: ObjectKind, version: nat)
    ensures Position(Line(kind, version), SLASH) == Some(|Tag(kind)|)
    ensures IsAscii(Tag(kind)) && |Line(kind, version)| == |Tag(kind)| + 1 + |Digits(version)|
    ensures Line(kind, version)[..|Tag(kind)|] == Ascii(Tag(kind)) && Line(kind, version)[|Tag(kind)| + 1..] == Digits(version)
    ensures NEWLINE !in Line(kind, version)
  {
    TagPlain(kind);
    DigitsPlain(version);
    hide Tag, Digits, Ascii;
    PositionOf(Ascii(Tag(kind)), SLASH, Digits(version));
  }

  /**
   `sniff`: the kind, version and body offset of an object, from its header line.
   Strict: it reads exactly the headers that are written, so no two spellings
   name one kind and version. A line that is not UTF-8 has no known tag.
   */
  method Sniff(bytes: seq<byte>) returns (r: Option<(ObjectKind, u32, nat)>)
    ensures r.Some? ==> Header(r.value.0, r.value.1) <= bytes && r.value.2 == |Header(r.value.0, r.value.1)|
    ensures forall kind, version: u32 :: Header(kind, version) <= bytes ==> r == Some((kind, version, |Header(kind, version)|))
  {
    hide Header, Line, Tag, Digits, Ascii, KindOf, Position;
    assert IsAscii(PREFIX);
    var prefix := Ascii(PREFIX);
    if !(prefix <= bytes) {
      NoHeader(bytes);
      return None;
    }
    var rest := bytes[|prefix|..];
    var newline := Position(rest, NEWLINE);
    if newline.None? {
      HeadersHaveLines(bytes, rest);
      return None;
    }
    var line := rest[..newline.value];
    LinesAreHeaders(bytes, rest, newline.value);
    var slash := Position(line, SLASH);
    if slash.None? {
      LinesSplit(line, slash);
      return None;
    }
    LinesSplit(line, slash);
    var tag, version := line[..slash.value], line[slash.value + 1..];
    var kind := KindOf(tag);
    KindsExact(tag);
    if kind.None? || !IsDecimal(version) {
      DecimalsAre(version);
      return None;
    }
    DecimalsAre(version);
    var n := FromDecimal(version);
    LineOf(line, slash.value, kind.value, n);
    if n >= 0x1_0000_0000 {
      return None;
    }
    return Some((kind.value, n, |prefix| + newline.value + 1));
  }

  lemma NoHeader(bytes: seq<byte>)
    requires IsAscii(PREFIX)
    ensures forall kind, version: nat :: Header(kind, version) <= bytes ==> Ascii(PREFIX) <= bytes
  {
    forall kind, version: nat | Header(kind, version) <= bytes ensures Ascii(PREFIX) <= bytes {
      HeaderIsLine(kind, version);
    }
  }

  /** A header's line ends at the first newline. */
  lemma HeadersHaveLines(bytes: seq<byte>, rest: seq<byte>)
    requires IsAscii(PREFIX) && Ascii(PREFIX) <= bytes && rest == bytes[|Ascii(PREFIX)|..]
    ensures forall kind, version: nat :: Header(kind, version) <= bytes ==>
              Position(rest, NEWLINE) == Some(|Line(kind, version)|) && rest[..|Line(kind, version)|] == Line(kind, version)
  {
    hide Header, Line, Position, Ascii;
    forall kind, version: nat | Header(kind, version) <= bytes
      ensures Position(rest, NEWLINE) == Some(|Line(kind, version)|) && rest[..|Line(kind, version)|] == Line(kind, version)
    {
      HeaderIsLine(kind, version);
      LineSplits(kind, version);
      var line, h := Line(kind, version), Header(kind, version);
      assert bytes == h + bytes[|h|..];
      assert rest == line + [NEWLINE] + bytes[|h|..];
      PositionOf(line, NEWLINE, bytes[|h|..]);
    }
  }

  /** The first line decides which header, if any, stands at the front. */
  lemma LinesAreHeaders(bytes: seq<byte>, rest: seq<byte>, newline: nat)
    requires IsAscii(PREFIX) && Ascii(PREFIX) <= bytes && rest == bytes[|Ascii(PREFIX)|..] && Position(rest, NEWLINE) == Some(newline)
    ensures forall kind, version: nat :: Header(kind, version) <= bytes <==> rest[..newline] == Line(kind, version)
    ensures forall kind, version: nat :: rest[..newline] == Line(kind, version) ==> |Header(kind, version)| == |Ascii(PREFIX)| + newline + 1
  {
    hide Header, Line, Ascii, Position;
    HeadersHaveLines(bytes, rest);
    forall kind, version: nat
      ensures Header(kind, version) <= bytes <==> rest[..newline] == Line(kind, version)
      ensures rest[..newline] == Line(kind, version) ==> |Header(kind, version)| == |Ascii(PREFIX)| + newline + 1
    {
      HeaderIsLine(kind, version);
      if rest[..newline] == Line(kind, version) {
        assert bytes[..|Ascii(PREFIX)| + newline + 1] == Header(kind, version);
      }
    }
  }

  lemma LinesSplit(line: seq<byte>, slash: Option<nat>)
    requires slash == Position(line, SLASH)
    ensures forall kind, version: nat :: line == Line(kind, version) ==>
              slash == Some(|Tag(kind)|) && |Tag(kind)| < |line| && IsAscii(Tag(kind))
              && line[..|Tag(kind)|] == Ascii(Tag(kind)) && line[|Tag(kind)| + 1..] == Digits(version)
  {
    hide Line, Position, Tag, Digits, Ascii;
    forall kind, version: nat | line == Line(kind, version)
      ensures slash == Some(|Tag(kind)|) && |Tag(kind)| < |line| && IsAscii(Tag(kind))
              && line[..|Tag(kind)|] == Ascii(Tag(kind)) && line[|Tag(kind)| + 1..] == Digits(version)
    {
      LineSplits(kind, version);
    }
  }

  lemma KindsExact(tag: seq<byte>)
    ensures forall kind :: IsAscii(Tag(kind)) && (KindOf(tag) == Some(kind) <==> tag == Ascii(Tag(kind)))
  {
    hide KindOf, Tag, Ascii;
    forall kind ensures IsAscii(Tag(kind)) && (KindOf(tag) == Some(kind) <==> tag == Ascii(Tag(kind))) {
      KindExact(tag, kind);
    }
  }

  lemma DecimalsAre(s: seq<byte>)
    ensures forall version: nat :: s == Digits(version) ==> IsDecimal(s) && FromDecimal(s) == version
    ensures IsDecimal(s) ==> Digits(FromDecimal(s)) == s
  {
    hide Digits, FromDecimal;
    forall version: nat | s == Digits(version) ensures IsDecimal(s) && FromDecimal(s) == version {
      DigitsDecimal(version);
    }
    if IsDecimal(s) {
      DecimalDigits(s);
    }
  }

  lemma LineOf(line: seq<byte>, slash: nat, kind: ObjectKind, version: nat)
    requires slash < |line| && line[slash] == SLASH && IsAscii(Tag(kind)) && line[..slash] == Ascii(Tag(kind)) && line[slash + 1..] == Digits(version)
    ensures line == Line(kind, version)
  {
    hide Tag, Digits, Ascii;
    assert line == line[..slash] + [line[slash]] + line[slash + 1..];
  }

  // ---- Maps as fields ----

  function OptEntry(key: u64, v: Option<Value>): seq<Entry> {
    if v.None? then [] else [Entry(key, v.value)]
  }

  /** The entries of a map whose keys are 1, 2, …: absent fields are left out. */
  function Entries(fields: seq<Option<Value>>): (r: seq<Entry>)
    requires |fields| < TWO_64
  {
    if fields == [] then []
    else Entries(fields[..|fields| - 1]) + OptEntry(|fields|, fields[|fields| - 1])
  }

  function FieldMap(fields: seq<Option<Value>>): Value
    requires |fields| < TWO_64
  {
    Map(Entries(fields))
  }

  lemma {:induction false} EntriesKeys(fields: seq<Option<Value>>)
    requires |fields| < TWO_64
    ensures KeysAscendStrictly(Entries(fields)) && |Entries(fields)| <= |fields|
    ensures forall i :: 0 <= i < |Entries(fields)| ==> 1 <= Entries(fields)[i].key <= |fields|
  {
    if fields != [] {
      EntriesKeys(fields[..|fields| - 1]);
    }
  }

  lemma {:induction false} EntriesValues(fields: seq<Option<Value>>, i: nat)
    requires |fields| < TWO_64 && i < |Entries(fields)|
    ensures exists k :: 0 <= k < |fields| && fields[k] == Some(Entries(fields)[i].val)
  {
    var n := |fields| - 1;
    if i < |Entries(fields[..n])| {
      EntriesValues(fields[..n], i);
      var k :| 0 <= k < n && fields[..n][k] == Some(Entries(fields[..n])[i].val);
      assert fields[k] == Some(Entries(fields)[i].val);
    } else {
      assert fields[n] == Some(Entries(fields)[i].val);
    }
  }

  /** Entries behind smaller keys split off in one way only. */
  lemma LastEntry(x: seq<Entry>, y: seq<Entry>, key: u64, p: Option<Value>, q: Option<Value>)
    requires x + OptEntry(key, p) == y + OptEntry(key, q)
    requires (forall i :: 0 <= i < |x| ==> x[i].key < key) && forall i :: 0 <= i < |y| ==> y[i].key < key
    ensures x == y && p == q
  {
    var s := x + OptEntry(key, p);
    assert p.Some? ==> |s| > 0 && s[|s| - 1] == Entry(key, p.value);
    assert q.Some? ==> |s| > 0 && s[|s| - 1] == Entry(key, q.value);
    assert p.None? ==> s == x;
    assert q.None? ==> s == y;
    assert p.Some? == q.Some?;
    assert x == s[..|x|] && y == s[..|y|];
  }

  lemma EntriesEnd(fields: seq<Option<Value>>)
    requires 0 < |fields| < TWO_64
    ensures var n := |fields| - 1;
            && Entries(fields) == Entries(fields[..n]) + OptEntry(n + 1, fields[n])
            && forall i :: 0 <= i < |Entries(fields[..n])| ==> Entries(fields[..n])[i].key < n + 1
  {
    EntriesKeys(fields[..|fields| - 1]);
    hide OptEntry;
  }

  /** The fields determine the map and the map the fields. */
  lemma {:induction false} EntriesInjective(a: seq<Option<Value>>, b: seq<Option<Value>>)
    requires |a| == |b| < TWO_64 && Entries(a) == Entries(b)
    ensures a == b
  {
    if a != [] {
      var n := |a| - 1;
      EntriesEnd(a);
      EntriesEnd(b);
      hide Entries, OptEntry;
      LastEntry(Entries(a[..n]), Entries(b[..n]), n + 1, a[n], b[n]);
      EntriesInjective(a[..n], b[..n]);
      assert a == a[..n] + [a[n]] && b == b[..n] + [b[n]];
    }
  }

  /** Fields that are canonical, fit and are shallow make a map that is and does. */
  ghost predicate FieldsOk(fields: seq<Option<Value>>, height: nat) {
    |fields| < TWO_64 && forall k :: 0 <= k < |fields| && fields[k].Some? ==>
      Canonical(fields[k].value) && Fits(fields[k].value) && HeightAtMost(fields[k].value, height)
  }

  lemma FieldMapOk(fields: seq<Option<Value>>, height: nat)
    requires FieldsOk(fields, height)
    ensures Canonical(FieldMap(fields)) && Fits(FieldMap(fields)) && HeightAtMost(FieldMap(fields), height + 1)
  {
    EntriesKeys(fields);
    var es := Entries(fields);
    forall e | e in es ensures Canonical(e.val) && Fits(e.val) && HeightAtMost(e.val, height) {
      var i :| 0 <= i < |es| && es[i] == e;
      EntriesValues(fields, i);
    }
  }

  lemma {:induction false} NoFields(n: nat)
    requires n < TWO_64
    ensures Entries(seq(n, _ => None)) == []
  {
    if n > 0 {
      NoFields(n - 1);
      assert seq<Option<Value>>(n, _ => None)[..n - 1] == seq<Option<Value>>(n - 1, _ => None);
    }
  }

  /** Assigning a field behind all assigned ones appends its entry. */
  lemma {:induction false} SetField(fields: seq<Option<Value>>, k: nat, v: Value)
    requires |fields| < TWO_64 && k < |fields| && forall i :: k <= i < |fields| ==> fields[i].None?
    ensures Entries(fields[k := Some(v)]) == Entries(fields) + [Entry(k + 1, v)]
  {
    var n := |fields| - 1;
    var after := fields[k := Some(v)];
    if k < n {
      SetField(fields[..n], k, v);
      assert after[..n] == fields[..n][k := Some(v)];
    } else {
      assert after[..n] == fields[..n];
    }
  }

  /** Read a map's entries into the fields their keys name; unknown keys are refused. */
  method Scan(entries: seq<Entry>, n: nat) returns (r: Option<seq<Option<Value>>>)
    requires KeysAscendStrictly(entries) && n < TWO_64
    ensures r.Some? ==> |r.value| == n && Entries(r.value) == entries
    ensures r.None? ==> forall fields: seq<Option<Value>> :: |fields| == n ==> Entries(fields) != entries
  {
    hide Entries;
    var fields: seq<Option<Value>> := seq(n, _ => None);
    NoFields(n);
    for i := 0 to |entries|
      invariant |fields| == n && Entries(fields) == entries[..i]
      invariant forall k :: 0 <= k < n && fields[k].Some? ==> i > 0 && k + 1 <= entries[i - 1].key
    {
      var e := entries[i];
      if e.key == 0 || e.key > n {
        Unknown(entries, n, i);
        return None;
      }
      SetField(fields, e.key - 1, e.val);
      fields := fields[e.key - 1 := Some(e.val)];
      assert entries[..i + 1] == entries[..i] + [e];
    }
    assert entries[..|entries|] == entries;
    return Some(fields);
  }

  lemma Unknown(entries: seq<Entry>, n: nat, i: nat)
    requires i < |entries| && n < TWO_64 && (entries[i].key == 0 || entries[i].key > n)
    ensures forall fields: seq<Option<Value>> :: |fields| == n ==> Entries(fields) != entries
  {
    forall fields: seq<Option<Value>> | |fields| == n ensures Entries(fields) != entries {
      EntriesKeys(fields);
    }
  }

  lemma Heights(v: Value, k: nat)
    requires HeightAtMost(v, k)
    ensures HeightAtMost(v, k + 1)
    decreases v
  {
    match v {
      case Array(items) =>
        forall i | 0 <= i < |items| ensures HeightAtMost(items[i], k) {
          assert items[i] in items;
          Heights(items[i], k - 1);
        }
      case Map(entries) =>
        forall i | 0 <= i < |entries| ensures HeightAtMost(entries[i].val, k) {
          assert entries[i] in entries;
          Heights(entries[i].val, k - 1);
        }
      case _ =>
    }
  }

  lemma {:induction false} HeightsTo(v: Value, k: nat, n: nat)
    requires HeightAtMost(v, k) && k <= n
    ensures HeightAtMost(v, n)
    decreases n
  {
    if k < n {
      HeightsTo(v, k, n - 1);
      Heights(v, n - 1);
    }
  }

  // ---- Reading values back ----

  function AsText(v: Option<Value>): Option<Utf8> {
    if v.Some? && v.value.Text? then Some(v.value.text) else None
  }

  function AsHash(v: Option<Value>): Option<Hash32> {
    if v.Some? && v.value.Bytes? && |v.value.bytes| == 32 then Some(v.value.bytes) else None
  }

  function AsUint(v: Option<Value>): Option<u64> {
    if v.Some? && v.value.Uint? then Some(v.value.n) else None
  }

  /** A value is the map of some fields exactly when scanning gives those fields. */
  lemma ScannedIs(v: Value, fields: seq<Option<Value>>, other: seq<Option<Value>>)
    requires |fields| == |other| < TWO_64 && v == FieldMap(fields)
    ensures v == FieldMap(other) <==> fields == other
  {
    if v == FieldMap(other) {
      EntriesInjective(fields, other);
    }
  }

  /** The fields of a map with keys up to `n`, if it is one. */
  method FieldsOf(v: Value, n: nat) returns (r: Option<seq<Option<Value>>>)
    requires Canonical(v) && n < TWO_64
    ensures r.Some? ==> |r.value| == n && v == FieldMap(r.value)
    ensures forall fields: seq<Option<Value>> :: |fields| == n ==> (v == FieldMap(fields) <==> r == Some(fields))
  {
    if !v.Map? {
      return None;
    }
    r := Scan(v.entries, n);
    forall fields: seq<Option<Value>> | |fields| == n ensures v == FieldMap(fields) <==> r == Some(fields) {
      if r.Some? {
        ScannedIs(v, r.value, fields);
      }
    }
  }

  /** Fields of a canonical map are canonical. */
  lemma ScannedCanonical(v: Value, fields: seq<Option<Value>>)
    requires Canonical(v) && |fields| < TWO_64 && v == FieldMap(fields)
    ensures forall k :: 0 <= k < |fields| && fields[k].Some? ==> Canonical(fields[k].value)
  {
    forall k | 0 <= k < |fields| && fields[k].Some? ensures Canonical(fields[k].value) {
      FieldListed(fields, k);
    }
  }

  lemma {:induction false} FieldListed(fields: seq<Option<Value>>, k: nat)
    requires |fields| < TWO_64 && k < |fields| && fields[k].Some?
    ensures Entry(k + 1, fields[k].value) in Entries(fields)
  {
    if k < |fields| - 1 {
      FieldListed(fields[..|fields| - 1], k);
    }
  }

  lemma FieldFits(fields: seq<Option<Value>>)
    requires |fields| < TWO_64 && Fits(FieldMap(fields))
    ensures forall k :: 0 <= k < |fields| && fields[k].Some? ==> Fits(fields[k].value)
  {
    forall k | 0 <= k < |fields| && fields[k].Some? ensures Fits(fields[k].value) {
      FieldListed(fields, k);
    }
  }

  // ---- Lists of records ----

  /** Reading fields back is exactly inverse to writing them. */
  ghost predicate Inverse<T(!new)>(fields: T -> seq<Option<Value>>, read: seq<Option<Value>> -> Option<T>, f: seq<Option<Value>>, x: T) {
    read(f) == Some(x) <==> f == fields(x)
  }

  ghost predicate ReadsBack<T(!new)>(fields: T -> seq<Option<Value>>, read: seq<Option<Value>> -> Option<T>, n: nat) {
    n < TWO_64 && (forall x :: |fields(x)| == n) && forall f: seq<Option<Value>>, x :: |f| == n ==> Inverse(fields, read, f, x)
  }

  function Records<T(!new)>(xs: seq<T>, fields: T -> seq<Option<Value>>): (r: seq<Value>)
    requires forall x :: |fields(x)| < TWO_64
    ensures |r| == |xs|
  {
    seq(|xs|, i requires 0 <= i < |xs| => FieldMap(fields(xs[i])))
  }

  /** An array of records, read back record by record. */
  method RecordsFrom<T(!new)>(v: Option<Value>, ghost fields: T -> seq<Option<Value>>, read: seq<Option<Value>> -> Option<T>, n: nat)
    returns (r: Option<seq<T>>)
    requires ReadsBack(fields, read, n) && (v.Some? ==> Canonical(v.value))
    ensures forall xs :: r == Some(xs) <==> v == Some(Array(Records(xs, fields)))
  {
    hide FieldMap;
    if v.None? || !v.value.Array? {
      return None;
    }
    var items := v.value.items;
    var out: seq<T> := [];
    for i := 0 to |items|
      invariant |out| == i && forall k :: 0 <= k < i ==> items[k] == FieldMap(fields(out[k]))
      invariant forall xs: seq<T> :: v == Some(Array(Records(xs, fields))) ==> out == xs[..i]
    {
      assert items[i] in items;
      var scanned := FieldsOf(items[i], n);
      var one: Option<T> := if scanned.None? then None else read(scanned.value);
      forall xs: seq<T> | v == Some(Array(Records(xs, fields))) ensures one.Some? && out + [one.value] == xs[..i + 1] {
        assert items[i] == Records(xs, fields)[i] == FieldMap(fields(xs[i]));
        assert Inverse(fields, read, fields(xs[i]), xs[i]);
        assert xs[..i + 1] == xs[..i] + [xs[i]];
      }
      if one.None? {
        return None;
      }
      assert Inverse(fields, read, scanned.value, one.value);
      out := out + [one.value];
    }
    assert items == Records(out, fields);
    r := Some(out);
    forall xs: seq<T> ensures r == Some(xs) <==> v == Some(Array(Records(xs, fields))) {
      if v == Some(Array(Records(xs, fields))) {
        assert |xs| == |items| && xs[..|items|] == xs;
      }
    }
  }

  /** Records tell their lists apart. */
  lemma RecordsInjective<T(!new)>(xs: seq<T>, ys: seq<T>, fields: T -> seq<Option<Value>>, read: seq<Option<Value>> -> Option<T>, n: nat)
    requires ReadsBack(fields, read, n) && Records(xs, fields) == Records(ys, fields)
    ensures xs == ys
  {
    assert |xs| == |Records(xs, fields)| == |ys|;
    forall i | 0 <= i < |xs| ensures xs[i] == ys[i] {
      assert Records(xs, fields)[i] == Records(ys, fields)[i];
      EntriesInjective(fields(xs[i]), fields(ys[i]));
      assert Inverse(fields, read, fields(xs[i]), xs[i]) && Inverse(fields, read, fields(xs[i]), ys[i]);
    }
  }

  /** A list of records whose fields are fine is fine. */
  lemma RecordsOk<T(!new)>(xs: seq<T>, fields: T -> seq<Option<Value>>)
    requires |xs| < TWO_64 && (forall x :: |fields(x)| < TWO_64) && forall i :: 0 <= i < |xs| ==> FieldsOk(fields(xs[i]), 0)
    ensures Canonical(Array(Records(xs, fields))) && Fits(Array(Records(xs, fields))) && HeightAtMost(Array(Records(xs, fields)), 2)
  {
    hide FieldMap, FieldsOk;
    forall i | 0 <= i < |xs|
      ensures Canonical(Records(xs, fields)[i]) && Fits(Records(xs, fields)[i]) && HeightAtMost(Records(xs, fields)[i], 1)
    {
      FieldMapOk(fields(xs[i]), 0);
    }
  }

  /** Fields of records that fit fit. */
  lemma RecordFits<T(!new)>(xs: seq<T>, fields: T -> seq<Option<Value>>)
    requires (forall x :: |fields(x)| < TWO_64) && Fits(Array(Records(xs, fields)))
    ensures |xs| < TWO_64
    ensures forall i, k :: 0 <= i < |xs| && 0 <= k < |fields(xs[i])| && fields(xs[i])[k].Some? ==> Fits(fields(xs[i])[k].value)
  {
    forall i | 0 <= i < |xs| ensures forall k :: 0 <= k < |fields(xs[i])| && fields(xs[i])[k].Some? ==> Fits(fields(xs[i])[k].value) {
      assert Records(xs, fields)[i] in Records(xs, fields);
      FieldFits(fields(xs[i]));
    }
  }
}
