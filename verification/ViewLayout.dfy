/**
 The layout of a view (views.rs): picked claims become rows at distinct canonical
 paths, and crowded directories are spread over alphabetical buckets.
 */
module ViewLayout {
  import opened Wrappers
  import opened Bytes
  import opened Objects
  import opened SnapshotObject
  import opened ViewPaths
  import opened ViewProfiles
  import opened ViewManifest

  /** A claim with a verified blob behind it. */
  datatype Pick = Pick(entryId: int, entry: Utf8, claim: Utf8, hash: Hash32, size: u64)

  /** The parts of a view definition the layout reads. */
  datatype Definition = Definition(template: Utf8, selected: Option<set<int>>, profile: Option<Profile>, codes: RegionCodes)

  /** A definition whose profile, if any, is of the FAT charset and leaves room for names: every built-in one does. */
  ghost predicate Sound(def: Definition) {
    AreCodes(def.codes) && (def.profile.Some? ==> def.profile.value.charset.FatSafe? && def.profile.value.maxNameLen >= LEAST_NAME_LEN)
  }

  // ---- Collision tags ----

  function HexDigit(n: nat): (r: byte)
    requires n < 16
    ensures 0x30 <= r <= 0x39 || 0x61 <= r <= 0x66
  {
    if n < 10 then 0x30 + n else 0x57 + n
  }

  function Hex(s: seq<byte>): (r: Text)
    ensures |r| == 2 * |s| && forall b :: b in r ==> 0x30 <= b <= 0x39 || 0x61 <= b <= 0x66
  {
    if s == [] then [] else [HexDigit(s[0] / 16), HexDigit(s[0] % 16)] + Hex(s[1..])
  }

  lemma {:induction false} HexInjective(a: seq<byte>, b: seq<byte>)
    requires Hex(a) == Hex(b)
    ensures a == b
  {
    assert |a| == |b|;
    if a != [] {
      var (x, y) := (Hex(a), Hex(b));
      assert x[0] == y[0] && x[1] == y[1] && x[2..] == Hex(a[1..]) && y[2..] == Hex(b[1..]);
      HexInjective(a[1..], b[1..]);
      assert a == [a[0]] + a[1..] && b == [b[0]] + b[1..];
    }
  }

  /** ` (xxxxxxxx)`: the first eight hex digits of a hash. */
  function TagOf(hash: Hash32): (r: Text)
    ensures |r| == SUFFIX_RESERVE
  {
    [SPACE, OPEN] + Hex(hash[..4]) + [CLOSE]
  }

  /** Where the tag goes: before the last dot of the path, or at its end when nothing precedes that dot. */
  function TagPoint(path: Text): (r: nat)
    ensures 0 < r <= |path| || path == []
  {
    var cut := RSplitOnce(path, DOT);
    if cut.Some? && cut.value.0 != [] then |cut.value.0| else |path|
  }

  function Insert(path: Text, at: nat, tag: Text): Text
    requires at <= |path|
  {
    path[..at] + tag + path[at..]
  }

  function Tagged(path: Text, tag: Text): Text {
    Insert(path, TagPoint(path), tag)
  }

  lemma {:induction false} LastDot(a: Text, b: Text)
    requires DOT !in b
    ensures RSplitOnce(a + [DOT] + b, DOT) == Some((a, b))
  {
    var s := a + [DOT] + b;
    if b == [] {
      assert s[..|s| - 1] == a;
    } else {
      assert s[..|s| - 1] == a + [DOT] + b[..|b| - 1] && s[|s| - 1] == b[|b| - 1];
      LastDot(a, b[..|b| - 1]);
      assert b == b[..|b| - 1] + [b[|b| - 1]];
    }
  }

  /** The tag point is found again behind the tag. */
  lemma TaggedPoint(path: Text, tag: Text)
    requires path != [] && DOT !in tag
    ensures TagPoint(Tagged(path, tag)) == TagPoint(path) + |tag|
  {
    var cut := RSplitOnce(path, DOT);
    if cut.Some? {
      var (stem, ext) := cut.value;
      if stem != [] {
        assert Tagged(path, tag) == stem + tag + [DOT] + ext;
        LastDot(stem + tag, ext);
      } else {
        assert path + tag == [] + [DOT] + (ext + tag);
        assert Tagged(path, tag) == path + tag;
        LastDot([], ext + tag);
      }
    } else {
      assert Tagged(path, tag) == path + tag;
      assert DOT !in path + tag;
    }
  }

  /** Different paths or different tags never meet. */
  lemma TaggedInjective(p: Text, s: Text, q: Text, t: Text)
    requires p != [] && q != [] && |s| == |t| && DOT !in s && DOT !in t && Tagged(p, s) == Tagged(q, t)
    ensures p == q && s == t
  {
    TaggedPoint(p, s);
    TaggedPoint(q, t);
    var (x, n, k) := (Tagged(p, s), TagPoint(p), |s|);
    assert x[..n] == p[..n] && x[n..n + k] == s && x[n + k..] == p[n..];
    assert x[..n] == q[..n] && x[n..n + k] == t && x[n + k..] == q[n..];
    assert p == p[..n] + p[n..] && q == q[..n] + q[n..];
  }

  lemma TagPlain(hash: Hash32)
    ensures DOT !in TagOf(hash) && SEPARATOR !in TagOf(hash) && 0 !in TagOf(hash) && ValidUtf8(TagOf(hash))
  {
    var tag := TagOf(hash);
    forall b | b in tag ensures b != DOT && b != SEPARATOR && b != 0 && b < 0x80 {
      assert b == SPACE || b == OPEN || b == CLOSE || b in Hex(hash[..4]);
    }
    forall i | 0 <= i < |tag| ensures tag[i] < 0x80 {
      assert tag[i] in tag;
    }
    AsciiIsUtf8(tag);
  }

  lemma TagsDistinguish(a: Hash32, b: Hash32)
    ensures TagOf(a) == TagOf(b) <==> a[..4] == b[..4]
  {
    if TagOf(a) == TagOf(b) {
      assert TagOf(a)[2..10] == Hex(a[..4]) && TagOf(b)[2..10] == Hex(b[..4]);
      HexInjective(a[..4], b[..4]);
    }
  }

  // ---- Text put into a component ----

  /** No component is longer than `n` bytes. */
  ghost predicate Within(path: Text, n: nat) {
    forall c :: c in Split(path, SEPARATOR) ==> |c| <= n
  }

  /** Splitting around text that holds no separator: only the component it lands in changes. */
  lemma {:induction false} SplitMiddle(a: Text, m: Text, b: Text)
    requires SEPARATOR !in m
    ensures var (x, y) := (Split(a, SEPARATOR), Split(b, SEPARATOR));
      Split(a + m + b, SEPARATOR) == x[..|x| - 1] + [x[|x| - 1] + m + y[0]] + y[1..]
  {
    var (x, y, s) := (Split(a, SEPARATOR), Split(b, SEPARATOR), a + m + b);
    if a == [] {
      assert s == m + b;
      SplitFront(m, b);
      assert x == [[]] && x[..0] == [] && x[0] + m + y[0] == m + y[0];
    } else {
      assert s[0] == a[0] && s[1..] == a[1..] + m + b;
      SplitMiddle(a[1..], m, b);
      SplitStep(s, SEPARATOR);
      SplitStep(a, SEPARATOR);
      AttachMiddle(a[0], Split(a[1..], SEPARATOR), m, y);
    }
  }

  lemma AttachMiddle(head: byte, z: seq<Text>, m: Text, y: seq<Text>)
    requires z != [] && y != []
    ensures var x := Attach(head, SEPARATOR, z);
      Attach(head, SEPARATOR, z[..|z| - 1] + [z[|z| - 1] + m + y[0]] + y[1..]) == x[..|x| - 1] + [x[|x| - 1] + m + y[0]] + y[1..]
  {
    var x := Attach(head, SEPARATOR, z);
    if head == SEPARATOR {
      assert x[..|x| - 1] == [[]] + z[..|z| - 1];
    } else if |z| == 1 {
      assert [head] + (z[0] + m + y[0]) == [head] + z[0] + m + y[0];
    } else {
      assert x[..|x| - 1] == [[head] + z[0]] + z[1..|z| - 1];
    }
  }

  lemma {:induction false} SplitFront(m: Text, b: Text)
    requires SEPARATOR !in m
    ensures Split(m + b, SEPARATOR) == [m + Split(b, SEPARATOR)[0]] + Split(b, SEPARATOR)[1..]
  {
    var y := Split(b, SEPARATOR);
    if m == [] {
      assert m + b == b && m + y[0] == y[0];
    } else {
      assert (m + b)[0] == m[0] && (m + b)[1..] == m[1..] + b && m[0] in m;
      assert forall c :: c in m[1..] ==> c in m;
      SplitFront(m[1..], b);
      SplitStep(m + b, SEPARATOR);
      assert [m[0]] + (m[1..] + y[0]) == m + y[0];
    }
  }

  /** The component that takes the tag, and the others. */
  lemma TaggedComponents(path: Text, at: nat, tag: Text) returns (left: seq<Text>, l: Text, r: Text, right: seq<Text>)
    requires at <= |path| && SEPARATOR !in tag
    ensures Split(path, SEPARATOR) == left + [l + r] + right && Split(Insert(path, at, tag), SEPARATOR) == left + [l + tag + r] + right
  {
    hide Split;
    var (a, b) := (path[..at], path[at..]);
    var (x, y) := (Split(a, SEPARATOR), Split(b, SEPARATOR));
    SplitMiddle(a, tag, b);
    SplitMiddle(a, [], b);
    assert a + [] + b == path;
    left, l, r, right := x[..|x| - 1], x[|x| - 1], y[0], y[1..];
    assert l + [] + r == l + r;
  }

  /** A tagged canonical path is canonical, and its components grow by no more than the room kept for the tag. */
  lemma TaggedIsCanonical(path: Text, hash: Hash32, n: nat)
    requires IsCanonical(path) && ValidUtf8(path)
    ensures IsCanonical(Tagged(path, TagOf(hash))) && ValidUtf8(Tagged(path, TagOf(hash)))
    ensures Within(path, n) ==> Within(Tagged(path, TagOf(hash)), n + SUFFIX_RESERVE)
  {
    var tag, at := TagOf(hash), TagPoint(path);
    TagPlain(hash);
    hide TagOf, Hex, TagPoint, ValidUtf8;
    var left, l, r, right := TaggedComponents(path, at, tag);
    CanonicalParts(path);
    CanonicalParts(Tagged(path, tag));
    TaggedGood(l, r, tag);
    assert l + r in Split(path, SEPARATOR);
    TagPointUtf8(path, tag);
  }

  lemma TaggedGood(l: Text, r: Text, tag: Text)
    requires GoodComponent(l + r) && |tag| > 2 && SEPARATOR !in tag && 0 !in tag
    ensures GoodComponent(l + tag + r)
  {
    assert forall b :: b in l + tag + r ==> b in l + r || b in tag;
  }

  lemma TagPointUtf8(path: Text, tag: Text)
    requires path != [] && ValidUtf8(path) && ValidUtf8(tag)
    ensures ValidUtf8(Tagged(path, tag))
  {
    hide ValidUtf8;
    var at := TagPoint(path);
    var cut := RSplitOnce(path, DOT);
    if cut.Some? && cut.value.0 != [] {
      assert path[at] == DOT;
    }
    BoundaryUtf8(path, at);
    ConcatUtf8(path[..at], tag);
    ConcatUtf8(path[..at] + tag, path[at..]);
  }

  // ---- The wanted path ----

  /** `{entry}`, `{name}` and `{alpha_bucket}`. */
  const ENTRY: Text := [0x7B, 0x65, 0x6E, 0x74, 0x72, 0x79, 0x7D]
  const NAME: Text := [0x7B, 0x6E, 0x61, 0x6D, 0x65, 0x7D]
  const ALPHA_BUCKET: Text := [0x7B, 0x61, 0x6C, 0x70, 0x68, 0x61, 0x5F, 0x62, 0x75, 0x63, 0x6B, 0x65, 0x74, 0x7D]

  const HASH_SIGN: byte := 0x23

  /** The part behind the last slash. */
  function Leaf(path: Text): (r: Text)
    ensures SEPARATOR !in r
  {
    var cut := RSplitOnce(path, SEPARATOR);
    if cut.Some? then cut.value.1 else path
  }

  /** `alpha_bucket`: a capital letter from the leaf's first character, `#` for everything else. */
  function AlphaBucket(name: Text): (r: Text)
    ensures |r| == 1 && (r[0] == HASH_SIGN || 0x41 <= r[0] <= 0x5A)
  {
    var leaf := Leaf(name);
    if leaf == [] then [HASH_SIGN]
    else if 0x41 <= leaf[0] <= 0x5A then [leaf[0]]
    else if 0x61 <= leaf[0] <= 0x7A then [leaf[0] - 0x20]
    else [HASH_SIGN]
  }

  function Expanded(pick: Pick, template: Text): Text {
    Replace(Replace(Replace(template, ENTRY, SanitizeComponent(pick.entry)), NAME, SanitizeName(pick.claim)), ALPHA_BUCKET, AlphaBucket(pick.claim))
  }

  function ConstrainedParts(parts: seq<Text>, profile: Profile, codes: RegionCodes): (r: seq<Text>)
    ensures |r| == |parts| && forall i :: 0 <= i < |r| ==> r[i] == ConstrainedText(parts[i], profile, codes)
  {
    seq(|parts|, i requires 0 <= i < |parts| => ConstrainedText(parts[i], profile, codes))
  }

  function ConstrainedPathText(path: Text, profile: Profile, codes: RegionCodes): Text {
    Join(ConstrainedParts(Split(path, SEPARATOR), profile, codes), SEPARATOR)
  }

  /** Some component of the path stops the source in a slice error. */
  ghost predicate PathHalts(path: Text, profile: Profile, codes: RegionCodes) {
    exists c :: c in Split(path, SEPARATOR) && Constrained(c, profile, codes).None?
  }

  ghost function ConstrainedPath(path: Text, profile: Profile, codes: RegionCodes): Option<Text> {
    if PathHalts(path, profile, codes) then None else Some(ConstrainedPathText(path, profile, codes))
  }

  function Legal(path: Text): Text {
    if IsCanonical(path) then path else SanitizeName(path)
  }

  function WantedText(pick: Pick, def: Definition): Text {
    var path := Legal(Expanded(pick, def.template));
    if def.profile.Some? then ConstrainedPathText(path, def.profile.value, def.codes) else path
  }

  /** The path a claim wants, unless constraining it stops the source. */
  ghost function Wanted(pick: Pick, def: Definition): Option<Text> {
    if Halts(pick, def) then None else Some(WantedText(pick, def))
  }

  ghost predicate Halts(pick: Pick, def: Definition) {
    def.profile.Some? && PathHalts(Legal(Expanded(pick, def.template)), def.profile.value, def.codes)
  }

  lemma PlaceholdersPlain()
    ensures IsPlaceholder(ENTRY) && IsPlaceholder(NAME) && IsPlaceholder(ALPHA_BUCKET)
  {
  }

  lemma BucketPlain(leaf: Text)
    ensures GoodComponent(AlphaBucket(leaf)) && ValidUtf8(AlphaBucket(leaf)) && |AlphaBucket(leaf)| == 1
  {
    var b := AlphaBucket(leaf);
    AsciiUtf8(b[0]);
    assert b == [b[0]];
  }

  lemma ExpandedUtf8(pick: Pick, template: Utf8)
    ensures ValidUtf8(Expanded(pick, template))
  {
    SanitizedIsCanonical(pick.claim);
    BucketPlain(pick.claim);
    PlaceholdersPlain();
    ExpansionUtf8(template, SanitizeComponent(pick.entry), SanitizeName(pick.claim), AlphaBucket(pick.claim), ENTRY, NAME, ALPHA_BUCKET);
  }

  lemma ExpansionUtf8(template: Text, entry: Text, name: Text, bucket: Text, x: Text, y: Text, z: Text)
    requires ValidUtf8(template) && ValidUtf8(entry) && ValidUtf8(name) && ValidUtf8(bucket)
    requires IsPlaceholder(x) && IsPlaceholder(y) && IsPlaceholder(z)
    ensures ValidUtf8(Replace(Replace(Replace(template, x, entry), y, name), z, bucket))
  {
    hide Replace, ValidUtf8;
    ReplaceUtf8(template, x, entry);
    ReplaceUtf8(Replace(template, x, entry), y, name);
    ReplaceUtf8(Replace(Replace(template, x, entry), y, name), z, bucket);
  }

  lemma {:induction false} ReplaceAbsent(s: Text, pat: Text, value: Text)
    requires pat != [] && pat[0] !in s
    ensures Replace(s, pat, value) == s
    decreases |s|
  {
    if s != [] {
      assert s[0] in s && forall b :: b in s[1..] ==> b in s;
      ReplaceAbsent(s[1..], pat, value);
      assert s == [s[0]] + s[1..];
    }
  }

  /** The template `{name}` gives a plain claim name back. */
  lemma NameTemplate(pick: Pick)
    requires IsCanonical(pick.claim) && BACKSLASH !in pick.claim && NAME[0] !in pick.claim
    ensures Legal(Expanded(pick, NAME)) == pick.claim
  {
    hide IsCanonical, SanitizeName, SanitizeComponent, AlphaBucket, Replace;
    SanitizedIsCanonical(pick.claim);
    NotEntry();
    ReplaceHere(NAME, ENTRY, SanitizeComponent(pick.entry));
    ReplaceAbsent(NAME[1..], ENTRY, SanitizeComponent(pick.entry));
    assert [NAME[0]] + NAME[1..] == NAME;
    ReplaceHere(NAME, NAME, pick.claim);
    ReplaceAbsent([], NAME, pick.claim);
    assert NAME[|NAME|..] == [] && pick.claim + [] == pick.claim;
    ReplaceAbsent(pick.claim, ALPHA_BUCKET, AlphaBucket(pick.claim));
  }

  lemma NotEntry()
    ensures !(ENTRY <= NAME) && ENTRY[0] == NAME[0] == ALPHA_BUCKET[0] && ENTRY[0] !in NAME[1..]
  {
    assert ENTRY[1] != NAME[1];
  }

  lemma ReplaceHere(s: Text, pat: Text, value: Text)
    requires s != [] && pat != []
    ensures Replace(s, pat, value) == if pat <= s then value + Replace(s[|pat|..], pat, value) else [s[0]] + Replace(s[1..], pat, value)
  {
  }

  lemma LegalIsCanonical(path: Text)
    requires ValidUtf8(path)
    ensures IsCanonical(Legal(path)) && ValidUtf8(Legal(path))
  {
    hide SanitizeName, ValidUtf8;
    SanitizedIsCanonical(path);
  }

  lemma ConstrainedIsCanonical(path: Text, profile: Profile, codes: RegionCodes)
    requires IsCanonical(path) && ValidUtf8(path) && AreCodes(codes) && profile.charset.FatSafe? && profile.maxNameLen >= LEAST_NAME_LEN
    ensures IsCanonical(ConstrainedPathText(path, profile, codes)) && ValidUtf8(ConstrainedPathText(path, profile, codes))
    ensures Within(ConstrainedPathText(path, profile, codes), profile.maxNameLen - SUFFIX_RESERVE)
  {
    CanonicalParts(path);
    SplitUtf8(path, SEPARATOR);
    hide Split, Join, ValidUtf8, ConstrainedText, GoodComponent, AllKept, StripsToDots, AreCodes;
    var parts := Split(path, SEPARATOR);
    var out := ConstrainedParts(parts, profile, codes);
    forall c | c in out ensures GoodComponent(c) && ValidUtf8(c) && |c| <= profile.maxNameLen - SUFFIX_RESERVE {
      var i :| 0 <= i < |out| && out[i] == c;
      assert parts[i] in parts;
      ConstrainedTextIsGood(parts[i], profile, codes);
    }
    JoinCanonical(out);
    JoinUtf8(out, SEPARATOR);
    GoodSplitJoin(out);
  }

  lemma GoodSplitJoin(parts: seq<Text>)
    requires parts != [] && forall c :: c in parts ==> GoodComponent(c)
    ensures Split(Join(parts, SEPARATOR), SEPARATOR) == parts
  {
    SplitJoin(parts, SEPARATOR);
  }

  /** Whatever the template and the names, a claim's wanted path, unless the source stops, is canonical and leaves room for a tag. */
  lemma WantedIsCanonical(pick: Pick, def: Definition, path: Text)
    requires Sound(def) && Wanted(pick, def) == Some(path)
    ensures IsCanonical(path) && ValidUtf8(path)
    ensures def.profile.Some? ==> Within(path, def.profile.value.maxNameLen - SUFFIX_RESERVE)
  {
    hide WantedText, IsCanonical, Halts, ValidUtf8, Within;
    WantedTextIsCanonical(pick, def);
  }

  /**
   The source stops on exactly the claims whose path has a component that is too
   long and in which a character lies across a place where a noise prefix might go on.
   */
  lemma HaltsOnCuts(pick: Pick, def: Definition)
    requires Sound(def)
    ensures Wanted(pick, def).None? <==>
              (def.profile.Some? && exists c :: c in Split(Legal(Expanded(pick, def.template)), SEPARATOR) && CutsInFitting(c, def.profile.value))
  {
    ExpandedUtf8(pick, def.template);
    LegalIsCanonical(Expanded(pick, def.template));
    var path := Legal(Expanded(pick, def.template));
    CanonicalParts(path);
    SplitUtf8(path, SEPARATOR);
    hide Expanded, Legal, ValidUtf8, IsCanonical, AreCodes, Split, Cleaned, CutsCharacter, Constrained, GoodComponent;
    if def.profile.Some? {
      forall c | c in Split(path, SEPARATOR)
        ensures Constrained(c, def.profile.value, def.codes).None? <==> CutsInFitting(c, def.profile.value)
      {
        ConstrainHaltsExactly(c, def.profile.value, def.codes);
      }
    }
  }

  /** A claim named by `1` and many three-byte characters, under the template `{name}`: no view with a built-in profile of its length ends. */
  lemma KanaClaimHalts(pick: Pick, def: Definition, n: nat)
    requires Sound(def) && def.template == NAME && def.profile.Some? && 1 + 3 * n > Budget(def.profile.value) && pick.claim == [0x31] + Kana(n)
    ensures Wanted(pick, def).None?
  {
    hide ValidUtf8, IsCanonical, Expanded, Legal, Constrained, Kana, GoodComponent, AreCodes, Split, WantedText, ConstrainedText;
    DigitThenKana(n, def.profile.value, def.codes);
    KanaCanonical(pick.claim, n);
    NameTemplate(pick);
    assert pick.claim in Split(pick.claim, SEPARATOR);
    assert PathHalts(Legal(Expanded(pick, def.template)), def.profile.value, def.codes);
  }

  lemma GoodHasNoSlash(c: Text)
    requires GoodComponent(c)
    ensures SEPARATOR !in c
  {
  }

  lemma KanaCanonical(claim: Text, n: nat)
    requires claim == [0x31] + Kana(n) && GoodComponent(claim)
    ensures Split(claim, SEPARATOR) == [claim] && IsCanonical(claim) && BACKSLASH !in claim && NAME[0] !in claim
  {
    KanaPlain(n);
    hide ValidUtf8, Kana, IsCanonical, Split, GoodComponent;
    assert SEPARATOR !in claim by {
      GoodHasNoSlash(claim);
    }
    forall b | b in claim ensures b == 0x31 || b >= 0x80 {
    }
    SplitWhole(claim, SEPARATOR);
    CanonicalParts(claim);
  }

  ghost predicate CutsInFitting(c: Text, profile: Profile) {
    |Cleaned(c, profile.charset)| > profile.maxNameLen - SUFFIX_RESERVE && CutsCharacter(Cleaned(c, profile.charset))
  }

  lemma WantedTextIsCanonical(pick: Pick, def: Definition)
    requires Sound(def)
    ensures IsCanonical(WantedText(pick, def)) && ValidUtf8(WantedText(pick, def))
    ensures def.profile.Some? ==> Within(WantedText(pick, def), def.profile.value.maxNameLen - SUFFIX_RESERVE)
  {
    hide Expanded, Legal, ConstrainedPathText, ValidUtf8, IsCanonical, Within, AreCodes;
    ExpandedUtf8(pick, def.template);
    var path := Legal(Expanded(pick, def.template));
    LegalIsCanonical(Expanded(pick, def.template));
    if def.profile.Some? {
      ConstrainedIsCanonical(path, def.profile.value, def.codes);
    }
  }

  lemma ConstrainedNext(parts: seq<Text>, i: nat, profile: Profile, codes: RegionCodes)
    requires i < |parts|
    ensures ConstrainedParts(parts[..i + 1], profile, codes) == ConstrainedParts(parts[..i], profile, codes) + [ConstrainedText(parts[i], profile, codes)]
  {
    hide ConstrainedText;
    assert parts[..i + 1][..i] == parts[..i];
  }

  lemma ConstrainedValue(c: Text, profile: Profile, codes: RegionCodes)
    requires Constrained(c, profile, codes).Some?
    ensures Constrained(c, profile, codes).value == ConstrainedText(c, profile, codes)
  {
    hide ConstrainedText, ConstrainHalts;
  }

  /** `constrain_path`. */
  method ConstrainPath(path: Text, profile: Profile, codes: RegionCodes) returns (r: Option<Text>)
    requires IsCanonical(path) && ValidUtf8(path) && AreCodes(codes)
    ensures r == ConstrainedPath(path, profile, codes)
  {
    hide Split, Join, ValidUtf8, ConstrainedText, ConstrainedParts, GoodComponent, IsCanonical, AreCodes, ConstrainHalts, Constrained;
    CanonicalParts(path);
    SplitUtf8(path, SEPARATOR);
    var parts := Split(path, SEPARATOR);
    var out: seq<Text> := [];
    for i := 0 to |parts|
      invariant out == ConstrainedParts(parts[..i], profile, codes)
      invariant forall k :: 0 <= k < i ==> Constrained(parts[k], profile, codes).Some?
    {
      assert parts[i] in parts;
      ConstrainedNext(parts, i, profile, codes);
      var c := ConstrainComponent(parts[i], profile, codes);
      if c.None? {
        return None;
      }
      ConstrainedValue(parts[i], profile, codes);
      out := out + [c.value];
    }
    assert parts[..|parts|] == parts;
    r := Some(Join(out, SEPARATOR));
  }

  // ---- The layout loop ----

  function Paths(rows: seq<ViewRow>): set<Text> {
    set r | r in rows :: r.path
  }

  ghost predicate IsOversize(pick: Pick, def: Definition) {
    def.profile.Some? && def.profile.value.maxFileSize.Some? && pick.size > def.profile.value.maxFileSize.value
  }

  ghost predicate IsSelected(pick: Pick, def: Definition) {
    def.selected.Some? ==> pick.entryId in def.selected.value
  }

  ghost predicate IsAdmitted(pick: Pick, def: Definition) {
    IsSelected(pick, def) && !IsOversize(pick, def)
  }

  function WantedTagged(pick: Pick, def: Definition): Text {
    Tagged(WantedText(pick, def), TagOf(pick.hash))
  }

  lemma BothCanonical(pick: Pick, def: Definition)
    requires Sound(def)
    ensures IsCanonical(WantedText(pick, def)) && ValidUtf8(WantedText(pick, def))
    ensures IsCanonical(WantedTagged(pick, def)) && ValidUtf8(WantedTagged(pick, def))
    ensures def.profile.Some? ==> Within(WantedText(pick, def), def.profile.value.maxNameLen) && Within(WantedTagged(pick, def), def.profile.value.maxNameLen)
  {
    WantedTextIsCanonical(pick, def);
    hide WantedText, Tagged, TagOf, IsCanonical, ValidUtf8;
    TaggedIsCanonical(WantedText(pick, def), pick.hash, if def.profile.Some? then def.profile.value.maxNameLen - SUFFIX_RESERVE else 0);
  }

  datatype Layout = Layout(rows: seq<ViewRow>, disambiguated: nat, skipped: nat)

  function RowAt(path: Utf8, pick: Pick, seekOf: Hash32 -> byte): ViewRow {
    ViewRow(path, pick.hash, pick.size, seekOf(pick.hash))
  }

  /** One claim: at its wanted path if that is free, else at the tagged path if that is free, else nowhere. */
  ghost function Placed(layout: Layout, pick: Pick, def: Definition, seekOf: Hash32 -> byte): Layout
    requires Sound(def)
  {
    BothCanonical(pick, def);
    if !IsSelected(pick, def) then layout
    else if IsOversize(pick, def) then layout.(skipped := layout.skipped + 1)
    else if WantedText(pick, def) !in Paths(layout.rows) then layout.(rows := layout.rows + [RowAt(WantedText(pick, def), pick, seekOf)])
    else if WantedTagged(pick, def) !in Paths(layout.rows) then
      layout.(rows := layout.rows + [RowAt(WantedTagged(pick, def), pick, seekOf)], disambiguated := layout.disambiguated + 1)
    else layout
  }

  ghost function LayoutOf(picks: seq<Pick>, def: Definition, seekOf: Hash32 -> byte): Layout
    requires Sound(def)
  {
    if picks == [] then Layout([], 0, 0)
    else Placed(LayoutOf(picks[..|picks| - 1], def, seekOf), picks[|picks| - 1], def, seekOf)
  }

  /** What the loop gives: nothing when an admitted claim stops the source. */
  ghost function LaidOut(picks: seq<Pick>, def: Definition, seekOf: Hash32 -> byte): Option<Layout>
    requires Sound(def)
  {
    if AnyHalts(picks, def) then None else Some(LayoutOf(picks, def, seekOf))
  }

  ghost predicate AnyHalts(picks: seq<Pick>, def: Definition) {
    exists p :: p in picks && IsAdmitted(p, def) && Wanted(p, def).None?
  }

  /** The loop of `evaluate_view`. */
  method LayOut(picks: seq<Pick>, def: Definition, seekOf: Hash32 -> byte) returns (r: Option<Layout>)
    requires Sound(def)
    ensures r == LaidOut(picks, def, seekOf)
  {
    hide Sound, WantedText, Tagged, TagOf, Expanded, Legal, IsCanonical, ValidUtf8, Halts;
    var rows, disambiguated: nat, skipped: nat := [], 0, 0;
    var seen: set<Text> := {};
    for i := 0 to |picks|
      invariant seen == Paths(rows) && Layout(rows, disambiguated, skipped) == LayoutOf(picks[..i], def, seekOf)
      invariant forall k :: 0 <= k < i && IsAdmitted(picks[k], def) ==> Wanted(picks[k], def).Some?
    {
      var p := picks[i];
      assert picks[..i + 1][..i] == picks[..i];
      BothCanonical(p, def);
      if def.selected.Some? && p.entryId !in def.selected.value {
        continue;
      }
      if def.profile.Some? && def.profile.value.maxFileSize.Some? && p.size > def.profile.value.maxFileSize.value {
        skipped := skipped + 1;
        continue;
      }
      var wanted := WantedPath(p, def);
      if wanted.None? {
        return None;
      }
      var path := wanted.value;
      if path in seen {
        path := Tagged(path, TagOf(p.hash));
        if path in seen {
          continue;
        }
        disambiguated := disambiguated + 1;
      }
      PathsGrow(rows, RowAt(path, p, seekOf));
      seen := seen + {path};
      rows := rows + [RowAt(path, p, seekOf)];
    }
    assert picks[..|picks|] == picks;
    return Some(Layout(rows, disambiguated, skipped));
  }

  lemma PathsGrow(rows: seq<ViewRow>, row: ViewRow)
    ensures Paths(rows + [row]) == Paths(rows) + {row.path}
  {
    assert row in rows + [row];
  }

  method WantedPath(pick: Pick, def: Definition) returns (r: Option<Text>)
    requires Sound(def)
    ensures r == Wanted(pick, def)
  {
    ExpandedUtf8(pick, def.template);
    hide Expanded, ConstrainedPathText, PathHalts, ValidUtf8, IsCanonical, SanitizeName;
    var path := Expanded(pick, def.template);
    LegalIsCanonical(path);
    if !IsCanonical(path) {
      path := SanitizeName(path);
    }
    if def.profile.None? {
      return Some(path);
    }
    r := ConstrainPath(path, def.profile.value, def.codes);
  }

  /** A row and the claim it came from. */
  ghost predicate ComesFrom(row: ViewRow, pick: Pick, def: Definition) {
    IsAdmitted(pick, def) && row.hash == pick.hash && row.size == pick.size && (row.path == WantedText(pick, def) || row.path == WantedTagged(pick, def))
  }

  ghost predicate FromPicks(rows: seq<ViewRow>, picks: seq<Pick>, def: Definition) {
    forall r :: r in rows ==> exists p :: p in picks && ComesFrom(r, p, def)
  }

  ghost predicate AllWithin(rows: seq<ViewRow>, n: nat) {
    forall r :: r in rows ==> Within(r.path, n)
  }

  ghost predicate RowsSound(rows: seq<ViewRow>, picks: seq<Pick>, def: Definition) {
    DistinctPaths(rows) && AllOk(rows, RowOk) && FromPicks(rows, picks, def)
    && (def.profile.Some? ==> AllWithin(rows, def.profile.value.maxNameLen))
  }

  /**
   The rows of a layout have distinct canonical paths within the profile's cap, each
   shows an admitted claim, and only claims too large for the target count as skipped.
   */
  lemma LayoutIsSound(picks: seq<Pick>, def: Definition, seekOf: Hash32 -> byte, layout: Layout)
    requires Sound(def) && (forall h :: seekOf(h) <= MOST_OPAQUE) && LaidOut(picks, def, seekOf) == Some(layout)
    ensures RowsSound(layout.rows, picks, def)
    ensures layout.disambiguated <= |layout.rows| && |layout.rows| + layout.skipped <= |picks|
  {
    hide RowsSound;
    RowsAreSound(picks, def, seekOf);
  }

  lemma {:induction false} RowsAreSound(picks: seq<Pick>, def: Definition, seekOf: Hash32 -> byte)
    requires Sound(def) && forall h :: seekOf(h) <= MOST_OPAQUE
    ensures RowsSound(LayoutOf(picks, def, seekOf).rows, picks, def)
    ensures LayoutOf(picks, def, seekOf).disambiguated <= |LayoutOf(picks, def, seekOf).rows|
    ensures |LayoutOf(picks, def, seekOf).rows| + LayoutOf(picks, def, seekOf).skipped <= |picks|
  {
    if picks != [] {
      var n := |picks| - 1;
      RowsAreSound(picks[..n], def, seekOf);
      assert picks == picks[..n] + [picks[n]];
      hide Placed, RowsSound;
      PlacedSound(LayoutOf(picks[..n], def, seekOf), picks[..n], picks[n], def, seekOf);
    } else {
      assert RowsSound([], picks, def);
    }
  }

  lemma PlacedSound(layout: Layout, picks: seq<Pick>, pick: Pick, def: Definition, seekOf: Hash32 -> byte)
    requires Sound(def) && (forall h :: seekOf(h) <= MOST_OPAQUE) && RowsSound(layout.rows, picks, def)
    requires layout.disambiguated <= |layout.rows| && |layout.rows| + layout.skipped <= |picks|
    ensures var after := Placed(layout, pick, def, seekOf);
      && RowsSound(after.rows, picks + [pick], def)
      && after.disambiguated <= |after.rows| && |after.rows| + after.skipped <= |picks| + 1
  {
    SoundLater(layout.rows, picks, pick, def);
    if IsAdmitted(pick, def) {
      hide RowsSound;
      AdmittedSound(layout, picks, pick, def, seekOf);
    } else {
      hide RowsSound, WantedText, WantedTagged, Sound;
    }
  }

  lemma AdmittedSound(layout: Layout, picks: seq<Pick>, pick: Pick, def: Definition, seekOf: Hash32 -> byte)
    requires Sound(def) && (forall h :: seekOf(h) <= MOST_OPAQUE) && RowsSound(layout.rows, picks + [pick], def) && IsAdmitted(pick, def)
    ensures RowsSound(Placed(layout, pick, def, seekOf).rows, picks + [pick], def)
  {
    BothCanonical(pick, def);
    PlacedThere(layout, pick, def, seekOf);
    hide WantedText, WantedTagged, Sound, IsCanonical, Within, ValidUtf8, IsAdmitted, RowsSound, Placed;
    if WantedText(pick, def) !in Paths(layout.rows) {
      SoundAdded(layout.rows, RowAt(WantedText(pick, def), pick, seekOf), picks, pick, def);
    } else if WantedTagged(pick, def) !in Paths(layout.rows) {
      SoundAdded(layout.rows, RowAt(WantedTagged(pick, def), pick, seekOf), picks, pick, def);
    }
  }

  lemma SoundLater(rows: seq<ViewRow>, picks: seq<Pick>, pick: Pick, def: Definition)
    requires RowsSound(rows, picks, def)
    ensures RowsSound(rows, picks + [pick], def)
  {
    hide AllOk, AllWithin, DistinctPaths, ComesFrom;
    forall r | r in rows ensures exists p :: p in picks + [pick] && ComesFrom(r, p, def) {
      var p :| p in picks && ComesFrom(r, p, def);
      assert p in picks + [pick];
    }
  }

  lemma SoundAdded(rows: seq<ViewRow>, row: ViewRow, picks: seq<Pick>, pick: Pick, def: Definition)
    requires RowsSound(rows, picks + [pick], def) && ComesFrom(row, pick, def) && RowOk(row) && row.path !in Paths(rows)
    requires def.profile.Some? ==> Within(row.path, def.profile.value.maxNameLen)
    ensures RowsSound(rows + [row], picks + [pick], def)
  {
    hide Within, ComesFrom, RowOk, DistinctPaths, Paths;
    RowAdded(rows, row);
    assert pick in picks + [pick];
  }

  lemma RowAdded(rows: seq<ViewRow>, row: ViewRow)
    requires row.path !in Paths(rows)
    ensures DistinctPaths(rows) ==> DistinctPaths(rows + [row])
    ensures forall r :: r in rows + [row] <==> r in rows || r == row
  {
    assert forall i :: 0 <= i < |rows| ==> rows[i] in rows && rows[i].path in Paths(rows);
  }

  lemma PlacedGrows(layout: Layout, pick: Pick, def: Definition, seekOf: Hash32 -> byte)
    requires Sound(def)
    ensures forall r :: r in layout.rows ==> r in Placed(layout, pick, def, seekOf).rows
  {
    BothCanonical(pick, def);
    hide WantedText, WantedTagged, Sound, IsCanonical, Within, ValidUtf8, IsOversize, IsSelected;
  }

  /** Rows are never taken away again. */
  lemma {:induction false} LayoutGrows(picks: seq<Pick>, def: Definition, seekOf: Hash32 -> byte, n: nat)
    requires Sound(def) && n <= |picks|
    ensures forall r :: r in LayoutOf(picks[..n], def, seekOf).rows ==> r in LayoutOf(picks, def, seekOf).rows
    decreases |picks|
  {
    hide Placed;
    if n < |picks| {
      var m := |picks| - 1;
      assert picks[..m][..n] == picks[..n];
      LayoutGrows(picks[..m], def, seekOf, n);
      PlacedGrows(LayoutOf(picks[..m], def, seekOf), picks[m], def, seekOf);
    } else {
      assert picks[..n] == picks;
    }
  }

  /** An admitted claim has a row of its own content, unless its path and its tagged path both belong to earlier rows. */
  lemma ShownOrTaken(picks: seq<Pick>, def: Definition, seekOf: Hash32 -> byte, k: nat, layout: Layout)
    requires Sound(def) && LaidOut(picks, def, seekOf) == Some(layout) && k < |picks| && IsAdmitted(picks[k], def)
    ensures (exists r :: r in layout.rows && r.hash == picks[k].hash && r.size == picks[k].size) || !FindsPlace(picks, def, seekOf, k)
  {
    hide LayoutOf, IsAdmitted, WantedText, WantedTagged, Sound, Paths;
    RowOrTaken(picks, def, seekOf, k);
  }

  lemma RowOrTaken(picks: seq<Pick>, def: Definition, seekOf: Hash32 -> byte, k: nat)
    requires Sound(def) && k < |picks| && IsAdmitted(picks[k], def)
    ensures (exists r :: r in LayoutOf(picks, def, seekOf).rows && r.hash == picks[k].hash && r.size == picks[k].size)
         || (WantedText(picks[k], def) in Paths(LayoutOf(picks[..k], def, seekOf).rows) && WantedTagged(picks[k], def) in Paths(LayoutOf(picks[..k], def, seekOf).rows))
  {
    var (pick, before) := (picks[k], LayoutOf(picks[..k], def, seekOf));
    assert picks[..k + 1][..k] == picks[..k];
    LayoutGrows(picks, def, seekOf, k + 1);
    PlacedThere(before, pick, def, seekOf);
    var after := LayoutOf(picks[..k + 1], def, seekOf);
    assert after == Placed(before, pick, def, seekOf);
    hide WantedText, WantedTagged, Sound, ValidUtf8, Placed, LayoutOf, IsAdmitted;
    LastListed(before.rows, after.rows, pick.hash, pick.size);
  }

  lemma LastListed(before: seq<ViewRow>, after: seq<ViewRow>, hash: Hash32, size: u64)
    ensures |after| > |before| && after[|before|].hash == hash && after[|before|].size == size ==> exists r :: r in after && r.hash == hash && r.size == size
  {
    if |after| > |before| {
      assert after[|before|] in after;
    }
  }

  /** When claim `j` has its turn, its path or its tagged path is not taken. */
  ghost predicate FindsPlace(picks: seq<Pick>, def: Definition, seekOf: Hash32 -> byte, j: nat)
    requires Sound(def)
  {
    && j < |picks| && IsAdmitted(picks[j], def)
    && (WantedText(picks[j], def) !in Paths(LayoutOf(picks[..j], def, seekOf).rows) || WantedTagged(picks[j], def) !in Paths(LayoutOf(picks[..j], def, seekOf).rows))
  }

  ghost predicate IsShown(rows: seq<ViewRow>, hash: Hash32) {
    exists r :: r in rows && r.hash == hash
  }

  /** A blob is in the view exactly when some claim of it finds its path or its tagged path free. */
  lemma ShownExactly(picks: seq<Pick>, def: Definition, seekOf: Hash32 -> byte, hash: Hash32, layout: Layout)
    requires Sound(def) && LaidOut(picks, def, seekOf) == Some(layout)
    ensures IsShown(layout.rows, hash) <==> exists j: nat :: FindsPlace(picks, def, seekOf, j) && picks[j].hash == hash
  {
    hide FindsPlace, IsShown, LayoutOf;
    ShownByPlaces(picks, def, seekOf, hash);
  }

  lemma {:induction false} ShownByPlaces(picks: seq<Pick>, def: Definition, seekOf: Hash32 -> byte, hash: Hash32)
    requires Sound(def)
    ensures IsShown(LayoutOf(picks, def, seekOf).rows, hash) <==> exists j: nat :: FindsPlace(picks, def, seekOf, j) && picks[j].hash == hash
    decreases |picks|
  {
    if picks != [] {
      var n := |picks| - 1;
      var before := picks[..n];
      ShownByPlaces(before, def, seekOf, hash);
      hide FindsPlace, Placed, IsAdmitted, WantedText, WantedTagged, Sound, Paths, IsShown, ValidUtf8;
      assert LayoutOf(picks, def, seekOf) == Placed(LayoutOf(before, def, seekOf), picks[n], def, seekOf);
      hide LayoutOf;
      PlacedShows(LayoutOf(before, def, seekOf), picks[n], def, seekOf, hash);
      PlacesBefore(picks, def, seekOf, n);
      if exists j: nat :: FindsPlace(before, def, seekOf, j) && before[j].hash == hash {
        var j: nat :| FindsPlace(before, def, seekOf, j) && before[j].hash == hash;
        assert FindsPlace(picks, def, seekOf, j) && picks[j].hash == hash;
      }
      if exists j: nat :: FindsPlace(picks, def, seekOf, j) && picks[j].hash == hash {
        var j: nat :| FindsPlace(picks, def, seekOf, j) && picks[j].hash == hash;
        assert j < n ==> FindsPlace(before, def, seekOf, j) && before[j].hash == hash;
      }
    } else {
      NoRows(def, seekOf, hash);
    }
  }

  lemma NoRows(def: Definition, seekOf: Hash32 -> byte, hash: Hash32)
    requires Sound(def)
    ensures !IsShown(LayoutOf([], def, seekOf).rows, hash)
  {
  }

  /** Earlier claims find the same places without the last one. */
  lemma PlacesBefore(picks: seq<Pick>, def: Definition, seekOf: Hash32 -> byte, n: nat)
    requires Sound(def) && n + 1 == |picks|
    ensures forall j: nat :: FindsPlace(picks[..n], def, seekOf, j) <==> j < n && FindsPlace(picks, def, seekOf, j)
    ensures forall j: nat :: FindsPlace(picks, def, seekOf, j) ==> j <= n
    ensures var rows := LayoutOf(picks[..n], def, seekOf).rows;
            FindsPlace(picks, def, seekOf, n) <==>
              IsAdmitted(picks[n], def) && (WantedText(picks[n], def) !in Paths(rows) || WantedTagged(picks[n], def) !in Paths(rows))
  {
    hide LayoutOf, IsAdmitted, WantedText, WantedTagged, Sound, Paths;
    forall j: nat ensures FindsPlace(picks[..n], def, seekOf, j) <==> j < n && FindsPlace(picks, def, seekOf, j) {
      if j < n {
        assert picks[..n][..j] == picks[..j];
      }
    }
  }

  lemma PlacedShows(layout: Layout, pick: Pick, def: Definition, seekOf: Hash32 -> byte, hash: Hash32)
    requires Sound(def)
    ensures IsShown(Placed(layout, pick, def, seekOf).rows, hash) <==>
              || IsShown(layout.rows, hash)
              || (pick.hash == hash && IsAdmitted(pick, def) && (WantedText(pick, def) !in Paths(layout.rows) || WantedTagged(pick, def) !in Paths(layout.rows)))
  {
    if IsAdmitted(pick, def) {
      PlacedThere(layout, pick, def, seekOf);
      hide WantedText, WantedTagged, Sound, ValidUtf8, Placed, IsAdmitted, Paths;
      ShownMore(layout.rows, RowAt(WantedText(pick, def), pick, seekOf), hash);
      ShownMore(layout.rows, RowAt(WantedTagged(pick, def), pick, seekOf), hash);
    } else {
      hide WantedText, WantedTagged, Sound, ValidUtf8;
    }
  }

  lemma ShownMore(rows: seq<ViewRow>, row: ViewRow, hash: Hash32)
    ensures IsShown(rows + [row], hash) <==> IsShown(rows, hash) || row.hash == hash
  {
    assert row in rows + [row];
    assert forall r :: r in rows + [row] <==> r in rows || r == row;
  }

  /** What a caller can arrange: no claim is named like another's tagged path, and blobs differ in their first four bytes. */
  ghost predicate TagsTell(picks: seq<Pick>, def: Definition) {
    && NamesApart(picks, def)
    && forall p, q :: p in picks && q in picks && IsAdmitted(p, def) && IsAdmitted(q, def) && p.hash[..4] == q.hash[..4] ==> p.hash == q.hash
  }

  /** Then no admitted blob is left out of the view, however many claims want the same path. */
  lemma NothingLost(picks: seq<Pick>, def: Definition, seekOf: Hash32 -> byte, k: nat, layout: Layout)
    requires Sound(def) && (forall h :: seekOf(h) <= MOST_OPAQUE) && TagsTell(picks, def) && k < |picks| && IsAdmitted(picks[k], def)
    requires LaidOut(picks, def, seekOf) == Some(layout)
    ensures IsShown(layout.rows, picks[k].hash)
  {
    RowsAreSound(picks[..k], def, seekOf);
    hide WantedText, WantedTagged, Sound, LayoutOf, TagsTell;
    var rows := LayoutOf(picks[..k], def, seekOf).rows;
    if !FindsPlace(picks, def, seekOf, k) {
      var r :| r in rows && r.path == WantedTagged(picks[k], def);
      OneBlob(picks, def, rows, r, k);
      LayoutGrows(picks, def, seekOf, k);
      assert r in layout.rows;
    } else {
      ShownExactly(picks, def, seekOf, picks[k].hash, layout);
    }
  }

  lemma OneBlob(picks: seq<Pick>, def: Definition, rows: seq<ViewRow>, r: ViewRow, k: nat)
    requires Sound(def) && TagsTell(picks, def) && k < |picks| && IsAdmitted(picks[k], def)
    requires RowsSound(rows, picks[..k], def) && r in rows && r.path == WantedTagged(picks[k], def)
    ensures r.hash == picks[k].hash
  {
    hide WantedText, WantedTagged, Sound, DistinctPaths, AllOk, AllWithin, IsSelected, IsOversize, ValidUtf8;
    var q :| q in picks[..k] && ComesFrom(r, q, def);
    assert q in picks && picks[k] in picks;
    BothCanonical(q, def);
    BothCanonical(picks[k], def);
    SameTag(q, picks[k], def);
  }

  lemma SameTag(p: Pick, q: Pick, def: Definition)
    requires WantedText(p, def) != [] && WantedText(q, def) != [] && WantedTagged(p, def) == WantedTagged(q, def)
    ensures p.hash[..4] == q.hash[..4]
  {
    hide WantedText, TagOf, Tagged;
    TagPlain(p.hash);
    TagPlain(q.hash);
    TaggedInjective(WantedText(p, def), TagOf(p.hash), WantedText(q, def), TagOf(q.hash));
    TagsDistinguish(p.hash, q.hash);
  }

  /** Without that, a third blob is dropped: it wants the path of the first and its hash begins like the second's. */
  lemma SharedTagDrops(p: Pick, q: Pick, r: Pick, def: Definition, seekOf: Hash32 -> byte, layout: Layout)
    requires Sound(def) && IsAdmitted(p, def) && IsAdmitted(q, def) && IsAdmitted(r, def) && LaidOut([p, q, r], def, seekOf) == Some(layout)
    requires Wanted(p, def) == Wanted(q, def) == Wanted(r, def) && q.hash[..4] == r.hash[..4] && p.hash != r.hash && q.hash != r.hash
    ensures !IsShown(layout.rows, r.hash)
  {
    hide WantedText, Wanted, Sound, IsAdmitted, LaidOut, LayoutOf, Tagged, TagOf, IsShown, FindsPlace;
    TagsDistinguish(q.hash, r.hash);
    SameWanted(p, q, r, def, seekOf);
    ThirdFindsNone(p, q, r, def, seekOf);
    ShownExactly([p, q, r], def, seekOf, r.hash, layout);
    assert [p, q, r][0] == p && [p, q, r][1] == q && [p, q, r][2] == r;
  }

  lemma ThirdFindsNone(p: Pick, q: Pick, r: Pick, def: Definition, seekOf: Hash32 -> byte)
    requires Sound(def) && IsAdmitted(p, def) && IsAdmitted(q, def)
    requires WantedText(p, def) == WantedText(q, def) == WantedText(r, def) && TagOf(q.hash) == TagOf(r.hash)
    ensures forall j: nat :: FindsPlace([p, q, r], def, seekOf, j) ==> j < 2
  {
    hide WantedText, Sound, ValidUtf8, IsAdmitted, Paths, LayoutOf, Tagged, TagOf;
    SecondRow(p, q, def, seekOf);
    assert WantedTagged(r, def) == WantedTagged(q, def);
    hide WantedTagged;
    FewPaths(RowAt(WantedText(p, def), p, seekOf), RowAt(WantedTagged(q, def), q, seekOf));
    assert [p, q, r][..2] == [p, q];
  }

  lemma SameWanted(p: Pick, q: Pick, r: Pick, def: Definition, seekOf: Hash32 -> byte)
    requires Sound(def) && IsAdmitted(p, def) && IsAdmitted(q, def) && IsAdmitted(r, def) && LaidOut([p, q, r], def, seekOf).Some?
    requires Wanted(p, def) == Wanted(q, def) == Wanted(r, def)
    ensures WantedText(p, def) == WantedText(q, def) == WantedText(r, def)
  {
    hide WantedText, Halts, IsAdmitted, LayoutOf, Sound;
    assert p in [p, q, r] && q in [p, q, r] && r in [p, q, r];
  }

  // ---- How often a blob is shown ----

  /**
   On the claims alone: some earlier claim wants the path, or has it for its tagged
   path and found its own path taken.
   */
  ghost predicate Taken(picks: seq<Pick>, def: Definition, n: nat, path: Text)
    requires n <= |picks|
    decreases n
  {
    exists q: nat :: q < n && IsAdmitted(picks[q], def)
      && (WantedText(picks[q], def) == path || (WantedTagged(picks[q], def) == path && Taken(picks, def, q, WantedText(picks[q], def))))
  }

  /** Which is just when the layout has a row at it. */
  lemma {:induction false} TakenExactly(picks: seq<Pick>, def: Definition, seekOf: Hash32 -> byte, n: nat, path: Text)
    requires Sound(def) && n <= |picks|
    ensures Taken(picks, def, n, path) <==> path in Paths(LayoutOf(picks[..n], def, seekOf).rows)
    decreases n
  {
    hide WantedText, WantedTagged, Sound, IsAdmitted, LayoutOf, Paths;
    if n > 0 {
      TakenExactly(picks, def, seekOf, n - 1, path);
      TakenExactly(picks, def, seekOf, n - 1, WantedText(picks[n - 1], def));
      TakenStep(picks, def, n - 1, path);
      hide Taken;
      PathsStep(picks, def, seekOf, n - 1);
    } else {
      NoPaths(picks, def, seekOf);
    }
  }

  lemma NoPaths(picks: seq<Pick>, def: Definition, seekOf: Hash32 -> byte)
    requires Sound(def)
    ensures Paths(LayoutOf(picks[..0], def, seekOf).rows) == {}
  {
    hide Sound;
    assert picks[..0] == [];
  }

  lemma PathsStep(picks: seq<Pick>, def: Definition, seekOf: Hash32 -> byte, n: nat)
    requires Sound(def) && n < |picks|
    ensures var (before, after) := (Paths(LayoutOf(picks[..n], def, seekOf).rows), Paths(LayoutOf(picks[..n + 1], def, seekOf).rows));
      after == before + if !IsAdmitted(picks[n], def) then {} else if WantedText(picks[n], def) !in before then {WantedText(picks[n], def)} else {WantedTagged(picks[n], def)}
  {
    hide WantedText, WantedTagged, Sound, IsAdmitted, Paths, Placed;
    assert picks[..n] + [picks[n]] == picks[..n + 1];
    OneMore(picks[..n], picks[n], def, seekOf);
    hide LayoutOf;
    PlacedPaths(LayoutOf(picks[..n], def, seekOf), picks[n], def, seekOf);
  }

  lemma TakenStep(picks: seq<Pick>, def: Definition, n: nat, path: Text)
    requires n < |picks|
    ensures Taken(picks, def, n + 1, path) <==>
              || Taken(picks, def, n, path)
              || (IsAdmitted(picks[n], def) && (WantedText(picks[n], def) == path || (WantedTagged(picks[n], def) == path && Taken(picks, def, n, WantedText(picks[n], def)))))
  {
    hide WantedText, WantedTagged, IsAdmitted;
  }

  lemma PlacedPaths(layout: Layout, pick: Pick, def: Definition, seekOf: Hash32 -> byte)
    requires Sound(def)
    ensures var (before, after) := (Paths(layout.rows), Paths(Placed(layout, pick, def, seekOf).rows));
      after == before + if !IsAdmitted(pick, def) then {} else if WantedText(pick, def) !in before then {WantedText(pick, def)} else {WantedTagged(pick, def)}
  {
    if IsAdmitted(pick, def) {
      PlacedThere(layout, pick, def, seekOf);
      hide WantedText, WantedTagged, Sound, ValidUtf8, Placed, IsAdmitted, Paths;
      PathsGrow(layout.rows, RowAt(WantedText(pick, def), pick, seekOf));
      PathsGrow(layout.rows, RowAt(WantedTagged(pick, def), pick, seekOf));
    } else {
      hide WantedText, WantedTagged, Sound, ValidUtf8;
    }
  }

  ghost predicate Wants(pick: Pick, def: Definition, path: Text, hash: Hash32) {
    IsAdmitted(pick, def) && WantedText(pick, def) == path && pick.hash == hash
  }

  /** The claims that get a row. */
  ghost function Placing(picks: seq<Pick>, def: Definition, seekOf: Hash32 -> byte): (r: set<nat>)
    requires Sound(def)
  {
    set j: nat | j < |picks| && FindsPlace(picks, def, seekOf, j)
  }

  /** Those among them that are for one blob at one wanted path. */
  ghost function Shown(picks: seq<Pick>, def: Definition, seekOf: Hash32 -> byte, path: Text, hash: Hash32): (r: set<nat>)
    requires Sound(def)
  {
    set j: nat | j < |picks| && FindsPlace(picks, def, seekOf, j) && Wants(picks[j], def, path, hash)
  }

  /** Each of them is one row: a layout has as many rows as claims that find a place. */
  lemma {:induction false} OneRowEach(picks: seq<Pick>, def: Definition, seekOf: Hash32 -> byte)
    requires Sound(def)
    ensures |LayoutOf(picks, def, seekOf).rows| == |Placing(picks, def, seekOf)|
  {
    hide FindsPlace, WantedText, WantedTagged, Sound, IsAdmitted, Paths, Placed;
    if picks != [] {
      hide LayoutOf;
      var n := |picks| - 1;
      OneRowEach(picks[..n], def, seekOf);
      PlacesBefore(picks, def, seekOf, n);
      PlacingStep(picks, def, seekOf, n);
      assert picks[..n] + [picks[n]] == picks;
      OneMore(picks[..n], picks[n], def, seekOf);
      PlacedGrowsBy(LayoutOf(picks[..n], def, seekOf), picks[n], def, seekOf);
    }
  }

  lemma PlacingStep(picks: seq<Pick>, def: Definition, seekOf: Hash32 -> byte, n: nat)
    requires Sound(def) && n + 1 == |picks|
    ensures |Placing(picks, def, seekOf)| == |Placing(picks[..n], def, seekOf)| + if FindsPlace(picks, def, seekOf, n) then 1 else 0
  {
    PlacesBefore(picks, def, seekOf, n);
    InPlacing(picks, def, seekOf);
    InPlacing(picks[..n], def, seekOf);
    hide FindsPlace, Sound, Placing, WantedText, WantedTagged, IsAdmitted, Paths, LayoutOf;
    OneNumberMore(Placing(picks[..n], def, seekOf), Placing(picks, def, seekOf), n, FindsPlace(picks, def, seekOf, n));
  }

  lemma InPlacing(picks: seq<Pick>, def: Definition, seekOf: Hash32 -> byte)
    requires Sound(def)
    ensures forall j: nat :: j in Placing(picks, def, seekOf) <==> FindsPlace(picks, def, seekOf, j)
  {
    hide Sound, WantedText, WantedTagged, IsAdmitted, Paths, LayoutOf;
  }

  lemma OneNumberMore(before: set<nat>, after: set<nat>, n: nat, more: bool)
    requires n !in before && forall j: nat :: j in after <==> j in before || (j == n && more)
    ensures |after| == |before| + if more then 1 else 0
  {
    assert after == before + if more then {n} else {};
  }

  lemma PlacedGrowsBy(layout: Layout, pick: Pick, def: Definition, seekOf: Hash32 -> byte)
    requires Sound(def)
    ensures |Placed(layout, pick, def, seekOf).rows| == |layout.rows| +
              if IsAdmitted(pick, def) && (WantedText(pick, def) !in Paths(layout.rows) || WantedTagged(pick, def) !in Paths(layout.rows)) then 1 else 0
  {
    if IsAdmitted(pick, def) {
      PlacedThere(layout, pick, def, seekOf);
      hide WantedText, WantedTagged, Sound, ValidUtf8, Placed, IsAdmitted, Paths;
    } else {
      hide WantedText, WantedTagged, Sound, ValidUtf8;
    }
  }

  /** Two claims for the same blob at the same path, the later with its tagged path not taken. */
  ghost predicate ShownAgain(picks: seq<Pick>, def: Definition, i: nat, k: nat, path: Text, hash: Hash32) {
    i < k < |picks| && Wants(picks[i], def, path, hash) && Wants(picks[k], def, path, hash) && !Taken(picks, def, k, WantedTagged(picks[k], def))
  }

  lemma {:induction false} TakenStays(picks: seq<Pick>, def: Definition, n: nat, m: nat, path: Text)
    requires n <= m <= |picks| && Taken(picks, def, n, path)
    ensures Taken(picks, def, m, path)
  {
    hide WantedText, WantedTagged, IsAdmitted;
  }

  /** A claim finds a place exactly when its two paths are not both taken, and then takes the first of them that is free. */
  lemma FindsPlaceExactly(picks: seq<Pick>, def: Definition, seekOf: Hash32 -> byte, j: nat)
    requires Sound(def) && j < |picks| && IsAdmitted(picks[j], def)
    ensures FindsPlace(picks, def, seekOf, j) <==>
              !(Taken(picks, def, j, WantedText(picks[j], def)) && Taken(picks, def, j, WantedTagged(picks[j], def)))
    ensures Taken(picks, def, j + 1, WantedText(picks[j], def))
    ensures Taken(picks, def, j, WantedText(picks[j], def)) ==> Taken(picks, def, j + 1, WantedTagged(picks[j], def))
  {
    hide WantedText, WantedTagged, Sound, IsAdmitted, LayoutOf, Paths;
    TakenExactly(picks, def, seekOf, j, WantedText(picks[j], def));
    TakenExactly(picks, def, seekOf, j, WantedTagged(picks[j], def));
    TakenStep(picks, def, j, WantedText(picks[j], def));
    TakenStep(picks, def, j, WantedTagged(picks[j], def));
    hide Taken;
  }

  /** Of two claims that are shown, the later one is at its tagged path. */
  lemma SecondIsTagged(picks: seq<Pick>, def: Definition, seekOf: Hash32 -> byte, path: Text, hash: Hash32, i: nat, k: nat)
    requires Sound(def) && i < k && i in Shown(picks, def, seekOf, path, hash) && k in Shown(picks, def, seekOf, path, hash)
    ensures ShownAgain(picks, def, i, k, path, hash) && Taken(picks, def, k + 1, path) && Taken(picks, def, k + 1, WantedTagged(picks[k], def))
  {
    hide WantedText, WantedTagged, Sound, IsAdmitted, FindsPlace, Taken;
    FindsPlaceExactly(picks, def, seekOf, i);
    FindsPlaceExactly(picks, def, seekOf, k);
    TakenStays(picks, def, i + 1, k, path);
  }

  lemma BothShown(picks: seq<Pick>, def: Definition, seekOf: Hash32 -> byte, path: Text, hash: Hash32, i: nat, k: nat)
    requires Sound(def) && ShownAgain(picks, def, i, k, path, hash)
    ensures i in Shown(picks, def, seekOf, path, hash) && k in Shown(picks, def, seekOf, path, hash)
  {
    hide WantedText, Tagged, TagOf, Sound, IsAdmitted, FindsPlace, Taken;
    FindsPlaceExactly(picks, def, seekOf, i);
    FindsPlaceExactly(picks, def, seekOf, k);
    if Taken(picks, def, i, WantedTagged(picks[i], def)) {
      TakenStays(picks, def, i, k, WantedTagged(picks[i], def));
    }
  }

  /**
   However often a blob is claimed at a path, it has at most two rows there, and two
   exactly when some claim repeats an earlier one before its tagged path is taken.
   */
  lemma ShownTwiceExactly(picks: seq<Pick>, def: Definition, seekOf: Hash32 -> byte, path: Text, hash: Hash32)
    requires Sound(def)
    ensures |Shown(picks, def, seekOf, path, hash)| <= 2
    ensures |Shown(picks, def, seekOf, path, hash)| == 2 <==> exists i, k :: ShownAgain(picks, def, i, k, path, hash)
  {
    hide WantedText, Tagged, TagOf, Sound, IsAdmitted, FindsPlace, Taken;
    var shown := Shown(picks, def, seekOf, path, hash);
    forall i, k | i in shown && k in shown && i < k ensures ShownAgain(picks, def, i, k, path, hash) {
      SecondIsTagged(picks, def, seekOf, path, hash, i, k);
    }
    forall i, k, l | i in shown && k in shown && l in shown && i < k ensures !(k < l) {
      if k < l {
        SecondIsTagged(picks, def, seekOf, path, hash, i, k);
        SecondIsTagged(picks, def, seekOf, path, hash, k, l);
        TakenStays(picks, def, k + 1, l, WantedTagged(picks[k], def));
      }
    }
    if i, k :| ShownAgain(picks, def, i, k, path, hash) {
      BothShown(picks, def, seekOf, path, hash, i, k);
    }
    hide Shown, ShownAgain;
    AtMostTwo(shown);
  }

  /** The two rows: one at the path itself, one at the tagged path. */
  lemma ShownTwiceWhere(picks: seq<Pick>, def: Definition, seekOf: Hash32 -> byte, path: Text, hash: Hash32, i: nat, k: nat, layout: Layout)
    requires Sound(def) && ShownAgain(picks, def, i, k, path, hash) && LaidOut(picks, def, seekOf) == Some(layout)
    ensures exists r :: r in layout.rows && r.path == path && r.hash == hash
    ensures exists r :: r in layout.rows && r.path == Tagged(path, TagOf(hash)) && r.hash == hash
  {
    hide WantedText, Tagged, TagOf, Sound, IsAdmitted, FindsPlace, Taken, LayoutOf, Paths;
    FindsPlaceExactly(picks, def, seekOf, i);
    FindsPlaceExactly(picks, def, seekOf, k);
    if Taken(picks, def, i, path) {
      TakenStays(picks, def, i + 1, k, WantedTagged(picks[k], def));
    }
    TakenStays(picks, def, i + 1, k, path);
    TakesFreePlace(picks, def, seekOf, i);
    TakesFreePlace(picks, def, seekOf, k);
  }

  /** A claim that finds its path free has its row there, one that finds only its tagged path free has it at that. */
  lemma TakesFreePlace(picks: seq<Pick>, def: Definition, seekOf: Hash32 -> byte, j: nat)
    requires Sound(def) && j < |picks| && IsAdmitted(picks[j], def)
    ensures !Taken(picks, def, j, WantedText(picks[j], def)) ==>
              exists r :: r in LayoutOf(picks, def, seekOf).rows && r.path == WantedText(picks[j], def) && r.hash == picks[j].hash
    ensures Taken(picks, def, j, WantedText(picks[j], def)) && !Taken(picks, def, j, WantedTagged(picks[j], def)) ==>
              exists r :: r in LayoutOf(picks, def, seekOf).rows && r.path == WantedTagged(picks[j], def) && r.hash == picks[j].hash
  {
    hide WantedText, WantedTagged, Sound, ValidUtf8, IsAdmitted, LayoutOf, Paths, Taken, Placed;
    TakenExactly(picks, def, seekOf, j, WantedText(picks[j], def));
    TakenExactly(picks, def, seekOf, j, WantedTagged(picks[j], def));
    assert picks[..j] + [picks[j]] == picks[..j + 1];
    OneMore(picks[..j], picks[j], def, seekOf);
    PlacedThere(LayoutOf(picks[..j], def, seekOf), picks[j], def, seekOf);
    LayoutGrows(picks, def, seekOf, j + 1);
    var (before, rows) := (LayoutOf(picks[..j], def, seekOf).rows, LayoutOf(picks[..j + 1], def, seekOf).rows);
    if |rows| > |before| {
      assert rows[|before|] in rows;
    }
  }

  lemma AtMostTwo(s: set<nat>)
    requires forall i, k, l :: i in s && k in s && l in s && i < k ==> !(k < l)
    ensures |s| <= 2 && (|s| == 2 <==> exists i, k :: i in s && k in s && i < k)
  {
    if s != {} {
      var i :| i in s;
      if s != {i} {
        assert s - {i} != {};
        var k :| k in s - {i};
        assert s == {i, k};
        assert i < k || k < i;
      }
    }
  }

  /** No admitted claim is named like another's tagged path. */
  ghost predicate NamesApart(picks: seq<Pick>, def: Definition) {
    forall p, q :: p in picks && q in picks && IsAdmitted(p, def) && IsAdmitted(q, def) ==> WantedText(p, def) != WantedTagged(q, def)
  }

  /** The first claim at a path, and the next one there whose hash begins like `hash`, are both for `hash`. */
  ghost predicate LeadsTwice(picks: seq<Pick>, def: Definition, i: nat, k: nat, path: Text, hash: Hash32) {
    && i < k < |picks| && Wants(picks[i], def, path, hash) && Wants(picks[k], def, path, hash)
    && (forall q: nat :: q < i && IsAdmitted(picks[q], def) ==> WantedText(picks[q], def) != path)
    && forall q: nat :: i < q < k && IsAdmitted(picks[q], def) && WantedText(picks[q], def) == path ==> picks[q].hash[..4] != hash[..4]
  }

  /** Two claims at the path before `n`, the later with a tag like `hash`'s. */
  ghost predicate TagUsed(picks: seq<Pick>, def: Definition, n: nat, path: Text, hash: Hash32)
    requires n <= |picks|
  {
    exists p: nat, q: nat :: p < q < n && IsAdmitted(picks[p], def) && IsAdmitted(picks[q], def)
      && WantedText(picks[p], def) == WantedText(picks[q], def) == path && picks[q].hash[..4] == hash[..4]
  }

  lemma TakenApart(picks: seq<Pick>, def: Definition, n: nat, k: nat)
    requires Sound(def) && NamesApart(picks, def) && n <= |picks| && k < |picks| && IsAdmitted(picks[k], def)
    ensures Taken(picks, def, n, WantedText(picks[k], def)) <==>
              exists p: nat :: p < n && IsAdmitted(picks[p], def) && WantedText(picks[p], def) == WantedText(picks[k], def)
  {
    hide WantedText, WantedTagged, IsAdmitted, Sound;
  }

  lemma TagTakenApart(picks: seq<Pick>, def: Definition, n: nat, k: nat)
    requires Sound(def) && NamesApart(picks, def) && n <= |picks| && k < |picks| && IsAdmitted(picks[k], def)
    ensures Taken(picks, def, n, WantedTagged(picks[k], def)) <==> TagUsed(picks, def, n, WantedText(picks[k], def), picks[k].hash)
  {
    hide WantedText, WantedTagged, IsAdmitted, Sound, TagUsed;
    forall q: nat | q < n ensures TagTakenAt(picks, def, q, k) <==> TagUsedAt(picks, def, q, WantedText(picks[k], def), picks[k].hash) {
      if IsAdmitted(picks[q], def) {
        hide Taken;
        TakenApart(picks, def, q, q);
        SameTagged(picks[q], picks[k], def);
      }
    }
    TagTakenSomewhere(picks, def, n, k);
    hide TagTakenAt, TagUsedAt, Taken, NamesApart;
    TagUsedSomewhere(picks, def, n, WantedText(picks[k], def), picks[k].hash);
  }

  lemma TagTakenSomewhere(picks: seq<Pick>, def: Definition, n: nat, k: nat)
    requires NamesApart(picks, def) && n <= |picks| && k < |picks| && IsAdmitted(picks[k], def)
    ensures Taken(picks, def, n, WantedTagged(picks[k], def)) <==> exists q: nat :: q < n && TagTakenAt(picks, def, q, k)
  {
    hide WantedText, WantedTagged, IsAdmitted;
    var path := WantedTagged(picks[k], def);
    if Taken(picks, def, n, path) {
      var q: nat :| q < n && IsAdmitted(picks[q], def)
        && (WantedText(picks[q], def) == path || (WantedTagged(picks[q], def) == path && Taken(picks, def, q, WantedText(picks[q], def))));
      assert picks[q] in picks && picks[k] in picks;
      assert TagTakenAt(picks, def, q, k);
    }
    if exists q: nat :: q < n && TagTakenAt(picks, def, q, k) {
      var q: nat :| q < n && TagTakenAt(picks, def, q, k);
      assert q < n && IsAdmitted(picks[q], def) && WantedTagged(picks[q], def) == path && Taken(picks, def, q, WantedText(picks[q], def));
    }
  }

  ghost predicate TagTakenAt(picks: seq<Pick>, def: Definition, q: nat, k: nat)
    requires q < |picks| && k < |picks|
  {
    IsAdmitted(picks[q], def) && WantedTagged(picks[q], def) == WantedTagged(picks[k], def) && Taken(picks, def, q, WantedText(picks[q], def))
  }

  ghost predicate TagUsedAt(picks: seq<Pick>, def: Definition, q: nat, path: Text, hash: Hash32)
    requires q < |picks|
  {
    && IsAdmitted(picks[q], def) && WantedText(picks[q], def) == path && picks[q].hash[..4] == hash[..4]
    && exists p: nat :: p < q && IsAdmitted(picks[p], def) && WantedText(picks[p], def) == path
  }

  lemma TagUsedSomewhere(picks: seq<Pick>, def: Definition, n: nat, path: Text, hash: Hash32)
    requires n <= |picks|
    ensures TagUsed(picks, def, n, path, hash) <==> exists q: nat :: q < n && TagUsedAt(picks, def, q, path, hash)
  {
    hide WantedText, IsAdmitted;
    if TagUsed(picks, def, n, path, hash) {
      var p: nat, q: nat :| p < q < n && IsAdmitted(picks[p], def) && IsAdmitted(picks[q], def)
        && WantedText(picks[p], def) == WantedText(picks[q], def) == path && picks[q].hash[..4] == hash[..4];
      assert TagUsedAt(picks, def, q, path, hash);
    }
  }

  lemma SameTagged(p: Pick, q: Pick, def: Definition)
    requires Sound(def)
    ensures WantedTagged(p, def) == WantedTagged(q, def) <==> WantedText(p, def) == WantedText(q, def) && p.hash[..4] == q.hash[..4]
  {
    BothCanonical(p, def);
    BothCanonical(q, def);
    hide WantedText, IsCanonical, Tagged, TagOf, Sound, Within;
    TagsDistinguish(p.hash, q.hash);
    TagPlain(p.hash);
    TagPlain(q.hash);
    if WantedTagged(p, def) == WantedTagged(q, def) {
      assert WantedText(p, def) != [] && WantedText(q, def) != [] by {
        CanonicalHere(WantedText(p, def));
        CanonicalHere(WantedText(q, def));
      }
      TaggedInjective(WantedText(p, def), TagOf(p.hash), WantedText(q, def), TagOf(q.hash));
    }
  }

  lemma CanonicalHere(path: Text)
    requires IsCanonical(path)
    ensures path != []
  {
  }

  /**
   When no claim is named like another's tagged path, a blob has two rows at a path
   exactly when the first claim there and the next with a tag like the blob's are both
   for it: a claim repeated at once, for one.
   */
  lemma ShownTwiceApart(picks: seq<Pick>, def: Definition, seekOf: Hash32 -> byte, path: Text, hash: Hash32)
    requires Sound(def) && NamesApart(picks, def)
    ensures |Shown(picks, def, seekOf, path, hash)| == 2 <==> exists i, k :: LeadsTwice(picks, def, i, k, path, hash)
  {
    hide Shown, Sound, WantedText, Tagged, TagOf, IsAdmitted, Taken, NamesApart;
    ShownTwiceExactly(picks, def, seekOf, path, hash);
    forall i: nat, k: nat ensures ShownAgain(picks, def, i, k, path, hash) <==> LeadsTwice(picks, def, i, k, path, hash) {
      if i < k < |picks| && Wants(picks[i], def, path, hash) && Wants(picks[k], def, path, hash) {
        TagTakenApart(picks, def, k, k);
        AgainLeads(picks, def, i, k, path, hash);
      }
    }
    hide ShownAgain, LeadsTwice;
  }

  lemma AgainLeads(picks: seq<Pick>, def: Definition, i: nat, k: nat, path: Text, hash: Hash32)
    requires i < k < |picks| && Wants(picks[i], def, path, hash) && Wants(picks[k], def, path, hash)
    ensures !TagUsed(picks, def, k, path, hash) <==> LeadsTwice(picks, def, i, k, path, hash)
  {
    hide WantedText, IsAdmitted;
  }

  /** A blob claimed any number of times at one path, and nothing else, gets two rows, not one: the first plain, the second tagged. */
  lemma RepeatedBlobTwice(picks: seq<Pick>, p: Pick, def: Definition, seekOf: Hash32 -> byte, layout: Layout)
    requires Sound(def) && IsAdmitted(p, def) && |picks| >= 2 && (forall q :: q in picks ==> q == p) && LaidOut(picks, def, seekOf) == Some(layout)
    ensures |Shown(picks, def, seekOf, WantedText(p, def), p.hash)| == 2
    ensures var rows := layout.rows;
      |rows| == 2 && Some(rows[0].path) == Wanted(p, def) && rows[1].path == Tagged(rows[0].path, TagOf(p.hash)) && rows[0].hash == rows[1].hash == p.hash
  {
    hide WantedText, Halts, IsAdmitted, LayoutOf, Sound, Tagged, TagOf, Shown;
    assert picks[0] in picks && picks[1] in picks;
    TaggedLonger(WantedText(p, def), p.hash);
    assert LeadsTwice(picks, def, 0, 1, WantedText(p, def), p.hash);
    ShownTwiceApart(picks, def, seekOf, WantedText(p, def), p.hash);
    AllAlike(picks, p, def, seekOf);
  }

  lemma {:induction false} AllAlike(picks: seq<Pick>, p: Pick, def: Definition, seekOf: Hash32 -> byte)
    requires Sound(def) && IsAdmitted(p, def) && |picks| >= 2 && forall q :: q in picks ==> q == p
    ensures ValidUtf8(WantedText(p, def)) && ValidUtf8(WantedTagged(p, def))
    ensures LayoutOf(picks, def, seekOf).rows == [RowAt(WantedText(p, def), p, seekOf), RowAt(WantedTagged(p, def), p, seekOf)]
  {
    hide WantedText, Sound, ValidUtf8, IsAdmitted, Placed, Paths, LayoutOf, Tagged, TagOf;
    SecondRow(p, p, def, seekOf);
    if |picks| == 2 {
      assert picks[0] in picks && picks[1] in picks;
      assert picks == [p, p];
    } else {
      var n := |picks| - 1;
      assert forall q :: q in picks[..n] ==> q in picks;
      AllAlike(picks[..n], p, def, seekOf);
      assert picks[n] in picks && picks[..n] + [p] == picks;
      OneMore(picks[..n], p, def, seekOf);
      FewPaths(RowAt(WantedText(p, def), p, seekOf), RowAt(WantedTagged(p, def), p, seekOf));
      PlacedThere(LayoutOf(picks[..n], def, seekOf), p, def, seekOf);
    }
  }

  lemma OneMore(picks: seq<Pick>, pick: Pick, def: Definition, seekOf: Hash32 -> byte)
    requires Sound(def)
    ensures LayoutOf(picks + [pick], def, seekOf) == Placed(LayoutOf(picks, def, seekOf), pick, def, seekOf)
  {
    hide Placed;
    assert (picks + [pick])[..|picks|] == picks;
  }

  lemma FirstRow(p: Pick, def: Definition, seekOf: Hash32 -> byte)
    requires Sound(def) && IsAdmitted(p, def)
    ensures ValidUtf8(WantedText(p, def)) && LayoutOf([p], def, seekOf).rows == [RowAt(WantedText(p, def), p, seekOf)]
  {
    assert [p][..0] == [];
    hide WantedText, WantedTagged, Sound, ValidUtf8, IsAdmitted, Placed;
    PlacedThere(LayoutOf([], def, seekOf), p, def, seekOf);
  }

  lemma SecondRow(p: Pick, q: Pick, def: Definition, seekOf: Hash32 -> byte)
    requires Sound(def) && IsAdmitted(p, def) && IsAdmitted(q, def) && WantedText(p, def) == WantedText(q, def)
    ensures ValidUtf8(WantedText(p, def)) && ValidUtf8(WantedTagged(q, def)) && WantedText(p, def) != WantedTagged(q, def)
    ensures LayoutOf([p, q], def, seekOf).rows == [RowAt(WantedText(p, def), p, seekOf), RowAt(WantedTagged(q, def), q, seekOf)]
  {
    hide WantedText, Tagged, TagOf, Sound, ValidUtf8, IsAdmitted, Placed, Paths, LayoutOf, IsCanonical, Within;
    FirstRow(p, def, seekOf);
    BothCanonical(q, def);
    TaggedLonger(WantedText(q, def), q.hash);
    assert [p] + [q] == [p, q];
    OneMore([p], q, def, seekOf);
    FewPaths(RowAt(WantedText(p, def), p, seekOf), RowAt(WantedTagged(q, def), q, seekOf));
    PlacedThere(LayoutOf([p], def, seekOf), q, def, seekOf);
  }

  lemma FewPaths(x: ViewRow, y: ViewRow)
    ensures Paths([]) == {} && Paths([x]) == {x.path} && Paths([x, y]) == {x.path, y.path}
  {
    assert x in [x, y] && y in [x, y] && x in [x];
  }

  /** Where an admitted claim goes. */
  lemma PlacedThere(layout: Layout, pick: Pick, def: Definition, seekOf: Hash32 -> byte)
    requires Sound(def) && IsAdmitted(pick, def)
    ensures ValidUtf8(WantedText(pick, def)) && ValidUtf8(WantedTagged(pick, def))
    ensures Placed(layout, pick, def, seekOf).rows
         == if WantedText(pick, def) !in Paths(layout.rows) then layout.rows + [RowAt(WantedText(pick, def), pick, seekOf)]
            else if WantedTagged(pick, def) !in Paths(layout.rows) then layout.rows + [RowAt(WantedTagged(pick, def), pick, seekOf)]
            else layout.rows
  {
    BothCanonical(pick, def);
    hide WantedText, WantedTagged, Sound, ValidUtf8;
  }

  lemma TaggedLonger(path: Text, hash: Hash32)
    ensures |Tagged(path, TagOf(hash))| == |path| + SUFFIX_RESERVE
  {
  }
}
