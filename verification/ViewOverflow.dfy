/**
 Names past the cap (views.rs, profiles.rs): a view under a built-in profile in which
 bucketing gives a row a second tag that its name has no room for.
 */
module ViewOverflow {
  import opened Wrappers
  import opened Bytes
  import opened Objects
  import opened SnapshotObject
  import opened ViewPaths
  import opened ViewProfiles
  import opened ViewManifest
  import opened ViewLayout
  import opened ViewBuckets

  const LETTER: byte := 0x41

  // ---- Names that are used as they are ----

  function As(n: nat): (r: Text)
    ensures |r| == n && forall b :: b in r ==> b == LETTER
  {
    if n == 0 then [] else As(n - 1) + [LETTER]
  }

  /** `AAA`, then some tags, then `.b`. */
  function Named(n: nat, tags: Text): Text {
    As(n) + tags + [DOT, 0x62]
  }

  /** The same in the bucket `A`. */
  function InBucket(path: Text): Text {
    [LETTER, SEPARATOR] + path
  }

  predicate IsSimpleByte(b: byte) {
    b == DOT || 0x30 <= b <= 0x39 || b == LETTER || 0x61 <= b <= 0x66
  }

  predicate IsSimple(c: Text) {
    c != [] && !IsDots(c) && !IsDotOrSpace(c[|c| - 1]) && forall b :: b in c ==> IsSimpleByte(b)
  }

  lemma SimpleUtf8(c: Text)
    requires IsSimple(c)
    ensures ValidUtf8(c) && GoodComponent(c) && BACKSLASH !in c && NAME[0] !in c
  {
    forall i | 0 <= i < |c| ensures c[i] < 0x80 {
      assert c[i] in c;
    }
    AsciiIsUtf8(c);
  }

  /** Constraining leaves a simple name that fits alone. */
  lemma SimpleConstrained(c: Text, profile: Profile, codes: RegionCodes)
    requires IsSimple(c) && profile.charset.FatSafe? && |c| <= Budget(profile)
    ensures Constrained(c, profile, codes) == Some(c) && ConstrainedText(c, profile, codes) == c
  {
    forall i | 0 <= i < |c| ensures ScrubBanned(c[i]) == c[i] {
      assert c[i] in c;
    }
    assert MapBytes(c, ScrubBanned) == c;
    assert Cleaned(c, profile.charset) == c;
  }

  /** A path of simple names. */
  ghost predicate IsSimplePath(path: Text, profile: Profile) {
    forall c :: c in Split(path, SEPARATOR) ==> IsSimple(c) && |c| <= Budget(profile)
  }

  lemma SimpleCanonical(path: Text, profile: Profile)
    requires IsSimplePath(path, profile)
    ensures ValidUtf8(path) && IsCanonical(path) && BACKSLASH !in path && NAME[0] !in path
  {
    var parts := Split(path, SEPARATOR);
    hide IsSimple, Split, ValidUtf8, IsCanonical, GoodComponent;
    forall c | c in parts ensures ValidUtf8(c) && GoodComponent(c) && BACKSLASH !in c && NAME[0] !in c {
      SimpleUtf8(c);
    }
    JoinSplit(path, SEPARATOR);
    JoinUtf8(parts, SEPARATOR);
    CanonicalParts(path);
    SplitBytes(path, SEPARATOR, BACKSLASH);
    SplitBytes(path, SEPARATOR, NAME[0]);
  }

  lemma {:induction false} SimpleParts(parts: seq<Text>, profile: Profile, codes: RegionCodes)
    requires profile.charset.FatSafe? && forall c :: c in parts ==> IsSimple(c) && |c| <= Budget(profile)
    ensures ConstrainedParts(parts, profile, codes) == parts
  {
    hide IsSimple, ConstrainedText;
    if parts != [] {
      var n := |parts| - 1;
      assert parts == parts[..n] + [parts[n]] && parts[n] in parts;
      SimpleParts(parts[..n], profile, codes);
      SimpleConstrained(parts[n], profile, codes);
    }
  }

  /** Such a path is wanted as it is named. */
  lemma SimpleWanted(pick: Pick, def: Definition)
    requires def.template == NAME && def.profile.Some? && def.profile.value.charset.FatSafe? && IsSimplePath(pick.claim, def.profile.value)
    ensures Wanted(pick, def) == Some(pick.claim) && WantedText(pick, def) == pick.claim
  {
    hide IsSimplePath, ConstrainedPathText, PathHalts, Expanded, Legal, IsCanonical, ValidUtf8;
    SimpleCanonical(pick.claim, def.profile.value);
    NameTemplate(pick);
    SimplePathStays(pick.claim, def.profile.value, def.codes);
  }

  lemma SimplePathStays(path: Text, profile: Profile, codes: RegionCodes)
    requires profile.charset.FatSafe? && IsSimplePath(path, profile)
    ensures !PathHalts(path, profile, codes) && ConstrainedPathText(path, profile, codes) == path
  {
    hide IsSimple, ConstrainedText, Constrained, Split, Join, ConstrainedParts;
    var parts := Split(path, SEPARATOR);
    SimpleParts(parts, profile, codes);
    JoinSplit(path, SEPARATOR);
    forall c | c in parts ensures Constrained(c, profile, codes).Some? {
      SimpleConstrained(c, profile, codes);
    }
  }

  // ---- The names ----

  lemma NamedTagged(n: nat, tags: Text, tag: Text)
    requires n > 0
    ensures Tagged(Named(n, tags), tag) == Named(n, tags + tag)
    ensures Tagged(InBucket(Named(n, tags)), tag) == InBucket(Named(n, tags + tag))
  {
    var stem := As(n) + tags;
    assert stem + tag == As(n) + (tags + tag);
    StemTagged(stem, tag);
    StemTagged([LETTER, SEPARATOR] + stem, tag);
    assert InBucket(stem + [DOT, 0x62]) == [LETTER, SEPARATOR] + stem + [DOT, 0x62];
    assert InBucket(stem + tag + [DOT, 0x62]) == [LETTER, SEPARATOR] + stem + tag + [DOT, 0x62];
  }

  lemma StemTagged(stem: Text, tag: Text)
    requires stem != []
    ensures Tagged(stem + [DOT, 0x62], tag) == stem + tag + [DOT, 0x62]
  {
    assert stem + [DOT, 0x62] == stem + [DOT] + [0x62];
    LastDot(stem, [0x62]);
    assert Insert(stem + [DOT, 0x62], |stem|, tag) == stem + tag + [DOT, 0x62];
  }

  lemma NamedBuckets(n: nat, tags: Text)
    requires n > 0 && SEPARATOR !in tags
    ensures SEPARATOR !in Named(n, tags) && Parent(Named(n, tags)) == [] && Bucketed(Named(n, tags)) == InBucket(Named(n, tags))
    ensures Leaf(InBucket(Named(n, tags))) == Named(n, tags) && Split(InBucket(Named(n, tags)), SEPARATOR) == [[LETTER], Named(n, tags)]
    ensures Split(Named(n, tags), SEPARATOR) == [Named(n, tags)]
  {
    var c := Named(n, tags);
    assert forall b :: b in c <==> b in As(n) || b in tags || b == DOT || b == 0x62;
    assert c[0] == As(n)[0] && As(n)[0] in As(n);
    hide As;
    assert AlphaBucket(Leaf(c)) == [LETTER];
    assert InBucket(c) == [LETTER] + [SEPARATOR] + c;
    LastSeparator([LETTER], c);
    SplitWhole(c, SEPARATOR);
    SplitWhole([LETTER], SEPARATOR);
    SplitAround([LETTER], c, SEPARATOR);
  }

  lemma NamedLength(n: nat, tags: Text)
    ensures |Named(n, tags)| == n + |tags| + 2 && |InBucket(Named(n, tags))| == n + |tags| + 4
  {
  }

  lemma NamedSimple(n: nat, profile: Profile)
    requires n > 0 && n + 2 <= Budget(profile)
    ensures IsSimplePath(Named(n, []), profile) && IsSimplePath(InBucket(Named(n, [])), profile)
  {
    NamedBuckets(n, []);
    NamedIsSimple(n);
    NamedLength(n, []);
    hide Named, InBucket, Split, IsSimple;
    LetterSimple();
  }

  lemma NamedIsSimple(n: nat)
    requires n > 0
    ensures IsSimple(Named(n, []))
  {
    var c := Named(n, []);
    assert forall b :: b in c <==> b in As(n) || b == DOT || b == 0x62;
    assert c[|c| - 1] == 0x62 && |c| > 2;
  }

  lemma LetterSimple()
    ensures IsSimple([LETTER])
  {
  }

  /** Four hex digits, one name for each number. */
  function Filler(i: nat): (r: Text)
    requires i < 0x1_0000
    ensures |r| == 4
  {
    Hex([i / 0x100, i % 0x100])
  }

  lemma FillerSimple(i: nat, profile: Profile)
    requires i < 0x1_0000 && Budget(profile) >= 4
    ensures IsSimplePath(Filler(i), profile) && Split(Filler(i), SEPARATOR) == [Filler(i)]
  {
    var c := Filler(i);
    hide Hex;
    assert c[3] in c;
    SplitWhole(c, SEPARATOR);
  }

  lemma FillersDiffer(i: nat, j: nat)
    requires i < 0x1_0000 && j < 0x1_0000 && Filler(i) == Filler(j)
    ensures i == j
  {
    HexInjective([i / 0x100, i % 0x100], [j / 0x100, j % 0x100]);
    assert i == i / 0x100 * 0x100 + i % 0x100 && j == j / 0x100 * 0x100 + j % 0x100;
    assert [i / 0x100, i % 0x100][0] == [j / 0x100, j % 0x100][0] && [i / 0x100, i % 0x100][1] == [j / 0x100, j % 0x100][1];
  }

  // ---- The claims ----

  function Claim(name: Utf8, hash: Hash32): Pick {
    Pick(0, [], name, hash, 0)
  }

  function Length(profile: Profile): nat {
    if Budget(profile) > 3 then Budget(profile) - 2 else 1
  }

  /** One blob wanted twice under the longest name there is room for, and twice more in the directory `A`. */
  function Four(profile: Profile, hash: Hash32): (r: seq<Pick>)
    requires Budget(profile) > 3
    ensures |r| == 4
  {
    NamedSimple(Length(profile), profile);
    SimpleCanonical(Named(Length(profile), []), profile);
    SimpleCanonical(InBucket(Named(Length(profile), [])), profile);
    var (plain, inside) := (Claim(Named(Length(profile), []), hash), Claim(InBucket(Named(Length(profile), [])), hash));
    [plain, plain, inside, inside]
  }

  /** And under as many further names as it takes to crowd the root. */
  function Many(profile: Profile, hash: Hash32, n: nat): (r: seq<Pick>)
    requires Budget(profile) > 3 && n <= 0x1_0000
    ensures |r| == 4 + n && r[..4] == Four(profile, hash)
  {
    if n == 0 then Four(profile, hash)
    else
      FillerSimple(n - 1, profile);
      SimpleCanonical(Filler(n - 1), profile);
      Many(profile, hash, n - 1) + [Claim(Filler(n - 1), hash)]
  }

  /** A definition without 1G1R selection that lays claims out under their own names. */
  ghost predicate OwnNames(def: Definition, profile: Profile) {
    Sound(def) && def.template == NAME && def.selected.None? && def.profile == Some(profile)
  }

  lemma ClaimWanted(name: Utf8, hash: Hash32, def: Definition, profile: Profile)
    requires OwnNames(def, profile) && IsSimplePath(name, profile)
    ensures var p := Claim(name, hash);
            IsAdmitted(p, def) && Wanted(p, def) == Some(name) && WantedText(p, def) == name && WantedTagged(p, def) == Tagged(name, TagOf(hash))
  {
    hide IsSimplePath, ValidUtf8, Wanted, WantedText, Tagged, TagOf;
    SimpleWanted(Claim(name, hash), def);
  }

  /** Paths of the rows laid out so far. */
  ghost predicate FourLaid(rows: seq<ViewRow>, n: nat, tag: Text) {
    && |rows| >= 4 && rows[0].path == Named(n, []) && rows[1].path == Named(n, tag)
    && rows[2].path == InBucket(Named(n, [])) && rows[3].path == InBucket(Named(n, tag))
  }

  ghost predicate FillersLaid(rows: seq<ViewRow>, count: nat)
    requires count <= 0x1_0000
  {
    |rows| == 4 + count && forall i :: 0 <= i < count ==> rows[4 + i].path == Filler(i)
  }

  /** One more claim adds one more row, at its path or, that one taken, at its tagged path. */
  lemma NextRow(picks: seq<Pick>, pick: Pick, def: Definition, seekOf: Hash32 -> byte, path: Text)
    requires Sound(def) && IsAdmitted(pick, def)
    requires var taken := Paths(LayoutOf(picks, def, seekOf).rows);
             if path == WantedText(pick, def) then path !in taken else path == WantedTagged(pick, def) && path !in taken && WantedText(pick, def) in taken
    ensures var (rows, after) := (LayoutOf(picks, def, seekOf).rows, LayoutOf(picks + [pick], def, seekOf).rows);
            |after| == |rows| + 1 && after[..|rows|] == rows && after[|rows|].path == path && after[|rows|].hash == pick.hash
  {
    hide WantedText, WantedTagged, Sound, IsAdmitted, Placed, LayoutOf, ValidUtf8, Paths;
    OneMore(picks, pick, def, seekOf);
    PlacedThere(LayoutOf(picks, def, seekOf), pick, def, seekOf);
  }

  lemma PathOf(rows: seq<ViewRow>, path: Text)
    ensures path in Paths(rows) <==> exists k :: 0 <= k < |rows| && rows[k].path == path
  {
    if path in Paths(rows) {
      var r :| r in rows && r.path == path;
      var k :| 0 <= k < |rows| && rows[k] == r;
    }
    if k :| 0 <= k < |rows| && rows[k].path == path {
      assert rows[k] in rows;
    }
  }

  /** Two claims of one path and two of another give four rows, when no path is another's tagged one. */
  lemma FourRows(p: Pick, q: Pick, def: Definition, seekOf: Hash32 -> byte)
    requires Sound(def) && IsAdmitted(p, def) && IsAdmitted(q, def)
    requires WantedText(q, def) != WantedText(p, def) && WantedText(q, def) != WantedTagged(p, def)
    requires WantedTagged(q, def) != WantedText(p, def) && WantedTagged(q, def) != WantedTagged(p, def) && WantedTagged(q, def) != WantedText(q, def)
    ensures var rows := LayoutOf([p, p, q, q], def, seekOf).rows;
            && |rows| == 4 && rows[0].path == WantedText(p, def) && rows[1].path == WantedTagged(p, def)
            && rows[2].path == WantedText(q, def) && rows[3].path == WantedTagged(q, def)
            && rows[0].hash == rows[1].hash == p.hash && rows[2].hash == rows[3].hash == q.hash
  {
    hide LayoutOf, WantedText, WantedTagged, Sound, IsAdmitted, ValidUtf8, Paths;
    assert [p, p] + [q] == [p, p, q] && [p, p, q] + [q] == [p, p, q, q];
    SecondRow(p, p, def, seekOf);
    var two := LayoutOf([p, p], def, seekOf).rows;
    PathOf(two, WantedText(q, def));
    NextRow([p, p], q, def, seekOf, WantedText(q, def));
    var three := LayoutOf([p, p, q], def, seekOf).rows;
    assert three[0] == three[..2][0] == two[0] && three[1] == three[..2][1] == two[1];
    PathOf(three, WantedText(q, def));
    PathOf(three, WantedTagged(q, def));
    NextRow([p, p, q], q, def, seekOf, WantedTagged(q, def));
    var four := LayoutOf([p, p, q, q], def, seekOf).rows;
    assert four[0] == four[..3][0] && four[1] == four[..3][1] && four[2] == four[..3][2];
  }

  lemma NamesDiffer(n: nat, tag: Text)
    requires |tag| == SUFFIX_RESERVE
    ensures var (w, x, a, b) := (Named(n, []), Named(n, tag), InBucket(Named(n, [])), InBucket(Named(n, tag)));
            a != w && a != x && b != w && b != x && b != a
  {
    hide Named, InBucket;
    NamedLength(n, []);
    NamedLength(n, tag);
  }

  lemma FourAreLaid(def: Definition, profile: Profile, hash: Hash32, seekOf: Hash32 -> byte)
    requires OwnNames(def, profile) && Budget(profile) > 3
    ensures var rows := LayoutOf(Four(profile, hash), def, seekOf).rows;
            |rows| == 4 && FourLaid(rows, Length(profile), TagOf(hash)) && FillersLaid(rows, 0) && forall k :: 0 <= k < 4 ==> rows[k].hash == hash
    ensures forall p :: p in Four(profile, hash) ==> Wanted(p, def).Some?
  {
    hide *;
    SoundOf(def, profile);
    var w, a := FourIs(profile, hash);
    FourNamed(w, a, def, profile, hash, seekOf);
  }

  lemma FourIs(profile: Profile, hash: Hash32) returns (w: Utf8, a: Utf8)
    requires Budget(profile) > 3
    ensures Length(profile) > 0 && w == Named(Length(profile), []) && a == InBucket(w) && IsSimplePath(w, profile) && IsSimplePath(a, profile)
    ensures Four(profile, hash) == [Claim(w, hash), Claim(w, hash), Claim(a, hash), Claim(a, hash)]
  {
    hide IsSimplePath, Named, InBucket, ValidUtf8, IsCanonical;
    NamedSimple(Length(profile), profile);
    SimpleCanonical(Named(Length(profile), []), profile);
    SimpleCanonical(InBucket(Named(Length(profile), [])), profile);
    w, a := Named(Length(profile), []), InBucket(Named(Length(profile), []));
  }

  lemma FourNamed(w: Utf8, a: Utf8, def: Definition, profile: Profile, hash: Hash32, seekOf: Hash32 -> byte)
    requires OwnNames(def, profile) && Sound(def) && IsSimplePath(w, profile) && IsSimplePath(a, profile)
    requires Length(profile) > 0 && w == Named(Length(profile), []) && a == InBucket(w)
    ensures var rows := LayoutOf([Claim(w, hash), Claim(w, hash), Claim(a, hash), Claim(a, hash)], def, seekOf).rows;
            |rows| == 4 && FourLaid(rows, Length(profile), TagOf(hash)) && FillersLaid(rows, 0) && forall k :: 0 <= k < 4 ==> rows[k].hash == hash
    ensures Wanted(Claim(w, hash), def).Some? && Wanted(Claim(a, hash), def).Some?
  {
    hide LayoutOf, OwnNames, Wanted, WantedText, WantedTagged, TagOf, Tagged, Named, IsSimplePath, InBucket, IsAdmitted, ValidUtf8, Length, Sound;
    var (n, tag) := (Length(profile), TagOf(hash));
    ClaimWanted(w, hash, def, profile);
    ClaimWanted(a, hash, def, profile);
    NamedTagged(n, [], tag);
    assert [] + tag == tag;
    NamesDiffer(n, tag);
    FourRows(Claim(w, hash), Claim(a, hash), def, seekOf);
  }

  lemma SoundOf(def: Definition, profile: Profile)
    requires OwnNames(def, profile)
    ensures Sound(def) && Budget(profile) >= LEAST_NAME_LEN - SUFFIX_RESERVE
  {
  }

  lemma FillerFresh(rows: seq<ViewRow>, n: nat, tag: Text, i: nat)
    requires i < 0x1_0000 && FourLaid(rows, n, tag) && FillersLaid(rows, i) && n > 2
    ensures Filler(i) !in Paths(rows)
  {
    hide Named, InBucket, Filler, Paths;
    NamedLength(n, []);
    NamedLength(n, tag);
    forall k | 0 <= k < |rows| ensures rows[k].path != Filler(i) {
      if k >= 4 && rows[4 + (k - 4)].path == Filler(i) {
        FillersDiffer(k - 4, i);
      }
    }
    PathOf(rows, Filler(i));
  }

  lemma LaidLonger(rows: seq<ViewRow>, after: seq<ViewRow>, n: nat, tag: Text, i: nat)
    requires i < 0x1_0000 && FourLaid(rows, n, tag) && FillersLaid(rows, i)
    requires |after| == |rows| + 1 && after[..|rows|] == rows && after[|rows|].path == Filler(i)
    ensures FourLaid(after, n, tag) && FillersLaid(after, i + 1)
  {
    hide Named, InBucket, Filler;
    assert forall k :: 0 <= k < |rows| ==> after[k] == after[..|rows|][k];
  }

  lemma FillerLaid(def: Definition, profile: Profile, hash: Hash32, i: nat, picks: seq<Pick>, seekOf: Hash32 -> byte)
    requires OwnNames(def, profile) && i < 0x1_0000 && ValidUtf8(Filler(i)) && Sound(def)
    requires FourLaid(LayoutOf(picks, def, seekOf).rows, Length(profile), TagOf(hash)) && FillersLaid(LayoutOf(picks, def, seekOf).rows, i)
    ensures var (rows, after, claim) := (LayoutOf(picks, def, seekOf).rows, LayoutOf(picks + [Claim(Filler(i), hash)], def, seekOf).rows, Claim(Filler(i), hash));
            && FourLaid(after, Length(profile), TagOf(hash)) && FillersLaid(after, i + 1)
            && |after| == |rows| + 1 && after[..|rows|] == rows && after[|rows|].hash == hash && Wanted(claim, def).Some?
  {
    var (n, tag) := (Length(profile), TagOf(hash));
    SoundOf(def, profile);
    assert n > 2;
    FillerSimple(i, profile);
    hide LayoutOf, OwnNames, Wanted, WantedText, WantedTagged, TagOf, Tagged, IsSimplePath, IsAdmitted, ValidUtf8, Paths, Filler, FourLaid, FillersLaid, Sound, Length;
    ClaimWanted(Filler(i), hash, def, profile);
    var rows := LayoutOf(picks, def, seekOf).rows;
    FillerFresh(rows, n, tag, i);
    NextRow(picks, Claim(Filler(i), hash), def, seekOf, Filler(i));
    LaidLonger(rows, LayoutOf(picks + [Claim(Filler(i), hash)], def, seekOf).rows, n, tag, i);
  }

  lemma {:induction false} ManyLaid(def: Definition, profile: Profile, hash: Hash32, n: nat, seekOf: Hash32 -> byte)
    requires OwnNames(def, profile) && Budget(profile) > 3 && n <= 0x1_0000
    ensures FourLaid(LayoutOf(Many(profile, hash, n), def, seekOf).rows, Length(profile), TagOf(hash))
    ensures FillersLaid(LayoutOf(Many(profile, hash, n), def, seekOf).rows, n)
    ensures forall k :: 0 <= k < |LayoutOf(Many(profile, hash, n), def, seekOf).rows| ==> LayoutOf(Many(profile, hash, n), def, seekOf).rows[k].hash == hash
    ensures forall p :: p in Many(profile, hash, n) ==> Wanted(p, def).Some?
  {
    hide FourLaid, FillersLaid, LayoutOf, OwnNames, Wanted, Four, Filler, TagOf, Sound, ValidUtf8, IsSimplePath, IsCanonical;
    if n == 0 {
      FourAreLaid(def, profile, hash, seekOf);
    } else {
      ManyLaid(def, profile, hash, n - 1, seekOf);
      FillerSimple(n - 1, profile);
      SimpleCanonical(Filler(n - 1), profile);
      SoundOf(def, profile);
      var (picks, claim) := (Many(profile, hash, n - 1), Claim(Filler(n - 1), hash));
      FillerLaid(def, profile, hash, n - 1, picks, seekOf);
      var (rows, after) := (LayoutOf(picks, def, seekOf).rows, LayoutOf(picks + [claim], def, seekOf).rows);
      assert forall k :: 0 <= k < |rows| ==> after[k] == after[..|rows|][k];
    }
  }

  // ---- The root is crowded ----

  ghost function Fillers(n: nat): (r: set<Text>)
    requires n <= 0x1_0000
    ensures forall i: nat :: i < n ==> Filler(i) in r
    ensures forall c :: c in r ==> exists i: nat :: i < n && c == Filler(i)
  {
    if n == 0 then {} else Fillers(n - 1) + {Filler(n - 1)}
  }

  lemma {:induction false} FillersCount(n: nat)
    requires n <= 0x1_0000
    ensures |Fillers(n)| == n
  {
    hide Filler;
    if n > 0 {
      FillersCount(n - 1);
      if Filler(n - 1) in Fillers(n - 1) {
        var i: nat :| i < n - 1 && Filler(n - 1) == Filler(i);
        FillersDiffer(n - 1, i);
      }
    }
  }

  lemma {:induction false} SubsetSize(a: set<Text>, b: set<Text>)
    requires a <= b
    ensures |a| <= |b|
    decreases |a|
  {
    if a != {} {
      var x :| x in a;
      SubsetSize(a - {x}, b - {x});
    }
  }

  lemma RootCrowded(rows: seq<ViewRow>, count: nat, profile: Profile, cap: nat)
    requires count <= 0x1_0000 && FillersLaid(rows, count) && cap < count && Budget(profile) >= 4
    ensures IsCrowded(rows, cap, [])
  {
    hide Filler, Children, FillersLaid, Fillers;
    forall c | c in Fillers(count) ensures c in Children(rows, []) {
      var i: nat :| i < count && c == Filler(i);
      FillerChild(rows, count, i, profile);
    }
    FillersCount(count);
    SubsetSize(Fillers(count), Children(rows, []));
  }

  lemma FillerChild(rows: seq<ViewRow>, count: nat, i: nat, profile: Profile)
    requires i < count <= 0x1_0000 && FillersLaid(rows, count) && Budget(profile) >= 4
    ensures Filler(i) in Children(rows, [])
  {
    hide Filler, Children, Split;
    FillerSimple(i, profile);
    assert rows[4 + i] in rows && rows[4 + i].path == Filler(i);
    assert ChildAt(Filler(i), 0, [], Filler(i));
    assert IsChild(rows, [], Filler(i));
  }

  // ---- The second tag ----

  /** The second row's turn: its place in the bucket is the fourth row's, so it is tagged once more. */
  lemma SecondTag(rows: seq<ViewRow>, crowded: set<Text>, n: nat, hash: Hash32, count: nat)
    requires AllOk(rows, RowOk) && n > 2 && count <= 0x1_0000 && FourLaid(rows, n, TagOf(hash)) && FillersLaid(rows, count) && rows[1].hash == hash && [] in crowded
    ensures MovedTo(rows, |rows|, crowded)[1].path == InBucket(Named(n, TagOf(hash) + TagOf(hash)))
  {
    var tag := TagOf(hash);
    ViewLayout.TagPlain(hash);
    hide MovedTo, TagOf, Named, InBucket, Bucketed, Tagged, AllOk, Parent, Filler, Others, ValidUtf8, RowOk;
    NamedBuckets(n, tag);
    NamedTagged(n, tag, tag);
    var was := MovedTo(rows, 1, crowded);
    MovedOnce(rows, |rows|, crowded, 1);
    MovedOnce(rows, 1, crowded, 1);
    MovedOnce(rows, 1, crowded, 3);
    OthersHas(was, 1, 3);
    TooLong(rows, crowded, n, tag, count);
    RowsAreOk(was, 1);
    MovedTwice(was, crowded);
  }

  lemma OthersHas(rows: seq<ViewRow>, i: nat, k: nat)
    requires i < |rows| && k < |rows| && k != i
    ensures rows[k].path in Others(rows, i)
  {
  }

  lemma MovedTwice(rows: seq<ViewRow>, crowded: set<Text>)
    requires |rows| > 1 && AllOk(rows, RowOk) && Parent(rows[1].path) in crowded
    requires Bucketed(rows[1].path) in Others(rows, 1) && BucketTagged(rows[1]) !in Others(rows, 1)
    ensures Moved(rows, 1, crowded)[1].path == BucketTagged(rows[1])
  {
    hide Bucketed, BucketTagged, Others, Parent, AllOk;
  }

  /** No other row's path is as long as the second row's with two tags. */
  lemma TooLong(rows: seq<ViewRow>, crowded: set<Text>, n: nat, tag: Text, count: nat)
    requires AllOk(rows, RowOk) && n > 2 && count <= 0x1_0000 && |tag| == SUFFIX_RESERVE && FourLaid(rows, n, tag) && FillersLaid(rows, count)
    ensures InBucket(Named(n, tag + tag)) !in Others(MovedTo(rows, 1, crowded), 1)
  {
    hide Named, InBucket, Bucketed, Tagged, AllOk, Parent, Filler, MovedTo, TagOf;
    NamedLength(n, []);
    NamedLength(n, tag);
    NamedLength(n, tag + tag);
    var was := MovedTo(rows, 1, crowded);
    forall k | 0 <= k < |rows| && k != 1 ensures |was[k].path| <= n + 15 {
      MovedOnce(rows, 1, crowded, k);
      if k == 0 {
        FirstMove(rows, crowded, n);
      } else if k >= 4 {
        assert rows[4 + (k - 4)].path == Filler(k - 4);
      }
    }
  }

  lemma FirstMove(rows: seq<ViewRow>, crowded: set<Text>, n: nat)
    requires |rows| > 0 && AllOk(rows, RowOk) && rows[0].path == Named(n, []) && n > 0
    ensures |MovedTo(rows, 1, crowded)[0].path| <= n + 15
  {
    var tag := TagOf(rows[0].hash);
    hide Named, InBucket, Tagged, TagOf, Bucketed, AllOk, Moved, ValidUtf8;
    NamedBuckets(n, []);
    NamedTagged(n, [], tag);
    NamedLength(n, []);
    NamedLength(n, [] + tag);
    assert MovedTo(rows, 0, crowded) == rows;
    assert MovedTo(rows, 1, crowded) == Moved(rows, 0, crowded);
    hide MovedTo;
    FirstPlaces(rows, crowded);
  }

  lemma FirstPlaces(rows: seq<ViewRow>, crowded: set<Text>)
    requires |rows| > 0 && AllOk(rows, RowOk)
    ensures var path := Moved(rows, 0, crowded)[0].path;
            path == rows[0].path || path == Bucketed(rows[0].path) || path == Tagged(Bucketed(rows[0].path), TagOf(rows[0].hash))
  {
    hide Bucketed, Tagged, TagOf, AllOk, Others, Parent, ValidUtf8;
  }

  /**
   Under each built-in profile there is a view with a name of one tag more than the
   profile's cap: one blob wanted twice at the longest name, twice more at that name in
   the directory `A`, and enough other files to crowd the root.
   */
  method TagPastCap(device: Device, hash: Hash32, def: Definition, seekOf: Hash32 -> byte) returns (r: Option<Evaluation>, ghost crowded: set<Text>)
    requires OwnNames(def, ProfileOf(device)) && forall h :: seekOf(h) <= MOST_OPAQUE
    ensures r.Some? && |r.value.rows| > 1 && |Leaf(r.value.rows[1].path)| == ProfileOf(device).maxNameLen + SUFFIX_RESERVE
  {
    var profile := ProfileOf(device);
    var cap := profile.maxDirEntries.value;
    SoundOf(def, profile);
    assert Length(profile) + 2 == profile.maxNameLen - SUFFIX_RESERVE && cap < 0x1_0000 && Budget(profile) > 3 && Length(profile) > 2;
    assert EntryCap(def) == Some(cap) && Sound(def);
    var picks := Many(profile, hash, cap + 1);
    PicksLaid(def, profile, hash, cap + 1, seekOf);
    hide *;
    ghost var left;
    r, crowded, left := EvaluateRows(picks, def, seekOf);
    SecondPast(LaidOut(picks, def, seekOf).value.rows, profile, hash, cap, crowded);
  }

  /** No claim stops the layout, and these are its rows. */
  lemma PicksLaid(def: Definition, profile: Profile, hash: Hash32, n: nat, seekOf: Hash32 -> byte)
    requires OwnNames(def, profile) && Budget(profile) > 3 && n <= 0x1_0000
    ensures Sound(def) && LaidOut(Many(profile, hash, n), def, seekOf).Some? && !AnyHalts(Many(profile, hash, n), def)
    ensures RowsLaid(LaidOut(Many(profile, hash, n), def, seekOf).value.rows, profile, hash, n)
  {
    ManyLaid(def, profile, hash, n, seekOf);
    hide Many, LayoutOf, Wanted, FourLaid, FillersLaid;
  }

  ghost predicate RowsLaid(rows: seq<ViewRow>, profile: Profile, hash: Hash32, n: nat)
    requires n <= 0x1_0000 && Budget(profile) > 3
  {
    FourLaid(rows, Length(profile), TagOf(hash)) && FillersLaid(rows, n) && forall k :: 0 <= k < |rows| ==> rows[k].hash == hash
  }

  /** The second of the rows goes past the cap. */
  lemma SecondPast(laid: seq<ViewRow>, profile: Profile, hash: Hash32, cap: nat, crowded: set<Text>)
    requires cap < 0x1_0000 && Budget(profile) > 3 && Length(profile) > 2 && Length(profile) + 2 == profile.maxNameLen - SUFFIX_RESERVE
    requires RowsLaid(laid, profile, hash, cap + 1) && AllOk(laid, RowOk) && forall dir :: dir in crowded <==> IsCrowded(laid, cap, dir)
    ensures |laid| > 1 && |Leaf(MovedTo(laid, |laid|, crowded)[1].path)| == profile.maxNameLen + SUFFIX_RESERVE
  {
    var (n, tag) := (Length(profile), TagOf(hash));
    assert |laid| > 1 && |tag| == SUFFIX_RESERVE;
    hide FourLaid, FillersLaid, MovedTo, IsCrowded, TagOf, AllOk, Named, InBucket, Leaf, Bucketed, Parent, Split;
    RootCrowded(laid, cap + 1, profile, cap);
    SecondTag(laid, crowded, n, hash, cap + 1);
    ViewLayout.TagPlain(hash);
    NamedBuckets(n, tag + tag);
    NamedLength(n, tag + tag);
  }
}
