/**
 Crowded directories (views.rs): the files of a directory with more children than
 the target can list move down one level, into alphabetical buckets.
 */
module ViewBuckets {
  import opened Wrappers
  import opened Bytes
  import opened Objects
  import opened SnapshotObject
  import opened ViewPaths
  import opened ViewProfiles
  import opened ViewManifest
  import opened ViewLayout

  // ---- Directories ----

  /** The directory a path lies in; the root is the empty path. */
  function Parent(path: Text): Text {
    var cut := RSplitOnce(path, SEPARATOR);
    if cut.Some? then cut.value.0 else []
  }

  /** A directory's path from its components. */
  function Directory(parts: seq<Text>): Text {
    if parts == [] then [] else Join(parts, SEPARATOR)
  }

  ghost predicate ChildAt(path: Text, k: nat, dir: Text, leaf: Text) {
    k < |Split(path, SEPARATOR)| && dir == Directory(Split(path, SEPARATOR)[..k]) && leaf == Split(path, SEPARATOR)[k]
  }

  /** Some row lies in `dir` at or below the name `leaf`. */
  ghost predicate IsChild(rows: seq<ViewRow>, dir: Text, leaf: Text) {
    exists r, k :: r in rows && ChildAt(r.path, k, dir, leaf)
  }

  /** The immediate children of a directory, files and directories alike. */
  ghost function Children(rows: seq<ViewRow>, dir: Text): (s: set<Text>)
    ensures forall leaf :: leaf in s <==> IsChild(rows, dir, leaf)
  {
    var all := set r, c | r in rows && c in Split(r.path, SEPARATOR) :: c;
    forall leaf | IsChild(rows, dir, leaf) ensures leaf in all {
      var r, k :| r in rows && ChildAt(r.path, k, dir, leaf);
      assert leaf in Split(r.path, SEPARATOR);
    }
    set leaf | leaf in all && IsChild(rows, dir, leaf)
  }

  /** The last cut of a joined path is before its last component. */
  lemma {:induction false} RSplitJoin(parts: seq<Text>)
    requires parts != [] && forall c :: c in parts ==> SEPARATOR !in c
    ensures RSplitOnce(Join(parts, SEPARATOR), SEPARATOR)
         == if |parts| == 1 then None else Some((Directory(parts[..|parts| - 1]), parts[|parts| - 1]))
  {
    if |parts| > 1 {
      var n := |parts| - 1;
      assert parts[n] in parts && parts == parts[..n] + [parts[n]];
      JoinAppend(parts[..n], parts[n]);
      LastSeparator(Join(parts[..n], SEPARATOR), parts[n]);
    } else {
      assert parts[0] in parts;
    }
  }

  lemma {:induction false} JoinAppend(parts: seq<Text>, c: Text)
    requires parts != []
    ensures Join(parts + [c], SEPARATOR) == Join(parts, SEPARATOR) + [SEPARATOR] + c
  {
    if |parts| > 1 {
      assert (parts + [c])[1..] == parts[1..] + [c];
      JoinAppend(parts[1..], c);
    } else {
      assert (parts + [c])[1..] == [c];
    }
  }

  lemma {:induction false} LastSeparator(a: Text, b: Text)
    requires SEPARATOR !in b
    ensures RSplitOnce(a + [SEPARATOR] + b, SEPARATOR) == Some((a, b))
  {
    var s := a + [SEPARATOR] + b;
    if b == [] {
      assert s[..|s| - 1] == a;
    } else {
      assert s[..|s| - 1] == a + [SEPARATOR] + b[..|b| - 1] && s[|s| - 1] == b[|b| - 1];
      LastSeparator(a, b[..|b| - 1]);
      assert b == b[..|b| - 1] + [b[|b| - 1]];
    }
  }

  type Directories = map<Text, set<Text>>

  function WithChild(m: Directories, dir: Text, leaf: Text): Directories {
    m[dir := (if dir in m then m[dir] else {}) + {leaf}]
  }

  predicate Holds(m: Directories, dir: Text, leaf: Text) {
    dir in m && leaf in m[dir]
  }

  /** `dir_children`: the children of every directory on the way to some row. */
  method DirChildren(rows: seq<ViewRow>) returns (m: Directories)
    ensures forall dir :: dir in m <==> Children(rows, dir) != {}
    ensures forall dir :: dir in m ==> m[dir] == Children(rows, dir)
  {
    hide Children, Split;
    m := map[];
    for i := 0 to |rows|
      invariant forall dir, leaf :: Holds(m, dir, leaf) <==> IsChild(rows[..i], dir, leaf)
      invariant forall dir :: dir in m ==> m[dir] != {}
    {
      var before := m;
      m := AddPath(m, rows[i].path);
      forall dir, leaf ensures Holds(m, dir, leaf) <==> IsChild(rows[..i + 1], dir, leaf) {
        assert rows[..i + 1] == rows[..i] + [rows[i]];
        ChildOfMore(rows[..i], rows[i], dir, leaf);
      }
    }
    assert rows[..|rows|] == rows;
    forall dir ensures (dir in m <==> Children(rows, dir) != {}) && (dir in m ==> m[dir] == Children(rows, dir)) {
      assert forall leaf :: leaf in Children(rows, dir) <==> Holds(m, dir, leaf);
      if dir in m {
        assert forall leaf :: leaf in m[dir] <==> leaf in Children(rows, dir);
      }
    }
  }

  lemma ChildOfMore(rows: seq<ViewRow>, row: ViewRow, dir: Text, leaf: Text)
    ensures IsChild(rows + [row], dir, leaf) <==> IsChild(rows, dir, leaf) || exists k :: ChildAt(row.path, k, dir, leaf)
  {
    hide ChildAt;
    var more := rows + [row];
    assert forall r :: r in more <==> r in rows || r == row;
  }

  /** One row's path, walked up to the root. */
  method AddPath(m0: Directories, path: Text) returns (m: Directories)
    requires forall dir :: dir in m0 ==> m0[dir] != {}
    ensures forall dir, leaf :: Holds(m, dir, leaf) <==> Holds(m0, dir, leaf) || exists k :: ChildAt(path, k, dir, leaf)
    ensures forall dir :: dir in m ==> m[dir] != {}
  {
    ghost var parts := Split(path, SEPARATOR);
    JoinSplit(path, SEPARATOR);
    m := m0;
    var node := path;
    ghost var k := |parts| - 1;
    assert parts[..k + 1] == parts;
    hide Split, Join;
    while true
      invariant 0 <= k < |parts| && node == Join(parts[..k + 1], SEPARATOR)
      invariant forall dir, leaf :: Holds(m, dir, leaf) <==> Holds(m0, dir, leaf) || exists j :: k < j && ChildAt(path, j, dir, leaf)
      invariant forall dir :: dir in m ==> m[dir] != {}
      decreases k
    {
      assert forall c :: c in parts[..k + 1] ==> c in parts;
      RSplitJoin(parts[..k + 1]);
      assert parts[..k + 1][..k] == parts[..k];
      var cut := RSplitOnce(node, SEPARATOR);
      if cut.None? {
        LevelAdded(m0, m, path, k, [], node);
        m := WithChild(m, [], node);
        break;
      }
      LevelAdded(m0, m, path, k, cut.value.0, cut.value.1);
      m := WithChild(m, cut.value.0, cut.value.1);
      node := cut.value.0;
      k := k - 1;
    }
  }

  lemma LevelAdded(m0: Directories, m: Directories, path: Text, k: nat, dir: Text, leaf: Text)
    requires ChildAt(path, k, dir, leaf)
    requires forall d, l :: Holds(m, d, l) <==> Holds(m0, d, l) || exists j :: k < j && ChildAt(path, j, d, l)
    ensures forall d, l :: Holds(WithChild(m, dir, leaf), d, l) <==> Holds(m0, d, l) || exists j :: k <= j && ChildAt(path, j, d, l)
    ensures (forall d :: d in m ==> m[d] != {}) ==> forall d :: d in WithChild(m, dir, leaf) ==> WithChild(m, dir, leaf)[d] != {}
  {
    hide Split;
    var after := WithChild(m, dir, leaf);
    forall d, l ensures Holds(after, d, l) <==> Holds(m0, d, l) || exists j :: k <= j && ChildAt(path, j, d, l) {
      assert Holds(after, d, l) <==> Holds(m, d, l) || (d == dir && l == leaf);
      if exists j :: k <= j && ChildAt(path, j, d, l) {
        var j :| k <= j && ChildAt(path, j, d, l);
        assert j == k ==> d == dir && l == leaf;
      }
    }
    assert leaf in after[dir];
  }

  // ---- Moving rows ----

  /** A path one bucket further down. */
  function Bucketed(path: Text): Text {
    var leaf := Leaf(path);
    if Parent(path) == [] then AlphaBucket(leaf) + [SEPARATOR] + leaf
    else Parent(path) + [SEPARATOR] + AlphaBucket(leaf) + [SEPARATOR] + leaf
  }

  lemma PartsOfPath(path: Text)
    requires IsCanonical(path)
    ensures GoodComponent(Leaf(path))
    ensures Parent(path) == [] ==> path == Leaf(path) && Split(path, SEPARATOR) == [Leaf(path)]
    ensures Parent(path) != [] ==> Split(path, SEPARATOR) == Split(Parent(path), SEPARATOR) + [Leaf(path)]
    ensures ValidUtf8(path) ==> ValidUtf8(Leaf(path)) && ValidUtf8(Parent(path))
  {
    CanonicalParts(path);
    SplitWhole(Leaf(path), SEPARATOR);
    var cut := RSplitOnce(path, SEPARATOR);
    if cut.Some? {
      SplitAround(cut.value.0, cut.value.1, SEPARATOR);
      assert cut.value.0 == [] ==> [] in Split(path, SEPARATOR);
      if ValidUtf8(path) {
        AsciiCuts(cut.value.0, SEPARATOR, cut.value.1);
      }
    }
    assert Leaf(path) in Split(path, SEPARATOR);
  }

  /** The directory of a bucketed path. */
  function BucketDir(path: Text): Text {
    (if Parent(path) == [] then [] else Parent(path) + [SEPARATOR]) + AlphaBucket(Leaf(path))
  }

  /** A bucketed path lies in a bucket of its old directory and keeps its leaf. */
  lemma BucketedLies(path: Text)
    requires IsCanonical(path)
    ensures Bucketed(path) == BucketDir(path) + [SEPARATOR] + Leaf(path)
    ensures Leaf(Bucketed(path)) == Leaf(path) && Parent(Bucketed(path)) == BucketDir(path) && |Bucketed(path)| == |path| + 2
  {
    PathLength(path);
    hide AlphaBucket, IsCanonical, RSplitOnce;
    assert Bucketed(path) == BucketDir(path) + [SEPARATOR] + Leaf(path);
    LastSeparator(BucketDir(path), Leaf(path));
    LeafParent(Bucketed(path), BucketDir(path), Leaf(path));
  }

  /** Its components are the old ones and the bucket. */
  lemma BucketedParts(path: Text)
    requires IsCanonical(path)
    ensures forall c :: c in Split(Bucketed(path), SEPARATOR) ==> c in Split(path, SEPARATOR) || c == AlphaBucket(Leaf(path))
  {
    PartsOfPath(path);
    BucketedLies(path);
    var (parent, leaf) := (Parent(path), Leaf(path));
    var bucket := AlphaBucket(leaf);
    BucketPlain(leaf);
    hide Split, AlphaBucket, Leaf, Parent, Bucketed, IsCanonical;
    SplitWhole(leaf, SEPARATOR);
    SplitWhole(bucket, SEPARATOR);
    SplitAround(parent, bucket, SEPARATOR);
    SplitAround(BucketDir(path), leaf, SEPARATOR);
    assert parent == [] ==> BucketDir(path) == bucket;
    assert parent != [] ==> BucketDir(path) == parent + [SEPARATOR] + bucket;
  }

  /** A bucketed path is canonical, and no component grows. */
  lemma BucketedIsCanonical(path: Text, n: nat)
    requires IsCanonical(path) && ValidUtf8(path) && n >= 1
    ensures IsCanonical(Bucketed(path)) && ValidUtf8(Bucketed(path))
    ensures Within(path, n) ==> Within(Bucketed(path), n)
  {
    CanonicalParts(path);
    CanonicalParts(Bucketed(path));
    BucketedParts(path);
    BucketPlain(Leaf(path));
    PartsOfPath(path);
    BucketUtf8(Parent(path), AlphaBucket(Leaf(path)), Leaf(path));
    hide Split, AlphaBucket, ValidUtf8, Leaf, GoodComponent, Parent;
  }

  lemma LeafParent(path: Text, dir: Text, leaf: Text)
    requires RSplitOnce(path, SEPARATOR) == Some((dir, leaf))
    ensures Leaf(path) == leaf && Parent(path) == dir
  {
  }

  lemma PathLength(path: Text)
    requires IsCanonical(path)
    ensures |path| == |Leaf(path)| + if Parent(path) == [] then 0 else |Parent(path)| + 1
  {
    PartsOfPath(path);
  }

  lemma BucketUtf8(parent: Text, bucket: Text, leaf: Text)
    requires ValidUtf8(parent) && ValidUtf8(bucket) && ValidUtf8(leaf)
    ensures ValidUtf8(bucket + [SEPARATOR] + leaf) && ValidUtf8(parent + [SEPARATOR] + bucket + [SEPARATOR] + leaf)
  {
    AsciiUtf8(SEPARATOR);
    hide ValidUtf8;
    ConcatUtf8(bucket, [SEPARATOR]);
    ConcatUtf8(bucket + [SEPARATOR], leaf);
    ConcatUtf8(parent, [SEPARATOR]);
    ConcatUtf8(parent + [SEPARATOR], bucket);
    ConcatUtf8(parent + [SEPARATOR] + bucket, [SEPARATOR]);
    ConcatUtf8(parent + [SEPARATOR] + bucket + [SEPARATOR], leaf);
  }

  /** The paths of all rows but one. */
  ghost function Others(rows: seq<ViewRow>, i: nat): set<Text> {
    set k | 0 <= k < |rows| && k != i :: rows[k].path
  }

  function BucketTagged(row: ViewRow): Text {
    Tagged(Bucketed(row.path), TagOf(row.hash))
  }

  lemma TargetsCanonical(row: ViewRow, n: nat)
    requires IsCanonical(row.path) && n >= 1
    ensures IsCanonical(Bucketed(row.path)) && ValidUtf8(Bucketed(row.path)) && IsCanonical(BucketTagged(row)) && ValidUtf8(BucketTagged(row))
    ensures Within(row.path, n) ==> Within(Bucketed(row.path), n) && Within(BucketTagged(row), n + SUFFIX_RESERVE)
  {
    hide Bucketed, Tagged, TagOf, IsCanonical, Within, ValidUtf8;
    BucketedIsCanonical(row.path, n);
    TaggedIsCanonical(Bucketed(row.path), row.hash, n);
  }

  // ---- Where a tag lands ----

  /** No dot has anything before it. */
  predicate PlainFront(path: Text) {
    DOT !in path || (path[0] == DOT && DOT !in path[1..])
  }

  /** The path's last dot is in its leaf, or there is no dot with something before it. */
  predicate TagsLeaf(path: Text) {
    DOT in Leaf(path) || PlainFront(path)
  }

  /** The tag goes before the last dot of the whole path, so a tagged path keeps its directory exactly when that dot is not in the directory's name. */
  lemma TagKeepsDirectory(path: Text, hash: Hash32)
    requires path != []
    ensures Parent(Tagged(path, TagOf(hash))) == Parent(path) <==> TagsLeaf(path)
    ensures !TagsLeaf(path) ==> Leaf(Tagged(path, TagOf(hash))) == Leaf(path)
  {
    ViewLayout.TagPlain(hash);
    var (tag, at) := (TagOf(hash), TagPoint(path));
    hide TagOf, ValidUtf8;
    var cut := RSplitOnce(path, SEPARATOR);
    if cut.None? {
      assert SEPARATOR !in Tagged(path, tag);
    } else {
      var (dir, leaf) := cut.value;
      TagPointSide(path, dir, leaf);
      hide TagPoint, RSplitOnce, TagsLeaf, Parent, Leaf;
      LeafParent(path, dir, leaf);
      InsertSides(dir, leaf, tag, at);
    }
  }

  /** Text put behind the last slash changes the leaf, text put before it changes the directory. */
  lemma InsertSides(dir: Text, leaf: Text, tag: Text, at: nat)
    requires SEPARATOR !in leaf && SEPARATOR !in tag && tag != [] && at <= |dir| + 1 + |leaf|
    ensures var whole := Insert(dir + [SEPARATOR] + leaf, at, tag);
      if at > |dir| then Parent(whole) == dir else Leaf(whole) == leaf && Parent(whole) != dir
  {
    var (path, whole) := (dir + [SEPARATOR] + leaf, Insert(dir + [SEPARATOR] + leaf, at, tag));
    hide RSplitOnce;
    if at > |dir| {
      var inner := at - |dir| - 1;
      var tagged := leaf[..inner] + tag + leaf[inner..];
      assert whole == dir + [SEPARATOR] + tagged;
      LastSeparator(dir, tagged);
      LeafParent(whole, dir, tagged);
    } else {
      var tagged := dir[..at] + tag + dir[at..];
      assert whole == tagged + [SEPARATOR] + leaf;
      LastSeparator(tagged, leaf);
      LeafParent(whole, tagged, leaf);
      assert |tagged| > |dir|;
    }
  }

  lemma TagPointSide(path: Text, dir: Text, leaf: Text)
    requires path == dir + [SEPARATOR] + leaf && Leaf(path) == leaf && SEPARATOR !in leaf
    ensures TagPoint(path) > |dir| <==> TagsLeaf(path)
  {
    var cut := RSplitOnce(path, DOT);
    hide RSplitOnce, Leaf;
    if cut.Some? {
      var (stem, ext) := cut.value;
      var at := |stem|;
      assert path[at] == DOT && path[|dir|] == SEPARATOR;
      if at > |dir| {
        assert leaf[at - |dir| - 1] == DOT;
      } else {
        assert path[at + 1..] == ext && path[|dir| + 1..] == leaf;
        assert leaf == ext[|dir| - at..];
        if at > 0 {
          assert path[1..][at - 1] == DOT;
        } else {
          assert path[1..] == ext;
        }
      }
    }
  }

  /** So a row tagged in its bucket lies in the bucket exactly when its leaf has a dot or no directory above it has one with something before it. */
  lemma TagKeepsBucket(row: ViewRow)
    requires IsCanonical(row.path)
    ensures Parent(BucketTagged(row)) == Parent(Bucketed(row.path)) <==> TagsLeaf(row.path)
  {
    hide IsCanonical, Tagged, TagOf;
    BucketedLies(row.path);
    PartsOfPath(row.path);
    TagKeepsDirectory(Bucketed(row.path), row.hash);
    BucketPlain(Leaf(row.path));
    BucketDots(row.path);
  }

  lemma BucketDots(path: Text)
    requires IsCanonical(path)
    ensures TagsLeaf(Bucketed(path)) <==> TagsLeaf(path)
  {
    BucketedLies(path);
    PartsOfPath(path);
    hide IsCanonical, Leaf, Parent, RSplitOnce;
    if DOT !in Leaf(path) {
      DotsBetween(Parent(path), AlphaBucket(Leaf(path)), Leaf(path));
    }
    if Parent(path) != [] {
      WholePath(path);
    }
  }

  lemma WholePath(path: Text)
    requires Parent(path) != []
    ensures path == Parent(path) + [SEPARATOR] + Leaf(path)
  {
    hide RSplitOnce;
  }

  /** A bucket puts no dot into a path, and where the leaf has none it moves none to the front. */
  lemma DotsBetween(parent: Text, bucket: Text, leaf: Text)
    requires |bucket| == 1 && bucket[0] != DOT && DOT !in leaf
    ensures PlainFront(bucket + [SEPARATOR] + leaf) && PlainFront(leaf)
    ensures parent != [] ==> (PlainFront(parent + [SEPARATOR] + bucket + [SEPARATOR] + leaf) <==> PlainFront(parent + [SEPARATOR] + leaf))
  {
    if parent != [] {
      var (path, whole) := (parent + [SEPARATOR] + leaf, parent + [SEPARATOR] + bucket + [SEPARATOR] + leaf);
      assert path[1..] == parent[1..] + [SEPARATOR] + leaf && whole[1..] == parent[1..] + [SEPARATOR] + bucket + [SEPARATOR] + leaf;
      assert DOT in path <==> DOT in parent;
      assert DOT in whole <==> DOT in parent;
    }
  }

  /** A leaf `A` without a dot, in a directory with a dot in it: in `v1.0` it goes to `v1 (tag).0/A/A`, out of its bucket and its directory. */
  lemma DottedDirectory(row: ViewRow, name: Text, ext: Text)
    requires row.path == name + [DOT] + ext + [SEPARATOR] + LETTER_A && name != [] && DOT !in ext
    ensures Bucketed(row.path) == name + [DOT] + ext + [SEPARATOR] + LETTER_A + [SEPARATOR] + LETTER_A
    ensures BucketTagged(row) == name + TagOf(row.hash) + [DOT] + ext + [SEPARATOR] + LETTER_A + [SEPARATOR] + LETTER_A
  {
    var rest := ext + [SEPARATOR] + LETTER_A + [SEPARATOR] + LETTER_A;
    hide TagOf, ValidUtf8, RSplitOnce;
    LastSeparator(name + [DOT] + ext, LETTER_A);
    LetterBucket();
    LeafParent(row.path, name + [DOT] + ext, LETTER_A);
    hide AlphaBucket, Parent, Leaf;
    assert Bucketed(row.path) == name + [DOT] + ext + [SEPARATOR] + LETTER_A + [SEPARATOR] + LETTER_A == name + [DOT] + rest;
    assert DOT !in rest;
    LastDot(name, rest);
  }

  const LETTER_A: Text := [0x41]

  lemma LetterBucket()
    ensures AlphaBucket(LETTER_A) == LETTER_A && SEPARATOR !in LETTER_A && DOT !in LETTER_A
  {
  }

  /** One row: left alone outside the crowded directories, else moved into its bucket, tagged if need be, or kept where it is. */
  ghost function Moved(rows: seq<ViewRow>, i: nat, crowded: set<Text>): (r: seq<ViewRow>)
    requires i < |rows| && AllOk(rows, RowOk)
    ensures |r| == |rows|
  {
    assert RowOk(rows[i]);
    TargetsCanonical(rows[i], 1);
    if Parent(rows[i].path) !in crowded then rows
    else if Bucketed(rows[i].path) !in Others(rows, i) then rows[i := rows[i].(path := Bucketed(rows[i].path))]
    else if BucketTagged(rows[i]) !in Others(rows, i) then rows[i := rows[i].(path := BucketTagged(rows[i]))]
    else rows
  }

  lemma WithinMore(path: Text, n: nat)
    requires Within(path, n)
    ensures Within(path, n + SUFFIX_RESERVE)
  {
  }

  /** A move keeps every row's content, all other rows, distinctness and canonicality. */
  lemma MovedIsSound(rows: seq<ViewRow>, i: nat, crowded: set<Text>, n: nat)
    requires i < |rows| && AllOk(rows, RowOk) && n >= 1
    ensures AllOk(Moved(rows, i, crowded), RowOk) && (DistinctPaths(rows) ==> DistinctPaths(Moved(rows, i, crowded)))
    ensures forall k :: 0 <= k < |rows| && k != i ==> Moved(rows, i, crowded)[k] == rows[k]
    ensures Moved(rows, i, crowded)[i] == rows[i].(path := Moved(rows, i, crowded)[i].path)
    ensures Within(rows[i].path, n) ==> Within(Moved(rows, i, crowded)[i].path, n + SUFFIX_RESERVE)
  {
    assert RowOk(rows[i]);
    TargetsCanonical(rows[i], 1);
    TargetsCanonical(rows[i], n);
    hide Bucketed, BucketTagged, IsCanonical, Parent, ValidUtf8, AllOk, DistinctPaths, Within, Others;
    Repathed(rows, i, Bucketed(rows[i].path));
    Repathed(rows, i, BucketTagged(rows[i]));
    if Within(rows[i].path, n) {
      WithinMore(rows[i].path, n);
      if Within(Bucketed(rows[i].path), n) {
        WithinMore(Bucketed(rows[i].path), n);
      }
    }
  }

  /** A row given another canonical path that no other row has. */
  lemma Repathed(rows: seq<ViewRow>, i: nat, path: Utf8)
    requires i < |rows| && AllOk(rows, RowOk) && IsCanonical(path)
    ensures AllOk(rows[i := rows[i].(path := path)], RowOk)
    ensures DistinctPaths(rows) && path !in Others(rows, i) ==> DistinctPaths(rows[i := rows[i].(path := path)])
  {
    hide IsCanonical, ValidUtf8;
    var after := rows[i := rows[i].(path := path)];
    assert rows[i] in rows;
    forall r | r in after ensures RowOk(r) {
      var k :| 0 <= k < |after| && after[k] == r;
      assert k != i ==> rows[k] in rows;
    }
    assert forall k :: 0 <= k < |rows| && k != i ==> rows[k].path in Others(rows, i);
  }

  lemma MovedIsOk(rows: seq<ViewRow>, i: nat, crowded: set<Text>)
    requires i < |rows| && AllOk(rows, RowOk)
    ensures AllOk(Moved(rows, i, crowded), RowOk)
  {
    MovedIsSound(rows, i, crowded, 1);
  }

  ghost function MovedTo(rows: seq<ViewRow>, n: nat, crowded: set<Text>): (r: seq<ViewRow>)
    requires n <= |rows| && AllOk(rows, RowOk)
    ensures |r| == |rows| && AllOk(r, RowOk)
  {
    hide Moved;
    if n == 0 then rows
    else
      MovedIsOk(MovedTo(rows, n - 1, crowded), n - 1, crowded);
      Moved(MovedTo(rows, n - 1, crowded), n - 1, crowded)
  }

  /** Each row moves at its own turn and at no other. */
  lemma {:induction false} MovedOnce(rows: seq<ViewRow>, n: nat, crowded: set<Text>, k: nat)
    requires k < |rows| && n <= |rows| && AllOk(rows, RowOk)
    ensures MovedTo(rows, n, crowded)[k] == if k < n then Moved(MovedTo(rows, k, crowded), k, crowded)[k] else rows[k]
  {
    hide AllOk, Moved;
    if n > 0 {
      MovedOnce(rows, n - 1, crowded, k);
      MovedIsSound(MovedTo(rows, n - 1, crowded), n - 1, crowded, 1);
    }
  }

  lemma {:induction false} MovedDistinct(rows: seq<ViewRow>, n: nat, crowded: set<Text>)
    requires n <= |rows| && AllOk(rows, RowOk) && DistinctPaths(rows)
    ensures DistinctPaths(MovedTo(rows, n, crowded))
  {
    hide AllOk, Moved, DistinctPaths;
    if n > 0 {
      MovedDistinct(rows, n - 1, crowded);
      MovedIsSound(MovedTo(rows, n - 1, crowded), n - 1, crowded, 1);
    }
  }

  /** A row of a crowded directory ends up in its bucket, or at the tagged form of its place there, or both places belonged to other rows when its turn came. */
  lemma MovedOrBlocked(rows: seq<ViewRow>, crowded: set<Text>, k: nat)
    requires k < |rows| && AllOk(rows, RowOk)
    ensures var (row, after) := (rows[k], MovedTo(rows, |rows|, crowded)[k].path);
      && (Parent(row.path) !in crowded ==> after == row.path)
      && (Parent(row.path) in crowded ==>
            || after == Bucketed(row.path) || after == BucketTagged(row)
            || (after == row.path && Bucketed(row.path) in Others(MovedTo(rows, k, crowded), k) && BucketTagged(row) in Others(MovedTo(rows, k, crowded), k)))
      && (Parent(BucketTagged(row)) == Parent(Bucketed(row.path)) <==> TagsLeaf(row.path))
  {
    assert RowOk(rows[k]);
    TagKeepsBucket(rows[k]);
    MovedOnce(rows, |rows|, crowded, k);
    MovedOnce(rows, k, crowded, k);
    hide AllOk, MovedTo, Bucketed, BucketTagged, Parent, Others, TagsLeaf;
  }

  /**
   Bucketing changes nothing but paths: no row's hash, size or seek class, no row
   outside the crowded directories, and neither distinctness nor canonicality.
   A component grows by one more tag at most.
   */
  lemma BucketingIsSound(rows: seq<ViewRow>, crowded: set<Text>, longest: nat)
    requires AllOk(rows, RowOk) && DistinctPaths(rows) && longest >= 1
    ensures DistinctPaths(MovedTo(rows, |rows|, crowded)) && SameContent(rows, MovedTo(rows, |rows|, crowded))
    ensures forall k :: 0 <= k < |rows| && Parent(rows[k].path) !in crowded ==> MovedTo(rows, |rows|, crowded)[k] == rows[k]
    ensures forall k :: 0 <= k < |rows| && Within(rows[k].path, longest) ==> Within(MovedTo(rows, |rows|, crowded)[k].path, longest + SUFFIX_RESERVE)
  {
    hide DistinctPaths, AllOk, Within, Parent, Moved, MovedTo;
    MovedDistinct(rows, |rows|, crowded);
    var after := MovedTo(rows, |rows|, crowded);
    forall k | 0 <= k < |rows|
      ensures after[k] == rows[k].(path := after[k].path) && (Parent(rows[k].path) !in crowded ==> after[k] == rows[k])
      ensures Within(rows[k].path, longest) ==> Within(after[k].path, longest + SUFFIX_RESERVE)
    {
      MovedOnce(rows, |rows|, crowded, k);
      MovedOnce(rows, k, crowded, k);
      MovedIsSound(MovedTo(rows, k, crowded), k, crowded, longest);
      OutsideStays(MovedTo(rows, k, crowded), k, crowded);
    }
  }

  lemma OutsideStays(rows: seq<ViewRow>, i: nat, crowded: set<Text>)
    requires i < |rows| && AllOk(rows, RowOk)
    ensures Parent(rows[i].path) !in crowded ==> Moved(rows, i, crowded) == rows
  {
  }

  // ---- The name cap ----

  /** The component of a path that takes the collision tag. */
  function TagComponent(path: Text): Text {
    var (x, y) := (Split(path[..TagPoint(path)], SEPARATOR), Split(path[TagPoint(path)..], SEPARATOR));
    x[|x| - 1] + y[0]
  }

  /** A path within the cap leaves it when tagged exactly when the component that takes the tag has no room for one. */
  lemma TaggedWithin(path: Text, hash: Hash32, n: nat)
    requires Within(path, n)
    ensures Within(Tagged(path, TagOf(hash)), n) <==> |TagComponent(path)| + SUFFIX_RESERVE <= n
  {
    ViewLayout.TagPlain(hash);
    hide TagOf, TagPoint, Split, TagComponent, ValidUtf8;
    InsertSplits(path, []);
    InsertSplits(path, TagOf(hash));
    assert Insert(path, TagPoint(path), []) == path[..TagPoint(path)] + [] + path[TagPoint(path)..] == path;
    var (x, y) := (Split(path[..TagPoint(path)], SEPARATOR), Split(path[TagPoint(path)..], SEPARATOR));
    WithinAround(x[..|x| - 1], x[|x| - 1] + [] + y[0], y[1..], n);
    WithinAround(x[..|x| - 1], x[|x| - 1] + TagOf(hash) + y[0], y[1..], n);
    TagComponentIs(path);
  }

  lemma TagComponentIs(path: Text)
    ensures var (x, y) := (Split(path[..TagPoint(path)], SEPARATOR), Split(path[TagPoint(path)..], SEPARATOR));
            |TagComponent(path)| == |x[|x| - 1]| + |y[0]|
  {
    hide Split, TagPoint;
  }

  lemma InsertSplits(path: Text, tag: Text)
    requires SEPARATOR !in tag
    ensures TagPoint(path) <= |path|
    ensures var (x, y) := (Split(path[..TagPoint(path)], SEPARATOR), Split(path[TagPoint(path)..], SEPARATOR));
            Split(Insert(path, TagPoint(path), tag), SEPARATOR) == x[..|x| - 1] + [x[|x| - 1] + tag + y[0]] + y[1..]
  {
    assert TagPoint(path) <= |path|;
    hide Split, TagPoint;
    SplitMiddle(path[..TagPoint(path)], tag, path[TagPoint(path)..]);
  }

  lemma WithinAround(left: seq<Text>, c: Text, right: seq<Text>, n: nat)
    ensures (forall x :: x in left + [c] + right ==> |x| <= n) <==> (forall x :: x in left ==> |x| <= n) && |c| <= n && forall x :: x in right ==> |x| <= n
  {
    assert forall x :: x in left + [c] + right <==> x in left || x == c || x in right;
  }

  /**
   What a row's path must meet to outgrow the cap: its directory is crowded, its
   place in the bucket is taken when its turn comes and the tagged one is free, and
   the component that takes the tag already has no room for it.
   */
  ghost predicate Overflows(rows: seq<ViewRow>, crowded: set<Text>, k: nat, max: nat)
    requires k < |rows| && AllOk(rows, RowOk)
  {
    && Parent(rows[k].path) in crowded
    && |TagComponent(Bucketed(rows[k].path))| + SUFFIX_RESERVE > max
    && Bucketed(rows[k].path) in Others(MovedTo(rows, k, crowded), k)
    && BucketTagged(rows[k]) !in Others(MovedTo(rows, k, crowded), k)
  }

  /** Bucketing takes exactly these rows past the cap. */
  lemma OverflowsExactly(rows: seq<ViewRow>, crowded: set<Text>, k: nat, max: nat)
    requires k < |rows| && AllOk(rows, RowOk) && Within(rows[k].path, max) && max >= 1
    ensures Within(MovedTo(rows, |rows|, crowded)[k].path, max) <==> !Overflows(rows, crowded, k, max)
  {
    hide MovedTo, Bucketed, Tagged, Parent, Others, Within, TagComponent, TagOf, IsCanonical, ValidUtf8, AllOk;
    RowsAreOk(rows, k);
    MovedOnce(rows, |rows|, crowded, k);
    MovedOnce(rows, k, crowded, k);
    BucketedIsCanonical(rows[k].path, max);
    TaggedWithin(Bucketed(rows[k].path), rows[k].hash, max);
  }

  ghost predicate SameContent(a: seq<ViewRow>, b: seq<ViewRow>) {
    |a| == |b| && forall k :: 0 <= k < |a| ==> b[k] == a[k].(path := b[k].path)
  }

  /** The directories with more than `cap` children. */
  ghost predicate IsCrowded(rows: seq<ViewRow>, cap: nat, dir: Text) {
    |Children(rows, dir)| > cap
  }

  method CrowdedDirs(rows: seq<ViewRow>, cap: nat) returns (crowded: set<Text>)
    ensures forall dir :: dir in crowded <==> IsCrowded(rows, cap, dir)
  {
    hide Children;
    var m := DirChildren(rows);
    crowded := set dir | dir in m && |m[dir]| > cap;
    forall dir ensures dir in crowded <==> IsCrowded(rows, cap, dir) {
      if Children(rows, dir) == {} {
        assert |Children(rows, dir)| == 0;
      }
    }
  }

  /**
   `bucket_overfull_dirs`: how many directories were over the cap, how many still
   are, and how many moves needed a tag.
   */
  method BucketOverfullDirs(rows: array<ViewRow>, cap: nat) 
    returns (bucketed: nat, still: nat, disambiguated: nat, ghost crowded: set<Text>, ghost left: set<Text>)
    requires AllOk(rows[..], RowOk) && DistinctPaths(rows[..])
    modifies rows
    ensures forall dir :: dir in crowded <==> IsCrowded(old(rows[..]), cap, dir)
    ensures forall dir :: dir in left <==> IsCrowded(rows[..], cap, dir)
    ensures rows[..] == MovedTo(old(rows[..]), rows.Length, crowded)
    ensures bucketed == |crowded| && still == |left| && disambiguated == TagsGiven(old(rows[..]), rows.Length, crowded)
  {
    hide IsCrowded;
    ghost var was := rows[..];
    var dirs := CrowdedDirs(rows[..], cap);
    crowded := dirs;
    disambiguated := 0;
    if dirs != {} {
      var seen := Paths(rows[..]);
      for i := 0 to rows.Length
        invariant rows[..] == MovedTo(was, i, crowded) && DistinctPaths(rows[..]) && AllOk(rows[..], RowOk)
        invariant seen == Paths(rows[..]) && disambiguated == TagsGiven(was, i, crowded)
      {
        var tagged: bool;
        seen, tagged := MoveRow(rows, i, dirs, seen);
        disambiguated := disambiguated + if tagged then 1 else 0;
      }
    } else {
      NothingCrowded(was, rows.Length);
    }
    var remaining := CrowdedDirs(rows[..], cap);
    left := remaining;
    bucketed, still := |dirs|, |remaining|;
  }

  /** Row `i` goes to the tagged form of its place in the bucket: its directory is crowded, the place taken, and the tagged one free. */
  ghost predicate GetsTag(rows: seq<ViewRow>, i: nat, crowded: set<Text>)
    requires i < |rows| && AllOk(rows, RowOk)
  {
    Parent(rows[i].path) in crowded && Bucketed(rows[i].path) in Others(rows, i) && BucketTagged(rows[i]) !in Others(rows, i)
  }

  /** How many of the first `n` rows do, each at its turn. */
  ghost function TagsGiven(rows: seq<ViewRow>, n: nat, crowded: set<Text>): nat
    requires n <= |rows| && AllOk(rows, RowOk)
  {
    if n == 0 then 0
    else TagsGiven(rows, n - 1, crowded) + if GetsTag(MovedTo(rows, n - 1, crowded), n - 1, crowded) then 1 else 0
  }

  /** With no crowded directory nothing moves. */
  lemma {:induction false} NothingCrowded(rows: seq<ViewRow>, n: nat)
    requires n <= |rows| && AllOk(rows, RowOk)
    ensures MovedTo(rows, n, {}) == rows && TagsGiven(rows, n, {}) == 0
  {
    if n > 0 {
      NothingCrowded(rows, n - 1);
    }
  }

  method MoveRow(rows: array<ViewRow>, i: nat, crowded: set<Text>, before: set<Text>) returns (seen: set<Text>, tagged: bool)
    requires i < rows.Length && AllOk(rows[..], RowOk) && DistinctPaths(rows[..]) && before == Paths(rows[..])
    modifies rows
    ensures rows[..] == Moved(old(rows[..]), i, crowded) && (tagged <==> GetsTag(old(rows[..]), i, crowded))
    ensures AllOk(rows[..], RowOk) && DistinctPaths(rows[..]) && seen == Paths(rows[..])
  {
    hide AllOk, DistinctPaths, Others, Bucketed, Tagged, TagOf, IsCanonical, ValidUtf8;
    ghost var was := rows[..];
    var row := rows[i];
    assert RowOk(row) by {
      RowsAreOk(was, i);
    }
    TargetsCanonical(row, 1);
    MovedIsSound(was, i, crowded, 1);
    SeenWithout(was, i);
    seen, tagged := before, false;
    if Parent(row.path) !in crowded {
      return;
    }
    var candidate := Bucketed(row.path);
    seen := seen - {row.path};
    if candidate in seen {
      candidate := BucketTagged(row);
      if candidate in seen {
        seen := seen + {row.path};
        return;
      }
      tagged := true;
    }
    seen := seen + {candidate};
    rows[i] := row.(path := candidate);
    assert rows[..] == was[i := row.(path := candidate)];
    SeenAfter(was, i, candidate);
  }

  lemma RowsAreOk(rows: seq<ViewRow>, i: nat)
    requires i < |rows| && AllOk(rows, RowOk)
    ensures RowOk(rows[i])
  {
  }

  lemma SeenWithout(rows: seq<ViewRow>, i: nat)
    requires i < |rows| && DistinctPaths(rows)
    ensures Paths(rows) - {rows[i].path} == Others(rows, i) && Paths(rows) == Others(rows, i) + {rows[i].path}
  {
    forall p ensures p in Paths(rows) <==> p in Others(rows, i) || p == rows[i].path {
      if p in Paths(rows) {
        var r :| r in rows && r.path == p;
        var k :| 0 <= k < |rows| && rows[k] == r;
      }
      assert rows[i] in rows;
      if p in Others(rows, i) {
        var k :| 0 <= k < |rows| && k != i && rows[k].path == p;
        assert rows[k] in rows;
      }
    }
    assert rows[i].path !in Others(rows, i);
  }

  lemma SeenAfter(rows: seq<ViewRow>, i: nat, path: Utf8)
    requires i < |rows|
    ensures Paths(rows[i := rows[i].(path := path)]) == Others(rows, i) + {path}
  {
    var after := rows[i := rows[i].(path := path)];
    forall p ensures p in Paths(after) <==> p in Others(rows, i) || p == path {
      if p in Paths(after) {
        var r :| r in after && r.path == p;
        var k :| 0 <= k < |after| && after[k] == r;
        assert k != i ==> rows[k].path in Others(rows, i);
      }
      assert after[i] in after;
      if p in Others(rows, i) {
        var k :| 0 <= k < |rows| && k != i && rows[k].path == p;
        assert after[k] in after;
      }
    }
  }

  // ---- The manifest of a view ----

  datatype Evaluation = Evaluation(rows: seq<ViewRow>, disambiguated: nat, skipped: nat, bucketed: nat, still: nat)

  /**
   Layout, then bucketing when the profile caps directories. Unless an admitted claim
   stops the source, the rows meet exactly what encoding a manifest demands, so it
   cannot fail on them.
   */
  method EvaluateRows(picks: seq<Pick>, def: Definition, seekOf: Hash32 -> byte) returns (r: Option<Evaluation>, ghost crowded: set<Text>, ghost left: set<Text>)
    requires Sound(def) && forall h :: seekOf(h) <= MOST_OPAQUE
    ensures r.None? <==> AnyHalts(picks, def)
    ensures r.Some? ==> LaidOut(picks, def, seekOf).Some? && SameContent(LaidOut(picks, def, seekOf).value.rows, r.value.rows)
    ensures r.Some? ==> DistinctPaths(r.value.rows) && AllOk(r.value.rows, RowOk) && Ascend(SortRows(r.value.rows, PathKey), PathKey)
    ensures r.Some? && def.profile.Some? ==> AllWithin(r.value.rows, def.profile.value.maxNameLen + SUFFIX_RESERVE)
    ensures r.Some? && EntryCap(def).None? ==> r.value.rows == LaidOut(picks, def, seekOf).value.rows
    ensures r.Some? && EntryCap(def).Some? ==>
              AllOk(LaidOut(picks, def, seekOf).value.rows, RowOk) &&
              r.value.rows == MovedTo(LaidOut(picks, def, seekOf).value.rows, |LaidOut(picks, def, seekOf).value.rows|, crowded)
    ensures r.Some? && EntryCap(def).Some? ==>
              (forall dir :: dir in crowded <==> IsCrowded(LaidOut(picks, def, seekOf).value.rows, EntryCap(def).value, dir))
    ensures r.Some? && EntryCap(def).Some? ==> forall k :: 0 <= k < |r.value.rows| ==>
              (Within(r.value.rows[k].path, def.profile.value.maxNameLen) <==> !Overflows(LaidOut(picks, def, seekOf).value.rows, crowded, k, def.profile.value.maxNameLen))
    ensures r.Some? ==> r.value.skipped == LaidOut(picks, def, seekOf).value.skipped
    ensures r.Some? ==> r.value.bucketed == |crowded| && r.value.still == |left| && (EntryCap(def).None? ==> crowded == left == {})
    ensures r.Some? && EntryCap(def).Some? ==> forall dir :: dir in left <==> IsCrowded(r.value.rows, EntryCap(def).value, dir)
    ensures r.Some? && EntryCap(def).None? ==> r.value.disambiguated == LaidOut(picks, def, seekOf).value.disambiguated
    ensures r.Some? && EntryCap(def).Some? ==>
              r.value.disambiguated == LaidOut(picks, def, seekOf).value.disambiguated
                                       + TagsGiven(LaidOut(picks, def, seekOf).value.rows, |LaidOut(picks, def, seekOf).value.rows|, crowded)
  {
    hide LayoutOf, DistinctPaths, AllOk, Ascend, AllWithin, FromPicks, Sound, SameContent, AnyHalts, Overflows, MovedTo, IsCrowded, Within, SortRows, TagsGiven;
    crowded, left := {}, {};
    var laid := LayOut(picks, def, seekOf);
    if laid.None? {
      return None, crowded, left;
    }
    LayoutIsSound(picks, def, seekOf, laid.value);
    var rows, disambiguated, bucketed, still := laid.value.rows, laid.value.disambiguated, 0, 0;
    SameAsItself(rows);
    if def.profile.Some? {
      LongEnough(def);
      AllWithinMore(rows, def.profile.value.maxNameLen);
      if def.profile.value.maxDirEntries.Some? {
        var more: nat;
        rows, bucketed, still, more, crowded, left := Spread(rows, def.profile.value.maxDirEntries.value, def.profile.value.maxNameLen);
        disambiguated := disambiguated + more;
      }
    }
    DistinctAscends(rows);
    r := Some(Evaluation(rows, disambiguated, laid.value.skipped, bucketed, still));
  }

  /** The entry cap of the target's directories. */
  function EntryCap(def: Definition): Option<nat> {
    if def.profile.Some? then def.profile.value.maxDirEntries else None
  }

  method Spread(laid: seq<ViewRow>, cap: nat, ghost n: nat)
    returns (rows: seq<ViewRow>, bucketed: nat, still: nat, disambiguated: nat, ghost crowded: set<Text>, ghost left: set<Text>)
    requires DistinctPaths(laid) && AllOk(laid, RowOk) && AllWithin(laid, n) && n >= 1
    ensures DistinctPaths(rows) && AllOk(rows, RowOk) && AllWithin(rows, n + SUFFIX_RESERVE) && SameContent(laid, rows)
    ensures rows == MovedTo(laid, |laid|, crowded) && forall dir :: dir in crowded <==> IsCrowded(laid, cap, dir)
    ensures forall dir :: dir in left <==> IsCrowded(rows, cap, dir)
    ensures bucketed == |crowded| && still == |left| && disambiguated == TagsGiven(laid, |laid|, crowded)
    ensures forall k :: 0 <= k < |laid| ==> (Within(rows[k].path, n) <==> !Overflows(laid, crowded, k, n))
  {
    hide DistinctPaths, AllOk, AllWithin, MovedTo, Within, Parent, IsCrowded, Overflows, TagsGiven;
    var a := new ViewRow[|laid|](i requires 0 <= i < |laid| => laid[i]);
    assert a[..] == laid;
    bucketed, still, disambiguated, crowded, left := BucketOverfullDirs(a, cap);
    rows := a[..];
    BucketingIsSound(laid, crowded, n);
    AllWithinMoved(laid, rows, n);
    forall k | 0 <= k < |laid| ensures Within(rows[k].path, n) <==> !Overflows(laid, crowded, k, n) {
      EachWithin(laid, n, k);
      OverflowsExactly(laid, crowded, k, n);
    }
  }

  lemma EachWithin(rows: seq<ViewRow>, n: nat, k: nat)
    requires AllWithin(rows, n) && k < |rows|
    ensures Within(rows[k].path, n)
  {
    hide Within;
  }

  lemma SameAsItself(rows: seq<ViewRow>)
    ensures SameContent(rows, rows)
  {
  }

  lemma AllWithinMore(rows: seq<ViewRow>, n: nat)
    requires AllWithin(rows, n)
    ensures AllWithin(rows, n + SUFFIX_RESERVE)
  {
    hide Within;
    forall r | r in rows ensures Within(r.path, n + SUFFIX_RESERVE) {
      WithinMore(r.path, n);
    }
  }

  lemma AllWithinMoved(rows: seq<ViewRow>, moved: seq<ViewRow>, n: nat)
    requires AllWithin(rows, n) && |rows| == |moved|
    requires forall k :: 0 <= k < |rows| && Within(rows[k].path, n) ==> Within(moved[k].path, n + SUFFIX_RESERVE)
    ensures AllWithin(moved, n + SUFFIX_RESERVE)
  {
    hide Within;
    forall r | r in moved ensures Within(r.path, n + SUFFIX_RESERVE) {
      var k :| 0 <= k < |moved| && moved[k] == r;
      assert rows[k] in rows;
    }
  }

  lemma LongEnough(def: Definition)
    requires Sound(def) && def.profile.Some?
    ensures def.profile.value.maxNameLen >= 1
  {
  }
}
