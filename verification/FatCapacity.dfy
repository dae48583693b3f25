/**
 What a FAT32 image of some files needs, read off the files alone: the names in
 each directory, the entry slots they take, and the clusters of everything. With
 it, whether the format has room is a question about the input.
 */
module FatCapacity {
  import opened Wrappers
  import opened Bytes
  import opened FatNames
  import opened FatTree
  import opened FatLayout

  // ---- Directories and the names in them ----

  /** The part of a path below a directory. */
  function Below(path: string, dir: string): Option<string> {
    if dir == "" then Some(path)
    else if dir + "/" <= path then Some(path[|dir| + 1..])
    else None
  }

  function FirstPart(rest: string): string {
    var slash := FirstSlash(rest);
    if slash.Some? then rest[..slash.value] else rest
  }

  /** The names directly in `dir`: the first parts of what lies below it. */
  ghost function NamesIn(files: seq<FileEntry>, dir: string): set<string> {
    set f | 0 <= f < |files| && Below(Relative(files[f].path), dir).Some? :: FirstPart(Below(Relative(files[f].path), dir).value)
  }

  /** The root, and every beginning of a path that a slash follows. */
  ghost function DirPaths(files: seq<FileEntry>): set<string> {
    {""} + set f, k | 0 <= f < |files| && 0 <= k < |Relative(files[f].path)| && Relative(files[f].path)[k] == '/' :: Relative(files[f].path)[..k]
  }

  // ---- Names in order ----

  ghost predicate IsLeast(s: string, names: set<string>) {
    s in names && forall x :: x in names ==> x == s || Before(s, x)
  }

  lemma {:induction false} HasLeast(names: set<string>) returns (least: string)
    requires names != {}
    ensures IsLeast(least, names)
    decreases |names|
  {
    hide Before;
    var s :| s in names;
    least := s;
    if names != {s} {
      assert names - {s} != {};
      var rest := HasLeast(names - {s});
      BeforeTotal(s, rest);
      least := if Before(s, rest) then s else rest;
      forall x | x in names ensures x == least || Before(least, x) {
        if x != s && x != rest && Before(s, rest) {
          BeforeTransitive(s, rest, x);
        }
      }
    }
  }

  ghost function InOrder(names: set<string>): (r: seq<string>)
    decreases |names|
  {
    if names == {} then []
    else
      assert exists s :: IsLeast(s, names) by {
        var s := HasLeast(names);
      }
      var s :| IsLeast(s, names);
      [s] + InOrder(names - {s})
  }

  ghost predicate StringsAscend(s: seq<string>) {
    forall i, j :: 0 <= i < j < |s| ==> Before(s[i], s[j])
  }

  function SetOf(s: seq<string>): set<string> {
    set x | x in s
  }

  /** An ascending list is its names in order. */
  lemma {:induction false} AscendingIsInOrder(s: seq<string>)
    requires StringsAscend(s)
    ensures InOrder(SetOf(s)) == s
  {
    hide Before;
    if s == [] {
      assert SetOf(s) == {};
    } else {
      assert s[0] in SetOf(s);
      forall x | IsLeast(x, SetOf(s)) ensures x == s[0] {
        LeastIsFirst(s, x);
      }
      forall i | 1 <= i < |s| ensures s[i] != s[0] {
        BeforeIrreflexive(s[0]);
      }
      assert SetOf(s) - {s[0]} == SetOf(s[1..]);
      AscendingIsInOrder(s[1..]);
      assert IsLeast(s[0], SetOf(s));
    }
  }

  lemma LeastIsFirst(s: seq<string>, x: string)
    requires StringsAscend(s) && s != [] && IsLeast(x, SetOf(s))
    ensures x == s[0]
  {
    hide Before;
    var i :| 0 <= i < |s| && s[i] == x;
    if i > 0 {
      assert s[0] in SetOf(s);
      BeforeTransitive(s[0], x, s[0]);
      BeforeIrreflexive(s[0]);
    }
  }

  // ---- Short names ----

  /** The first tail from `n` on whose short name is free. */
  function FreeTail(m: Mangled, used: set<ShortName>, n: nat): (r: nat)
    requires |m.stem| <= 8 && |m.ext| <= 3 && n < TAIL_LIMIT
    ensures r < TAIL_LIMIT
    decreases TAIL_LIMIT - n
  {
    if n + 1 == TAIL_LIMIT || Candidate(m, n) !in used then n else FreeTail(m, used, n + 1)
  }

  lemma {:induction false} FreeTailIs(m: Mangled, used: set<ShortName>, n: nat, k: nat)
    requires |m.stem| <= 8 && |m.ext| <= 3 && n <= k < TAIL_LIMIT
    requires Candidate(m, k) !in used && forall i :: n <= i < k ==> Candidate(m, i) in used
    ensures FreeTail(m, used, n) == k
    decreases k - n
  {
    hide Candidate;
    if n < k {
      FreeTailIs(m, used, n + 1, k);
    }
  }

  /** The plain rendering if nothing was lost and it is free, else the first free tail. */
  function ShortFor(long: string, used: set<ShortName>): Named {
    var m := MangleName(long);
    if !m.lossy && Render(m.stem, m.ext) !in used then Named(Render(m.stem, m.ext), !ShowsExactly(m, long))
    else Named(Candidate(m, FreeTail(m, used, 1)), true)
  }

  function Shorts(named: seq<Named>): set<ShortName> {
    set i | 0 <= i < |named| :: named[i].short
  }

  /** Short names for a directory's names, one after the other. */
  function NamedOf(names: seq<string>): (r: seq<Named>)
    ensures |r| == |names|
  {
    if names == [] then []
    else
      var before := NamedOf(names[..|names| - 1]);
      before + [ShortFor(names[|names| - 1], Shorts(before))]
  }

  lemma NamedNext(names: seq<string>, k: nat)
    requires k < |names|
    ensures NamedOf(names[..k + 1]) == NamedOf(names[..k]) + [ShortFor(names[k], Shorts(NamedOf(names[..k])))]
  {
    assert names[..k + 1][..k] == names[..k];
  }

  lemma ShortsNext(named: seq<Named>, one: Named)
    ensures Shorts(named + [one]) == Shorts(named) + {one.short}
  {
    var after := named + [one];
    assert forall i :: 0 <= i < |named| ==> after[i] == named[i];
    assert after[|named|] == one;
  }

  /** What `short_name` gives is what `ShortFor` says. */
  lemma ShortForIs(long: string, used: set<ShortName>, short: ShortName, needsLfn: bool)
    requires |used| < TAIL_LIMIT - 1 && short !in used
    requires var m := MangleName(long);
             if !m.lossy && Render(m.stem, m.ext) !in used then short == Render(m.stem, m.ext) && needsLfn == !ShowsExactly(m, long)
             else needsLfn && exists n :: 1 <= n <= |used| + 1 && short == Candidate(m, n) && forall k :: 1 <= k < n ==> Candidate(m, k) in used
    ensures Named(short, needsLfn) == ShortFor(long, used)
  {
    var m := MangleName(long);
    hide Candidate, Render, ShowsExactly, MangleName;
    if !(!m.lossy && Render(m.stem, m.ext) !in used) {
      var n :| 1 <= n <= |used| + 1 && short == Candidate(m, n) && forall k :: 1 <= k < n ==> Candidate(m, k) in used;
      FreeTailIs(m, used, 1, n);
    }
  }

  // ---- What is needed ----

  function SlotsOf(names: seq<string>): nat {
    if names == [] then 0
    else
      var n := |names| - 1;
      SlotsOf(names[..n]) + ChildSlots(names[n], NamedOf(names)[n])
  }

  lemma {:induction false} SlotsGrow(names: seq<string>, k: nat)
    requires k <= |names|
    ensures SlotsOf(names[..k]) <= SlotsOf(names)
    decreases |names|
  {
    hide NamedOf;
    if k < |names| {
      var n := |names| - 1;
      assert names[..n][..k] == names[..k];
      SlotsGrow(names[..n], k);
    } else {
      assert names[..k] == names;
    }
  }

  lemma SlotsNext(names: seq<string>, k: nat)
    requires k < |names|
    ensures SlotsOf(names[..k + 1]) == SlotsOf(names[..k]) + ChildSlots(names[k], ShortFor(names[k], Shorts(NamedOf(names[..k]))))
  {
    hide ShortFor, Shorts, ChildSlots;
    NamedNext(names, k);
    assert names[..k + 1][..k] == names[..k];
  }

  /** Entry slots of a directory. */
  ghost function SlotsIn(files: seq<FileEntry>, volume: ShortName, dir: string): nat {
    HeadSlots(volume, if dir == "" then 0 else 1) + SlotsOf(InOrder(NamesIn(files, dir)))
  }

  ghost function SumOver(paths: set<string>, f: string -> nat): nat {
    if paths == {} then 0
    else
      var p :| p in paths;
      f(p) + SumOver(paths - {p}, f)
  }

  /** Clusters of all directories and all files. */
  ghost function ClustersNeeded(files: seq<FileEntry>, params: Params): nat
    requires params.clusterSize > 0
  {
    SumOver(DirPaths(files), dir => DirCount(SlotsIn(files, params.volume, dir), params.clusterSize)) + Total(FileCounts(files, params.clusterSize))
  }

  ghost predicate IsOverfull(files: seq<FileEntry>, params: Params, dir: string) {
    dir in DirPaths(files) && SlotsIn(files, params.volume, dir) > 65_536
  }

  /** FAT32 has entry slots, clusters and sectors enough. */
  ghost predicate HasRoom(files: seq<FileEntry>, params: Params)
    requires params.clusterSize > 0
  {
    && (forall dir :: !IsOverfull(files, params, dir))
    && Clusters(ClustersNeeded(files, params)) <= 0x0FFF_FFF2
    && PartitionSectors(Clusters(ClustersNeeded(files, params)), params.clusterSize) <= 0xFFFF_FFFF
  }

  // ---- Sums ----

  lemma {:induction false} SumWithout(paths: set<string>, f: string -> nat, q: string)
    requires q in paths
    ensures SumOver(paths, f) == f(q) + SumOver(paths - {q}, f)
    decreases |paths|
  {
    var p :| p in paths && SumOver(paths, f) == f(p) + SumOver(paths - {p}, f);
    if p != q {
      SumWithout(paths - {p}, f, q);
      SumWithout(paths - {q}, f, p);
      assert paths - {p} - {q} == paths - {q} - {p};
    }
  }

  ghost predicate NoneTwice(s: seq<string>) {
    forall i, j :: 0 <= i < j < |s| ==> s[i] != s[j]
  }

  /** In whatever order the directories come, their clusters add up to the same. */
  lemma {:induction false} TotalIsSum(ps: seq<string>, f: string -> nat, counts: seq<nat>)
    requires NoneTwice(ps) && |counts| == |ps| && forall i :: 0 <= i < |ps| ==> counts[i] == f(ps[i])
    ensures Total(counts) == SumOver(SetOf(ps), f)
    decreases |ps|
  {
    hide SumOver;
    if ps == [] {
      SumOfNone(f);
      assert SetOf(ps) == {};
    } else {
      var n := |ps| - 1;
      TotalIsSum(ps[..n], f, counts[..n]);
      assert ps[n] in SetOf(ps);
      SumWithout(SetOf(ps), f, ps[n]);
      assert SetOf(ps) - {ps[n]} == SetOf(ps[..n]);
    }
  }

  lemma SumOfNone(f: string -> nat)
    ensures SumOver({}, f) == 0
  {
  }

  lemma {:induction false} TotalOfBoth(a: seq<nat>, b: seq<nat>)
    ensures Total(a + b) == Total(a) + Total(b)
    decreases |b|
  {
    if b == [] {
      assert a + b == a;
    } else {
      var n := |b| - 1;
      TotalOfBoth(a, b[..n]);
      assert (a + b)[..|a| + n] == a + b[..n] && (a + b)[|a| + n] == b[n];
    }
  }

  // ---- A tree of the files has just these directories and names ----

  function PathsOf(dirs: seq<Dir>): (r: seq<string>)
    ensures |r| == |dirs|
  {
    seq(|dirs|, d requires 0 <= d < |dirs| => dirs[d].path)
  }

  function ChildNames(children: seq<Child>): (r: seq<string>)
    ensures |r| == |children| && forall i :: 0 <= i < |r| ==> r[i] == children[i].name
  {
    seq(|children|, i requires 0 <= i < |children| => children[i].name)
  }

  lemma TreeDirs(dirs: seq<Dir>, files: seq<FileEntry>, upper: string -> string)
    requires TreeOf(dirs, files, |files|, upper)
    ensures NoneTwice(PathsOf(dirs)) && SetOf(PathsOf(dirs)) == DirPaths(files)
  {
    hide TreeOf;
    var ps := PathsOf(dirs);
    forall i, j | 0 <= i < j < |ps| ensures ps[i] != ps[j] {
      if dirs[i].path == dirs[j].path {
        OnePath(dirs, files, |files|, upper, i, j);
      }
    }
    forall d | 0 <= d < |dirs| ensures dirs[d].path in DirPaths(files) {
      DirIsPath(dirs, files, upper, d);
    }
    forall path | path in DirPaths(files) ensures path in ps {
      var d := PathIsDir(dirs, files, upper, path);
      assert ps[d] == path;
    }
  }

  lemma DirIsPath(dirs: seq<Dir>, files: seq<FileEntry>, upper: string -> string, d: nat)
    requires TreeOf(dirs, files, |files|, upper) && d < |dirs|
    ensures dirs[d].path in DirPaths(files)
  {
    if d > 0 {
      assert ListedAt(dirs, d);
      var c :| c in dirs[dirs[d].parent].children && c.kind == DirKind(d);
      assert ChildOk(dirs, files, |files|, |files|, dirs[d].parent, c);
      SlashFollows(files, dirs[d].path);
    }
  }

  lemma SlashFollows(files: seq<FileEntry>, path: string)
    requires OnTheWay(files, |files|, path)
    ensures path in DirPaths(files)
  {
    var f :| 0 <= f < |files| && StartsWith(Relative(files[f].path), path + "/");
    hide Relative;
    var whole := Relative(files[f].path);
    assert whole[|path|] == (path + "/")[|path|] == '/';
    assert whole[..|path|] == path;
  }

  lemma PathIsDir(dirs: seq<Dir>, files: seq<FileEntry>, upper: string -> string, path: string) returns (d: nat)
    requires TreeOf(dirs, files, |files|, upper) && path in DirPaths(files)
    ensures d < |dirs| && dirs[d].path == path
  {
    d := 0;
    if path != "" {
      hide TreeOf, Relative;
      var f, k :| 0 <= f < |files| && 0 <= k < |Relative(files[f].path)| && Relative(files[f].path)[k] == '/' && path == Relative(files[f].path)[..k];
      var whole := Relative(files[f].path);
      RelativePlain(files[f].path);
      assert whole[..k + 1] == path + "/";
      var (parent, name) := SplitPath(path);
      SplitJoins(path);
      assert NodeOf(files, f, parent, name, false);
      var e, c := NodeFound(dirs, files, upper, f, parent, name, false);
      d := DirOf(dirs, files, upper, e, c);
    } else {
      RootIsEmpty(dirs, files, upper);
    }
  }

  lemma RootIsEmpty(dirs: seq<Dir>, files: seq<FileEntry>, upper: string -> string)
    requires TreeOf(dirs, files, |files|, upper)
    ensures dirs != [] && dirs[0].path == ""
  {
  }

  lemma DirOf(dirs: seq<Dir>, files: seq<FileEntry>, upper: string -> string, e: nat, c: Child) returns (d: nat)
    requires TreeOf(dirs, files, |files|, upper) && e < |dirs| && c in dirs[e].children && c.kind.DirKind?
    ensures d < |dirs| && dirs[d].path == Join(dirs[e].path, c.name)
  {
    assert ChildOk(dirs, files, |files|, |files|, e, c);
    d := c.kind.dir;
  }

  /** A path not starting with a slash is its directory joined with its name. */
  lemma SplitJoins(path: string)
    requires path != "" && path[0] != '/'
    ensures Join(SplitPath(path).0, SplitPath(path).1) == path && '/' !in SplitPath(path).1
  {
    var slash := LastSlash(path);
    if slash.Some? {
      assert slash.value > 0;
      assert path == path[..slash.value] + "/" + path[slash.value + 1..];
    }
  }

  /** In name order, the children of a directory are the names the files have there. */
  lemma TreeNames(dirs: seq<Dir>, files: seq<FileEntry>, upper: string -> string, d: nat)
    requires TreeOf(dirs, files, |files|, upper) && d < |dirs| && NamesAscend(dirs[d].children)
    ensures ChildNames(dirs[d].children) == InOrder(NamesIn(files, dirs[d].path))
  {
    var names := ChildNames(dirs[d].children);
    assert StringsAscend(names);
    hide TreeOf, NamesAscend, Before;
    AscendingIsInOrder(names);
    forall x | x in names ensures x in NamesIn(files, dirs[d].path) {
      var i :| 0 <= i < |names| && names[i] == x;
      ChildIsName(dirs, files, upper, d, dirs[d].children[i]);
    }
    forall x | x in NamesIn(files, dirs[d].path) ensures x in names {
      var c := NameIsChild(dirs, files, upper, d, x);
      var i :| 0 <= i < |names| && dirs[d].children[i] == c;
      assert names[i] == x;
    }
    assert SetOf(names) == NamesIn(files, dirs[d].path);
  }

  lemma ChildIsName(dirs: seq<Dir>, files: seq<FileEntry>, upper: string -> string, d: nat, c: Child)
    requires TreeOf(dirs, files, |files|, upper) && d < |dirs| && c in dirs[d].children
    ensures c.name in NamesIn(files, dirs[d].path)
  {
    assert ChildOk(dirs, files, |files|, |files|, d, c);
    LegalPlain(c.name);
    hide TreeOf, Relative, IsComponent;
    if c.kind.FileKind? {
      BelowJoin(Relative(files[c.kind.file].path), dirs[d].path, c.name, "");
    } else {
      var i := c.kind.dir;
      var f :| 0 <= f < |files| && StartsWith(Relative(files[f].path), dirs[i].path + "/");
      var whole := Relative(files[f].path);
      assert whole == Join(dirs[d].path, c.name) + ("/" + whole[|dirs[i].path| + 1..]);
      BelowJoin(whole, dirs[d].path, c.name, "/" + whole[|dirs[i].path| + 1..]);
    }
  }

  lemma BelowJoin(path: string, dir: string, name: string, rest: string)
    requires '/' !in name && path == Join(dir, name) + rest && (rest != "" ==> rest[0] == '/')
    ensures Below(path, dir) == Some(name + rest) && FirstPart(name + rest) == name
  {
    if dir != "" {
      assert path == dir + "/" + (name + rest);
      assert path[|dir| + 1..] == name + rest;
    }
    FirstPartIs(name, rest);
  }

  lemma FirstPartIs(name: string, rest: string)
    requires '/' !in name && (rest != "" ==> rest[0] == '/')
    ensures FirstPart(name + rest) == name
  {
    FirstSlashAt(name, rest);
    hide FirstSlash;
    assert rest == "" ==> name + rest == name;
  }

  lemma {:induction false} FirstSlashAt(name: string, rest: string)
    requires '/' !in name && (rest != "" ==> rest[0] == '/')
    ensures FirstSlash(name + rest) == if rest == "" then None else Some(|name|)
  {
    if name != "" {
      assert name[0] in name && forall c :: c in name[1..] ==> c in name;
      FirstSlashAt(name[1..], rest);
      assert (name + rest)[1..] == name[1..] + rest;
    } else {
      assert name + rest == rest;
    }
  }

  lemma NameIsChild(dirs: seq<Dir>, files: seq<FileEntry>, upper: string -> string, d: nat, name: string) returns (c: Child)
    requires TreeOf(dirs, files, |files|, upper) && d < |dirs| && name in NamesIn(files, dirs[d].path)
    ensures c in dirs[d].children && c.name == name
  {
    hide TreeOf, Relative, FirstPart;
    var f :| 0 <= f < |files| && Below(Relative(files[f].path), dirs[d].path).Some? && name == FirstPart(Below(Relative(files[f].path), dirs[d].path).value);
    var isFile := BelowIsNode(files, f, dirs[d].path, name);
    var e;
    e, c := NodeFound(dirs, files, upper, f, dirs[d].path, name, isFile);
    OnePath(dirs, files, |files|, upper, d, e);
  }

  lemma BelowIsNode(files: seq<FileEntry>, f: nat, dir: string, name: string) returns (isFile: bool)
    requires f < |files| && Below(Relative(files[f].path), dir).Some? && name == FirstPart(Below(Relative(files[f].path), dir).value)
    ensures NodeOf(files, f, dir, name, isFile)
  {
    hide Relative, FirstSlash;
    var path := Relative(files[f].path);
    var rest := Below(path, dir).value;
    var slash := FirstSlash(rest);
    isFile := slash.None?;
    assert path == Join(dir, rest);
    if slash.Some? {
      assert rest == name + "/" + rest[slash.value + 1..];
      assert path == Join(dir, name) + "/" + rest[slash.value + 1..];
    }
  }

  // ---- So a plan needs what the files need ----

  lemma {:induction false} SlotsToIs(children: seq<Child>, named: seq<Named>, k: nat)
    requires k <= |named| <= |children| && named == NamedOf(ChildNames(children)[..|named|])
    ensures SlotsTo(children, named, k) == SlotsOf(ChildNames(children)[..k])
  {
    hide NamedOf, ChildSlots;
    var names := ChildNames(children);
    if k > 0 {
      SlotsToIs(children, named, k - 1);
      NamedAt(names, |named|, k - 1);
      SlotsNext(names, k - 1);
    } else {
      assert names[..0] == [];
    }
  }

  /** A short name depends only on the names before it. */
  lemma {:induction false} NamedAt(names: seq<string>, n: nat, k: nat)
    requires k < n <= |names|
    ensures NamedOf(names[..n])[k] == ShortFor(names[k], Shorts(NamedOf(names[..k])))
    decreases n
  {
    hide ShortFor, Shorts, NamedOf;
    NamedNext(names, n - 1);
    if k < n - 1 {
      NamedAt(names, n - 1, k);
    }
  }

  /** The short names of every directory are the ones `short_name` gives in name order. */
  ghost predicate NamedInOrder(dirs: seq<Dir>, names: seq<seq<Named>>) {
    |names| == |dirs| && forall d :: 0 <= d < |dirs| ==> names[d] == NamedOf(ChildNames(dirs[d].children))
  }

  lemma DirSlotsAre(dirs: seq<Dir>, files: seq<FileEntry>, upper: string -> string, volume: ShortName, d: nat, named: seq<Named>)
    requires TreeOf(dirs, files, |files|, upper) && d < |dirs| && NamesAscend(dirs[d].children)
    requires |named| <= |dirs[d].children| && named == NamedOf(ChildNames(dirs[d].children)[..|named|])
    ensures dirs[d].path in DirPaths(files)
    ensures HeadSlots(volume, d) + SlotsTo(dirs[d].children, named, |named|) <= SlotsIn(files, volume, dirs[d].path)
    ensures |named| == |dirs[d].children| ==> DirSlots(volume, d, dirs[d].children, named) == SlotsIn(files, volume, dirs[d].path)
  {
    TreeNames(dirs, files, upper, d);
    DirIsPath(dirs, files, upper, d);
    OnlyRootIsEmpty(dirs, d);
    hide TreeOf, NamesAscend, NamedOf, DirPaths, NamesIn, InOrder, SlotsOf, SlotsTo, IsBlank, ChildNames;
    ChildSlotsAre(dirs[d].children, named);
  }

  lemma ChildSlotsAre(children: seq<Child>, named: seq<Named>)
    requires |named| <= |children| && named == NamedOf(ChildNames(children)[..|named|])
    ensures SlotsTo(children, named, |named|) <= SlotsOf(ChildNames(children))
    ensures |named| == |children| ==> SlotsTo(children, named, |children|) == SlotsOf(ChildNames(children))
  {
    hide NamedOf, SlotsOf, SlotsTo;
    var names := ChildNames(children);
    SlotsToIs(children, named, |named|);
    SlotsGrow(names, |named|);
    assert |named| == |children| ==> names[..|named|] == names;
  }

  /** The clusters a plan uses are the ones its files need. */
  lemma UsedIsNeeded(p: Plan, upper: string -> string)
    requires Shaped(p) && TreeOf(p.dirs, p.files, |p.files|, upper) && (forall d :: 0 <= d < |p.dirs| ==> NamesAscend(p.dirs[d].children))
    requires NamedInOrder(p.dirs, p.names)
    ensures Used(p) == ClustersNeeded(p.files, p.params)
  {
    var f := dir => DirCount(SlotsIn(p.files, p.params.volume, dir), p.params.clusterSize);
    TreeDirs(p.dirs, p.files, upper);
    forall d | 0 <= d < |p.dirs| ensures DirCounts(p)[d] == f(PathsOf(p.dirs)[d]) {
      WholeNamed(p, d);
      DirSlotsAre(p.dirs, p.files, upper, p.params.volume, d, p.names[d]);
    }
    hide TreeOf, NamesAscend, NamedOf, DirPaths, SumOver, SlotsIn, DirSlots, DirCount, NoneTwice;
    TotalIsSum(PathsOf(p.dirs), f, DirCounts(p));
    TotalOfBoth(DirCounts(p), FileCounts(p.files, p.params.clusterSize));
  }

  lemma WholeNamed(p: Plan, d: nat)
    requires NamedInOrder(p.dirs, p.names) && d < |p.dirs|
    ensures |p.names[d]| == |p.dirs[d].children| && p.names[d] == NamedOf(ChildNames(p.dirs[d].children)[..|p.names[d]|])
  {
    hide NamedOf;
    var names := ChildNames(p.dirs[d].children);
    assert names[..|names|] == names;
  }
}
