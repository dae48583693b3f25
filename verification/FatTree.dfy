/**
 The directory tree of a FAT32 image (`build_tree`): files in path order become
 children of directories created on demand, with legality, length and
 case-folded conflict checks on every component.
 */
module FatTree {
  import opened Wrappers
  import opened Bytes
  import opened FatNames

  datatype FileEntry = FileEntry(path: string, size: u64)

  datatype ChildKind = DirKind(dir: nat) | FileKind(file: nat)

  datatype Child = Child(name: string, kind: ChildKind)

  /** `path` is empty for the root, which is its own parent. */
  datatype Dir = Dir(path: string, parent: nat, children: seq<Child>)

  datatype Fat32Error =
    | BadClusterSize(size: nat)
    | BadPath(path: string)
    | NameTooLong(path: string)
    | FileTooLarge(path: string, size: nat)
    | PathConflict(path: string)
    | Unsorted(path: string)
    | DirTooLarge(path: string)
    | TooManyClusters(clusters: nat)
    | ImageTooLarge(size: nat)
  {
    /** The files are fine, only too much for the format. */
    predicate IsCapacity() {
      DirTooLarge? || TooManyClusters? || ImageTooLarge?
    }
  }

  /** FAT32 directory entries hold a 32-bit size. */
  const MAX_FILE_SIZE: nat := 0xFFFF_FFFF

  predicate IsIllegalChar(c: char) {
    c in "\"*/:<>?\\|" || c as int < 0x20
  }

  predicate IsLegal(c: string) {
    && c != "" && c != "." && c != ".."
    && c[|c| - 1] != '.' && c[|c| - 1] != ' '
    && forall i :: 0 <= i < |c| ==> !IsIllegalChar(c[i])
  }

  /** A component a directory can hold. */
  predicate IsComponent(c: string) {
    IsLegal(c) && |Utf16(c)| <= 255
  }

  // ---- Paths ----

  function Join(path: string, name: string): string {
    if path == "" then name else path + "/" + name
  }

  /** The path without leading slashes: where the tree puts it. */
  function Relative(path: string): string {
    if path != "" && path[0] == '/' then Relative(path[1..]) else path
  }

  function FirstSlash(s: string): (r: Option<nat>)
    ensures r.Some? ==> r.value < |s| && s[r.value] == '/' && '/' !in s[..r.value]
    ensures r.None? ==> '/' !in s
  {
    if s == "" then None
    else if s[0] == '/' then Some(0)
    else
      var r := FirstSlash(s[1..]);
      if r.None? then None else Some(r.value + 1)
  }

  function LastSlash(s: string): (r: Option<nat>)
    ensures r.Some? ==> r.value < |s| && s[r.value] == '/' && '/' !in s[r.value + 1..]
    ensures r.None? ==> '/' !in s
    decreases |s|
  {
    if s == "" then None
    else if s[|s| - 1] == '/' then Some(|s| - 1)
    else LastSlash(s[..|s| - 1])
  }

  /** `rsplit_once('/')`: the directory part and the name. */
  function SplitPath(path: string): (string, string) {
    var slash := LastSlash(path);
    if slash.Some? then (path[..slash.value], path[slash.value + 1..]) else ("", path)
  }

  lemma {:induction false} RelativeOfJoin(dir: string, name: string)
    requires name != "" && name[0] != '/'
    ensures Relative(dir + "/" + name) == Join(Relative(dir), name)
  {
    var path := dir + "/" + name;
    if dir == "" {
      assert path[1..] == name;
    } else {
      assert path[1..] == dir[1..] + "/" + name;
      RelativeOfJoin(dir[1..], name);
    }
  }

  lemma RelativeOfSplit(path: string)
    requires SplitPath(path).1 != ""
    ensures var (dir, name) := SplitPath(path); Relative(path) == Join(Relative(dir), name)
  {
    var slash := LastSlash(path);
    if slash.Some? {
      var (dir, name) := SplitPath(path);
      assert path == dir + "/" + name;
      assert name[0] in path[slash.value + 1..];
      RelativeOfJoin(dir, name);
    } else {
      assert path[0] in path;
    }
  }

  // ---- Order ----

  /** Lexicographic by code point, which is also the byte order of UTF-8. */
  predicate Before(a: string, b: string) {
    if b == "" then false
    else if a == "" then true
    else a[0] < b[0] || (a[0] == b[0] && Before(a[1..], b[1..]))
  }

  lemma {:induction false} BeforeTotal(a: string, b: string)
    ensures a == b || Before(a, b) || Before(b, a)
  {
    if a != "" && b != "" && a[0] == b[0] {
      BeforeTotal(a[1..], b[1..]);
    }
  }

  lemma {:induction false} BeforeTransitive(a: string, b: string, c: string)
    requires Before(a, b) && Before(b, c)
    ensures Before(a, c)
  {
    if a != "" && a[0] == b[0] == c[0] {
      BeforeTransitive(a[1..], b[1..], c[1..]);
    }
  }

  lemma {:induction false} BeforeIrreflexive(a: string)
    ensures !Before(a, a)
  {
    if a != "" {
      BeforeIrreflexive(a[1..]);
    }
  }

  ghost predicate NamesAscend(cs: seq<Child>) {
    forall i, j :: 0 <= i < j < |cs| ==> Before(cs[i].name, cs[j].name)
  }

  function InsertByName(cs: seq<Child>, c: Child): (r: seq<Child>)
    ensures |r| == |cs| + 1 && multiset(r) == multiset(cs) + multiset{c}
    decreases |cs|
  {
    if cs == [] || !Before(c.name, cs[|cs| - 1].name) then cs + [c]
    else
      assert cs == cs[..|cs| - 1] + [cs[|cs| - 1]];
      InsertByName(cs[..|cs| - 1], c) + [cs[|cs| - 1]]
  }

  function SortByName(cs: seq<Child>): (r: seq<Child>)
    ensures |r| == |cs| && multiset(r) == multiset(cs)
    decreases |cs|
  {
    if cs == [] then []
    else
      assert cs == cs[..|cs| - 1] + [cs[|cs| - 1]];
      InsertByName(SortByName(cs[..|cs| - 1]), cs[|cs| - 1])
  }

  lemma AscendMore(cs: seq<Child>, c: Child)
    requires NamesAscend(cs) && forall x :: x in cs ==> Before(x.name, c.name)
    ensures NamesAscend(cs + [c])
  {
    hide Before;
    assert forall i :: 0 <= i < |cs| ==> cs[i] in cs;
  }

  lemma {:induction false} InsertAscends(cs: seq<Child>, c: Child)
    requires NamesAscend(cs) && forall x :: x in cs ==> x.name != c.name
    ensures NamesAscend(InsertByName(cs, c))
    decreases |cs|
  {
    hide Before;
    var n := |cs|;
    if n > 0 && Before(c.name, cs[n - 1].name) {
      var init, last := cs[..n - 1], cs[n - 1];
      assert forall x :: x in init ==> x in cs;
      InsertAscends(init, c);
      forall x | x in InsertByName(init, c) ensures Before(x.name, last.name) {
        assert x in multiset(InsertByName(init, c));
        assert x in init || x == c;
      }
      AscendMore(InsertByName(init, c), last);
    } else {
      AllBefore(cs, c);
      AscendMore(cs, c);
    }
  }

  /** A name that is not before the last one comes after them all. */
  lemma AllBefore(cs: seq<Child>, c: Child)
    requires NamesAscend(cs) && (forall x :: x in cs ==> x.name != c.name) && (cs == [] || !Before(c.name, cs[|cs| - 1].name))
    ensures forall x :: x in cs ==> Before(x.name, c.name)
  {
    hide Before;
    if cs != [] {
      var last := cs[|cs| - 1];
      BeforeTotal(c.name, last.name);
      forall x | x in cs ensures Before(x.name, c.name) {
        var i :| 0 <= i < |cs| && cs[i] == x;
        if i < |cs| - 1 {
          BeforeTransitive(x.name, last.name, c.name);
        }
      }
    }
  }

  /** Names of one directory are distinct. */
  ghost predicate NamesDistinct(cs: seq<Child>) {
    forall i, j :: 0 <= i < j < |cs| ==> cs[i].name != cs[j].name
  }

  lemma {:induction false} SortAscends(cs: seq<Child>)
    requires NamesDistinct(cs)
    ensures NamesAscend(SortByName(cs))
    decreases |cs|
  {
    if cs != [] {
      var init := cs[..|cs| - 1];
      SortAscends(init);
      forall x | x in SortByName(init) ensures x.name != cs[|cs| - 1].name {
        assert x in multiset(SortByName(init));
        assert x in init;
      }
      InsertAscends(SortByName(init), cs[|cs| - 1]);
    }
  }

  lemma SortMembers(cs: seq<Child>)
    ensures forall c :: c in SortByName(cs) <==> c in cs
  {
    forall c ensures c in SortByName(cs) <==> c in cs {
      assert c in SortByName(cs) <==> c in multiset(SortByName(cs));
      assert c in cs <==> c in multiset(cs);
    }
  }

  // ---- What a tree says about its files ----

  ghost predicate StartsWith(s: string, prefix: string) {
    prefix <= s
  }

  /** A directory that lies on the way to one of the first `n` files. */
  ghost predicate OnTheWay(files: seq<FileEntry>, n: nat, path: string) {
    exists f :: 0 <= f < n && f < |files| && StartsWith(Relative(files[f].path), path + "/")
  }

  ghost predicate ChildOk(dirs: seq<Dir>, files: seq<FileEntry>, n: nat, m: nat, d: nat, c: Child)
    requires d < |dirs|
  {
    && IsComponent(c.name)
    && match c.kind
       case DirKind(i) =>
         && d < i < |dirs| && dirs[i].parent == d && dirs[i].path == Join(dirs[d].path, c.name)
         && OnTheWay(files, m, dirs[i].path)
       case FileKind(i) => i < n && i < |files| && Relative(files[i].path) == Join(dirs[d].path, c.name)
  }

  /** Every directory but the root is listed by its parent, which comes before it. */
  ghost predicate DirsListed(dirs: seq<Dir>) {
    && dirs != [] && dirs[0].path == "" && dirs[0].parent == 0
    && forall i :: 0 < i < |dirs| ==> ListedAt(dirs, i)
  }

  ghost predicate ListedAt(dirs: seq<Dir>, i: nat)
    requires i < |dirs|
  {
    dirs[i].parent < i && dirs[i].path != "" && exists c :: c in dirs[dirs[i].parent].children && c.kind == DirKind(i)
  }

  ghost predicate ChildrenOk(dirs: seq<Dir>, files: seq<FileEntry>, n: nat, m: nat) {
    forall d, c :: 0 <= d < |dirs| && c in dirs[d].children ==> ChildOk(dirs, files, n, m, d, c)
  }

  ghost predicate FileListed(dirs: seq<Dir>, f: nat) {
    exists d, c :: 0 <= d < |dirs| && c in dirs[d].children && c.kind == FileKind(f)
  }

  ghost predicate FilesListed(dirs: seq<Dir>, n: nat) {
    forall f :: 0 <= f < n ==> FileListed(dirs, f)
  }

  /** FAT is case-insensitive: no two names of a directory fold together. */
  ghost predicate FoldsDistinct(cs: seq<Child>, upper: string -> string) {
    forall i, j :: 0 <= i < j < |cs| ==> upper(cs[i].name) != upper(cs[j].name)
  }

  ghost predicate AllDistinct(dirs: seq<Dir>, upper: string -> string) {
    forall d :: 0 <= d < |dirs| ==> FoldsDistinct(dirs[d].children, upper)
  }

  /** The tree of the first `n` files: all of them, nothing else, each directory's folded names distinct. */
  ghost predicate TreeOf(dirs: seq<Dir>, files: seq<FileEntry>, n: nat, upper: string -> string) {
    && DirsListed(dirs)
    && ChildrenOk(dirs, files, n, n)
    && FilesListed(dirs, n)
    && AllDistinct(dirs, upper)
  }

  // ---- Refusals ----

  /** `name` directly under `parent` is file `f` itself, or a directory on the way to it. */
  ghost predicate NodeOf(files: seq<FileEntry>, f: nat, parent: string, name: string, isFile: bool) {
    && f < |files| && '/' !in name
    && if isFile then Relative(files[f].path) == Join(parent, name)
       else StartsWith(Relative(files[f].path), Join(parent, name) + "/")
  }

  /** Two different nodes of one directory whose names fold together. */
  ghost predicate Conflicts(files: seq<FileEntry>, upper: string -> string) {
    exists f, g, parent, a, b, fa, fb ::
      && NodeOf(files, f, parent, a, fa) && NodeOf(files, g, parent, b, fb) && upper(a) == upper(b)
      && !(fa && fb && f == g) && !(!fa && !fb && a == b)
  }

  ghost predicate NotAscending(files: seq<FileEntry>) {
    exists i :: 0 < i < |files| && !Before(files[i - 1].path, files[i].path)
  }

  /** A directory cannot hold `c`: it is legal but too long, or not legal. */
  predicate IsBad(c: string, tooLong: bool) {
    if tooLong then IsLegal(c) && |Utf16(c)| > 255 else !IsLegal(c)
  }

  /** Some component of a file's path that no directory can hold. */
  ghost predicate BadComponent(files: seq<FileEntry>, tooLong: bool) {
    exists f, before, comp, after ::
      0 <= f < |files| && Relative(files[f].path) == before + comp + after && '/' !in comp && IsBad(comp, tooLong)
      && (before == "" || before[|before| - 1] == '/') && (after == "" || after[0] == '/')
  }

  /** What a refusal says about the input. */
  ghost predicate Refused(files: seq<FileEntry>, upper: string -> string, e: Fat32Error) {
    match e
    case Unsorted(_) => NotAscending(files)
    case FileTooLarge(path, size) => exists i :: 0 <= i < |files| && files[i].path == path && files[i].size == size > MAX_FILE_SIZE
    case BadPath(_) => BadComponent(files, false)
    case NameTooLong(_) => BadComponent(files, true)
    case PathConflict(_) => Conflicts(files, upper)
    case _ => false
  }

  // ---- Growing a tree ----

  function WithChild(dirs: seq<Dir>, d: nat, c: Child): (r: seq<Dir>)
    requires d < |dirs|
    ensures |r| == |dirs|
    ensures forall e :: 0 <= e < |r| ==> r[e].path == dirs[e].path && r[e].parent == dirs[e].parent
    ensures forall e, x :: 0 <= e < |r| ==> (x in r[e].children <==> x in dirs[e].children || (e == d && x == c))
  {
    dirs[d := dirs[d].(children := dirs[d].children + [c])]
  }

  /** A new empty directory, listed in its parent. */
  function WithDir(dirs: seq<Dir>, d: nat, name: string): seq<Dir>
    requires d < |dirs|
  {
    WithChild(dirs + [Dir(Join(dirs[d].path, name), d, [])], d, Child(name, DirKind(|dirs|)))
  }

  lemma ChildKeepsListed(dirs: seq<Dir>, d: nat, c: Child)
    requires d < |dirs| && DirsListed(dirs)
    ensures DirsListed(WithChild(dirs, d, c))
  {
    var r := WithChild(dirs, d, c);
    forall i | 0 < i < |r| ensures ListedAt(r, i) {
      assert ListedAt(dirs, i);
      var x :| x in dirs[dirs[i].parent].children && x.kind == DirKind(i);
      assert x in r[r[i].parent].children;
    }
  }

  lemma ChildKeepsOk(dirs: seq<Dir>, files: seq<FileEntry>, n: nat, m: nat, d: nat, c: Child)
    requires d < |dirs| && ChildrenOk(dirs, files, n, m) && ChildOk(dirs, files, n, m, d, c)
    ensures ChildrenOk(WithChild(dirs, d, c), files, n, m)
  {
    var r := WithChild(dirs, d, c);
    forall e, x | 0 <= e < |r| && x in r[e].children ensures ChildOk(r, files, n, m, e, x) {
      assert x in dirs[e].children || (e == d && x == c);
      assert ChildOk(dirs, files, n, m, e, x);
    }
  }

  lemma ChildKeepsDistinct(dirs: seq<Dir>, d: nat, c: Child, upper: string -> string)
    requires d < |dirs| && AllDistinct(dirs, upper) && forall x :: x in dirs[d].children ==> upper(x.name) != upper(c.name)
    ensures AllDistinct(WithChild(dirs, d, c), upper)
  {
    var cs := dirs[d].children;
    assert FoldsDistinct(cs, upper);
    forall i, j | 0 <= i < j < |cs| + 1 ensures upper((cs + [c])[i].name) != upper((cs + [c])[j].name) {
      assert cs[i] in cs;
    }
  }

  lemma ChildKeepsFiles(dirs: seq<Dir>, d: nat, c: Child, n: nat)
    requires d < |dirs| && FilesListed(dirs, n)
    ensures FilesListed(WithChild(dirs, d, c), n)
    ensures c.kind == FileKind(n) ==> FilesListed(WithChild(dirs, d, c), n + 1)
  {
    var r := WithChild(dirs, d, c);
    forall f | 0 <= f < n ensures FileListed(r, f) {
      assert FileListed(dirs, f);
      var e, x :| 0 <= e < |dirs| && x in dirs[e].children && x.kind == FileKind(f);
      assert x in r[e].children;
    }
    if c.kind == FileKind(n) {
      assert c in r[d].children;
    }
  }

  /** A new directory not yet listed anywhere. */
  function Longer(dirs: seq<Dir>, d: nat, name: string): seq<Dir>
    requires d < |dirs|
  {
    dirs + [Dir(Join(dirs[d].path, name), d, [])]
  }

  lemma DirKeepsOk(dirs: seq<Dir>, files: seq<FileEntry>, n: nat, m: nat, d: nat, name: string)
    requires ChildrenOk(dirs, files, n, m)
    requires d < |dirs| && IsComponent(name) && OnTheWay(files, m, Join(dirs[d].path, name))
    ensures ChildrenOk(WithDir(dirs, d, name), files, n, m)
  {
    var longer := Longer(dirs, d, name);
    forall e, x | 0 <= e < |longer| && x in longer[e].children ensures ChildOk(longer, files, n, m, e, x) {
      assert e < |dirs|;
      assert ChildOk(dirs, files, n, m, e, x);
    }
    ChildKeepsOk(longer, files, n, m, d, Child(name, DirKind(|dirs|)));
  }

  lemma DirKeepsFiles(dirs: seq<Dir>, n: nat, d: nat, name: string)
    requires FilesListed(dirs, n) && d < |dirs|
    ensures FilesListed(WithDir(dirs, d, name), n)
  {
    var longer := Longer(dirs, d, name);
    forall f | 0 <= f < n ensures FileListed(longer, f) {
      assert FileListed(dirs, f);
      var e, x :| 0 <= e < |dirs| && x in dirs[e].children && x.kind == FileKind(f);
      assert x in longer[e].children;
    }
    ChildKeepsFiles(longer, d, Child(name, DirKind(|dirs|)), n);
  }

  lemma DirKeepsDistinct(dirs: seq<Dir>, d: nat, name: string, upper: string -> string)
    requires AllDistinct(dirs, upper) && d < |dirs| && forall x :: x in dirs[d].children ==> upper(x.name) != upper(name)
    ensures AllDistinct(WithDir(dirs, d, name), upper)
  {
    var longer := Longer(dirs, d, name);
    forall e | 0 <= e < |longer| ensures FoldsDistinct(longer[e].children, upper) {
      if e < |dirs| {
        assert FoldsDistinct(dirs[e].children, upper);
      }
    }
    ChildKeepsDistinct(longer, d, Child(name, DirKind(|dirs|)), upper);
  }

  lemma OneListed(dirs: seq<Dir>, i: nat)
    requires DirsListed(dirs) && 0 < i < |dirs|
    ensures ListedAt(dirs, i)
  {
  }

  lemma DirKeepsListed(dirs: seq<Dir>, d: nat, name: string)
    requires DirsListed(dirs) && d < |dirs| && name != ""
    ensures DirsListed(WithDir(dirs, d, name))
  {
    var c := Child(name, DirKind(|dirs|));
    var longer := Longer(dirs, d, name);
    var r := WithChild(longer, d, c);
    assert r == WithDir(dirs, d, name) && Join(dirs[d].path, name) != "";
    hide WithDir, Join;
    forall i | 0 < i < |r| ensures ListedAt(r, i) {
      if i < |dirs| {
        OneListed(dirs, i);
        var x :| x in dirs[dirs[i].parent].children && x.kind == DirKind(i);
        assert x in longer[dirs[i].parent].children;
        assert x in r[r[i].parent].children;
      } else {
        assert c in r[d].children;
      }
    }
  }

  lemma DirKeepsFolds(dirs: seq<Dir>, names: set<(nat, string)>, upper: string -> string, d: nat, name: string)
    requires d < |dirs| && Folds(dirs, names, upper)
    ensures Folds(WithDir(dirs, d, name), names + {(d, upper(name))}, upper)
  {
    var longer := Longer(dirs, d, name);
    forall k | k in names ensures k.0 < |longer| && exists x :: x in longer[k.0].children && upper(x.name) == k.1 {
      var x :| x in dirs[k.0].children && upper(x.name) == k.1;
      assert x in longer[k.0].children;
    }
    ChildKeepsFolds(longer, names, upper, d, Child(name, DirKind(|dirs|)));
  }

  lemma MoreOnTheWay(dirs: seq<Dir>, files: seq<FileEntry>, n: nat, m: nat, m': nat)
    requires m <= m' && ChildrenOk(dirs, files, n, m)
    ensures ChildrenOk(dirs, files, n, m')
  {
    forall d, c | 0 <= d < |dirs| && c in dirs[d].children ensures ChildOk(dirs, files, n, m', d, c) {
      assert ChildOk(dirs, files, n, m, d, c);
    }
  }

  lemma MoreFilesOk(dirs: seq<Dir>, files: seq<FileEntry>, n: nat, n': nat, m: nat)
    requires n <= n' && ChildrenOk(dirs, files, n, m)
    ensures ChildrenOk(dirs, files, n', m)
  {
    forall d, c | 0 <= d < |dirs| && c in dirs[d].children ensures ChildOk(dirs, files, n', m, d, c) {
      assert ChildOk(dirs, files, n, m, d, c);
    }
  }

  // ---- Building ----

  /** Case-folded names taken in each directory, exactly. */
  ghost predicate Folds(dirs: seq<Dir>, names: set<(nat, string)>, upper: string -> string) {
    && (forall d, c :: 0 <= d < |dirs| && c in dirs[d].children ==> (d, upper(c.name)) in names)
    && forall k :: k in names ==> k.0 < |dirs| && exists c :: c in dirs[k.0].children && upper(c.name) == k.1
  }

  lemma ChildKeepsFolds(dirs: seq<Dir>, names: set<(nat, string)>, upper: string -> string, d: nat, c: Child)
    requires d < |dirs| && Folds(dirs, names, upper)
    ensures Folds(WithChild(dirs, d, c), names + {(d, upper(c.name))}, upper)
  {
    var r := WithChild(dirs, d, c);
    forall k | k in names + {(d, upper(c.name))} ensures k.0 < |r| && exists x :: x in r[k.0].children && upper(x.name) == k.1 {
      if k in names {
        var x :| x in dirs[k.0].children && upper(x.name) == k.1;
        assert x in r[k.0].children;
      } else {
        assert c in r[d].children;
      }
    }
  }

  /** A folded name that is free belongs to no child. */
  lemma FreshName(dirs: seq<Dir>, names: set<(nat, string)>, upper: string -> string, d: nat, name: string)
    requires d < |dirs| && Folds(dirs, names, upper) && (d, upper(name)) !in names
    ensures forall x :: x in dirs[d].children ==> upper(x.name) != upper(name)
  {
  }

  lemma TakenName(dirs: seq<Dir>, names: set<(nat, string)>, upper: string -> string, d: nat, name: string)
    requires d < |dirs| && Folds(dirs, names, upper) && (d, upper(name)) in names
    ensures exists x :: x in dirs[d].children && upper(x.name) == upper(name)
  {
  }

  /** The path index names directories by their paths. */
  ghost predicate Paths(dirs: seq<Dir>, byPath: map<string, nat>) {
    && (forall p :: p in byPath ==> byPath[p] < |dirs| && dirs[byPath[p]].path == p && (p == "" || p[0] != '/'))
    && forall i :: 0 <= i < |dirs| ==> dirs[i].path in byPath
  }

  /** The tree of the first `n` files; directories on the way to file `m - 1` may already exist. */
  ghost predicate Growing(dirs: seq<Dir>, files: seq<FileEntry>, n: nat, m: nat, upper: string -> string) {
    DirsListed(dirs) && ChildrenOk(dirs, files, n, m) && FilesListed(dirs, n) && AllDistinct(dirs, upper)
  }

  lemma FileGrows(dirs: seq<Dir>, names: set<(nat, string)>, upper: string -> string, d: nat, name: string, files: seq<FileEntry>, n: nat)
    requires n < |files| && Growing(dirs, files, n, n + 1, upper) && d < |dirs|
    requires Folds(dirs, names, upper) && (d, upper(name)) !in names
    requires IsComponent(name) && Relative(files[n].path) == Join(dirs[d].path, name)
    ensures var r := WithChild(dirs, d, Child(name, FileKind(n)));
            Growing(r, files, n + 1, n + 1, upper) && Folds(r, names + {(d, upper(name))}, upper)
  {
    hide DirsListed, ChildrenOk, FilesListed, AllDistinct, Folds, IsComponent, Relative;
    var c := Child(name, FileKind(n));
    FreshName(dirs, names, upper, d, name);
    ChildKeepsListed(dirs, d, c);
    MoreFilesOk(dirs, files, n, n + 1, n + 1);
    ChildKeepsOk(dirs, files, n + 1, n + 1, d, c);
    ChildKeepsFiles(dirs, d, c, n);
    ChildKeepsDistinct(dirs, d, c, upper);
    ChildKeepsFolds(dirs, names, upper, d, c);
  }

  lemma DirGrows(dirs: seq<Dir>, names: set<(nat, string)>, upper: string -> string, d: nat, name: string, files: seq<FileEntry>, n: nat)
    requires n < |files| && Growing(dirs, files, n, n + 1, upper) && d < |dirs|
    requires Folds(dirs, names, upper) && (d, upper(name)) !in names
    requires IsComponent(name) && OnTheWay(files, n + 1, Join(dirs[d].path, name))
    ensures var r := WithDir(dirs, d, name);
            Growing(r, files, n, n + 1, upper) && Folds(r, names + {(d, upper(name))}, upper)
  {
    hide DirsListed, ChildrenOk, FilesListed, AllDistinct, Folds, OnTheWay;
    FreshName(dirs, names, upper, d, name);
    DirKeepsListed(dirs, d, name);
    DirKeepsOk(dirs, files, n, n + 1, d, name);
    DirKeepsFiles(dirs, n, d, name);
    DirKeepsDistinct(dirs, d, name, upper);
    DirKeepsFolds(dirs, names, upper, d, name);
  }

  lemma DirKeepsPaths(dirs: seq<Dir>, byPath: map<string, nat>, d: nat, name: string)
    requires d < |dirs| && Paths(dirs, byPath) && IsComponent(name) && Join(dirs[d].path, name) !in byPath
    ensures Paths(WithDir(dirs, d, name), byPath[Join(dirs[d].path, name) := |dirs|])
  {
    assert !IsIllegalChar(name[0]);
    assert dirs[d].path in byPath;
  }

  // ---- Path steps ----

  /** `soFar` followed by what is left of a directory path, as the tree places it. */
  function Chain(soFar: string, rest: string): string {
    if soFar == "" then Relative(rest) else soFar + "/" + rest
  }

  lemma ChainStep(soFar: string, comp: string, rest: string)
    requires '/' !in comp && (soFar != "" ==> comp != "")
    ensures Chain(soFar, comp + "/" + rest) == Chain(Join(soFar, comp), rest)
    ensures Chain(soFar, comp) == Join(soFar, comp)
  {
    var s := comp + "/" + rest;
    if soFar == "" {
      if comp == "" {
        assert s[1..] == rest;
      } else {
        assert s[0] == comp[0] && comp[0] in comp;
      }
    } else {
      assert soFar + "/" + s == (soFar + "/" + comp) + "/" + rest;
    }
  }

  /** A component met on the way to file `f` shows in the file's path. */
  lemma ComponentShows(files: seq<FileEntry>, f: nat, soFar: string, comp: string, tail: string)
    requires f < |files| && Relative(files[f].path) == Join(soFar, comp) + tail
    requires '/' !in comp && (tail == "" || tail[0] == '/')
    ensures forall tooLong :: IsBad(comp, tooLong) ==> BadComponent(files, tooLong)
    ensures tail != "" && f < |files| ==> OnTheWay(files, f + 1, Join(soFar, comp)) && NodeOf(files, f, soFar, comp, false)
  {
    var before := if soFar == "" then "" else soFar + "/";
    assert Relative(files[f].path) == before + comp + tail;
    if tail != "" {
      assert Join(soFar, comp) + tail == (Join(soFar, comp) + "/") + tail[1..];
      assert StartsWith(Relative(files[f].path), Join(soFar, comp) + "/");
    }
  }

  lemma LegalPlain(name: string)
    requires IsLegal(name)
    ensures name != "" && '/' !in name
  {
    assert IsIllegalChar('/');
  }

  /** A taken name is a conflict with whatever took it. */
  lemma TakenConflicts(dirs: seq<Dir>, files: seq<FileEntry>, n: nat, d: nat, name: string, isFile: bool, x: Child, upper: string -> string)
    requires n < |files| && d < |dirs| && Growing(dirs, files, n, n + 1, upper) && x in dirs[d].children
    requires NodeOf(files, n, dirs[d].path, name, isFile) && upper(x.name) == upper(name)
    requires !isFile ==> forall i :: 0 <= i < |dirs| ==> dirs[i].path != Join(dirs[d].path, name)
    ensures Conflicts(files, upper)
  {
    assert ChildOk(dirs, files, n, n + 1, d, x);
    LegalPlain(x.name);
    match x.kind {
      case FileKind(i) =>
        assert NodeOf(files, i, dirs[d].path, x.name, true);
      case DirKind(i) =>
        var g :| 0 <= g < n + 1 && g < |files| && StartsWith(Relative(files[g].path), dirs[i].path + "/");
        assert NodeOf(files, g, dirs[d].path, x.name, false);
    }
  }

  class TreeBuilder {
    var dirs: seq<Dir>
    var byPath: map<string, nat>
    var names: set<(nat, string)>

    ghost predicate Valid(files: seq<FileEntry>, n: nat, m: nat, upper: string -> string)
      reads this
    {
      n <= m <= |files| && Growing(dirs, files, n, m, upper) && Paths(dirs, byPath) && Folds(dirs, names, upper)
    }

    constructor (files: seq<FileEntry>, upper: string -> string)
      ensures Valid(files, 0, 0, upper)
    {
      dirs := [Dir("", 0, [])];
      byPath := map["" := 0];
      names := {};
    }

    /** Enter file `n` into directory `d`, unless its folded name is taken there. */
    method AddFile(d: nat, name: string, files: seq<FileEntry>, n: nat, upper: string -> string) returns (ok: bool)
      requires n < |files| && Valid(files, n, n + 1, upper) && d < |dirs|
      requires IsComponent(name) && Relative(files[n].path) == Join(dirs[d].path, name)
      modifies this
      ensures ok ==> Valid(files, n + 1, n + 1, upper)
      ensures !ok ==> dirs == old(dirs) && Valid(files, n, n + 1, upper) && exists x :: x in dirs[d].children && upper(x.name) == upper(name)
    {
      hide Growing, Folds, IsComponent, Relative, Join;
      if (d, upper(name)) in names {
        TakenName(dirs, names, upper, d, name);
        return false;
      }
      FileGrows(dirs, names, upper, d, name, files, n);
      names := names + {(d, upper(name))};
      dirs := WithChild(dirs, d, Child(name, FileKind(n)));
      return true;
    }

    /** Create a directory under `d`, unless its folded name is taken there. */
    method AddDir(d: nat, name: string, files: seq<FileEntry>, n: nat, upper: string -> string) returns (ok: bool)
      requires n < |files| && Valid(files, n, n + 1, upper) && d < |dirs|
      requires IsComponent(name) && OnTheWay(files, n + 1, Join(dirs[d].path, name)) && Join(dirs[d].path, name) !in byPath
      modifies this
      ensures ok ==> Valid(files, n, n + 1, upper) && |dirs| == |old(dirs)| + 1 && dirs[|dirs| - 1].path == Join(old(dirs)[d].path, name)
      ensures !ok ==> dirs == old(dirs) && exists x :: x in dirs[d].children && upper(x.name) == upper(name)
    {
      hide Growing, Folds, IsComponent, OnTheWay, Join, Paths;
      if (d, upper(name)) in names {
        TakenName(dirs, names, upper, d, name);
        return false;
      }
      DirGrows(dirs, names, upper, d, name, files, n);
      DirKeepsPaths(dirs, byPath, d, name);
      names := names + {(d, upper(name))};
      byPath := byPath[Join(dirs[d].path, name) := |dirs|];
      dirs := WithDir(dirs, d, name);
      return true;
    }

    /**
     `ensure_dir`: the directory of file `n`'s path, creating what is missing
     left to right.
     */
    method EnsureDir(path: string, files: seq<FileEntry>, n: nat, upper: string -> string) returns (r: Result<nat, Fat32Error>)
      requires n < |files| && Valid(files, n, n + 1, upper)
      requires SplitPath(files[n].path).0 == path && SplitPath(files[n].path).1 != ""
      modifies this
      ensures r.Ok? ==> Valid(files, n, n + 1, upper) && r.value < |dirs| && dirs[r.value].path == Relative(path)
      ensures r.Err? ==> Refused(files, upper, r.error)
    {
      hide Growing, Paths, Folds, Chain, Join, Relative, Refused, IsComponent, SplitPath;
      RelativeOfSplit(files[n].path);
      Found(dirs, byPath, path);
      if path in byPath {
        return Ok(byPath[path]);
      }
      RootFound(dirs, files, upper, n, n + 1, byPath);
      ChainStart(path);
      var parent: nat := byPath[""];
      var soFar, rest, more := "", path, true;
      while more
        invariant Valid(files, n, n + 1, upper)
        invariant parent < |dirs| && dirs[parent].path == soFar
        invariant if more then Relative(path) == Chain(soFar, rest) else Relative(path) == soFar
        decreases more, |rest|
      {
        var slash := FirstSlash(rest);
        var comp := if slash.Some? then rest[..slash.value] else rest;
        var next := Join(soFar, comp);
        parent :- Step(parent, soFar, comp, rest, slash, path, files, n, upper);
        soFar := next;
        more := slash.Some?;
        rest := if more then rest[slash.value + 1..] else "";
      }
      return Ok(parent);
    }

    /** One component of `ensure_dir`: found, or created under `parent`. */
    method Step(parent: nat, soFar: string, comp: string, rest: string, slash: Option<nat>, ghost path: string,
                files: seq<FileEntry>, n: nat, upper: string -> string)
      returns (r: Result<nat, Fat32Error>)
      requires n < |files| && Valid(files, n, n + 1, upper) && parent < |dirs| && dirs[parent].path == soFar
      requires slash == FirstSlash(rest) && comp == if slash.Some? then rest[..slash.value] else rest
      requires Relative(path) == Chain(soFar, rest)
      requires SplitPath(files[n].path).1 != "" && Relative(files[n].path) == Join(Relative(path), SplitPath(files[n].path).1)
      modifies this
      ensures r.Ok? ==> Valid(files, n, n + 1, upper) && r.value < |dirs| && dirs[r.value].path == Join(soFar, comp)
      ensures r.Ok? ==> Relative(path) == if slash.Some? then Chain(Join(soFar, comp), rest[slash.value + 1..]) else Join(soFar, comp)
      ensures r.Err? ==> Refused(files, upper, r.error)
    {
      hide Growing, Paths, Folds, Chain, Join, Relative, Refused, SplitPath, FirstSlash, OnTheWay, NodeOf, BadComponent, Conflicts;
      var next := Join(soFar, comp);
      Found(dirs, byPath, next);
      RootFound(dirs, files, upper, n, n + 1, byPath);
      if next in byPath {
        NoTrailingSlash(dirs, files, upper, n, n + 1, byPath[next], soFar, comp);
        StepChain(soFar, comp, rest, slash);
        return Ok(byPath[next]);
      }
      JoinRoot(comp);
      ghost var tail := StepTail(soFar, comp, rest, slash, Relative(path), SplitPath(files[n].path).1);
      ComponentShows(files, n, soFar, comp, tail);
      RefusedBad(files, upper, next);
      if !IsLegal(comp) {
        return Err(BadPath(next));
      }
      if |Utf16(comp)| > 255 {
        return Err(NameTooLong(next));
      }
      StepChain(soFar, comp, rest, slash);
      var ok := AddDir(parent, comp, files, n, upper);
      if !ok {
        var x :| x in dirs[parent].children && upper(x.name) == upper(comp);
        TakenConflicts(dirs, files, n, parent, comp, false, x, upper);
        return Err(PathConflict(next));
      }
      return Ok(|dirs| - 1);
    }
  }

  /** How the component splits the rest of the path, and that it cannot be empty in the middle of one. */
  lemma StepChain(soFar: string, comp: string, rest: string, slash: Option<nat>)
    requires slash == FirstSlash(rest) && comp == if slash.Some? then rest[..slash.value] else rest
    requires soFar != "" ==> comp != ""
    ensures Chain(soFar, rest) == if slash.Some? then Chain(Join(soFar, comp), rest[slash.value + 1..]) else Join(soFar, comp)
  {
    if slash.Some? {
      assert rest == comp + "/" + rest[slash.value + 1..];
      ChainStep(soFar, comp, rest[slash.value + 1..]);
    } else {
      ChainStep(soFar, comp, "");
    }
  }

  /** What follows a component that is not empty at the front of the path. */
  lemma StepTail(soFar: string, comp: string, rest: string, slash: Option<nat>, dir: string, name: string) returns (tail: string)
    requires slash == FirstSlash(rest) && comp == if slash.Some? then rest[..slash.value] else rest
    requires dir == Chain(soFar, rest) && (soFar == "" ==> comp != "")
    ensures tail != "" && tail[0] == '/' && Join(dir, name) == Join(soFar, comp) + tail
  {
    if soFar == "" {
      assert rest[0] == comp[0] && comp[0] in comp;
    }
    assert dir == if soFar == "" then rest else soFar + "/" + rest;
    hide FirstSlash, Relative, Chain, Join;
    var more := if slash.Some? then "/" + rest[slash.value + 1..] else "";
    assert rest == comp + more;
    tail := more + "/" + name;
    JoinMore(soFar, comp, more, name);
  }

  lemma JoinMore(soFar: string, comp: string, more: string, name: string)
    requires soFar == "" ==> comp != ""
    ensures var dir := if soFar == "" then comp + more else soFar + "/" + (comp + more);
            Join(dir, name) == Join(soFar, comp) + (more + "/" + name)
  {
    var dir := if soFar == "" then comp + more else soFar + "/" + (comp + more);
    assert dir == Join(soFar, comp) + more;
    assert Join(dir, name) == dir + "/" + name;
  }

  /** No directory's path ends in a slash, so an empty component is never found below another. */
  lemma NoTrailingSlash(dirs: seq<Dir>, files: seq<FileEntry>, upper: string -> string, n: nat, m: nat, i: nat, soFar: string, comp: string)
    requires Growing(dirs, files, n, m, upper) && i < |dirs| && dirs[i].path == Join(soFar, comp)
    ensures soFar != "" ==> comp != ""
  {
    if i > 0 {
      var parent, c := ListedBy(dirs, files, n, m, i);
      LastOfJoin(parent, c.name);
    }
  }

  lemma ListedBy(dirs: seq<Dir>, files: seq<FileEntry>, n: nat, m: nat, i: nat) returns (parent: string, c: Child)
    requires DirsListed(dirs) && ChildrenOk(dirs, files, n, m) && 0 < i < |dirs|
    ensures IsComponent(c.name) && dirs[i].path == Join(parent, c.name)
  {
    assert ListedAt(dirs, i);
    c :| c in dirs[dirs[i].parent].children && c.kind == DirKind(i);
    assert ChildOk(dirs, files, n, m, dirs[i].parent, c);
    parent := dirs[dirs[i].parent].path;
  }

  lemma LastOfJoin(parent: string, name: string)
    requires IsComponent(name)
    ensures Join(parent, name) != "" && Join(parent, name)[|Join(parent, name)| - 1] != '/'
  {
    assert !IsIllegalChar(name[|name| - 1]);
    assert Join(parent, name)[|Join(parent, name)| - 1] == name[|name| - 1];
  }

  lemma RootFound(dirs: seq<Dir>, files: seq<FileEntry>, upper: string -> string, n: nat, m: nat, byPath: map<string, nat>)
    requires Growing(dirs, files, n, m, upper) && Paths(dirs, byPath)
    ensures "" in byPath && byPath[""] < |dirs| && dirs[byPath[""]].path == ""
  {
    assert dirs[0].path == "";
  }

  lemma Found(dirs: seq<Dir>, byPath: map<string, nat>, path: string)
    requires Paths(dirs, byPath)
    ensures path in byPath ==> byPath[path] < |dirs| && dirs[byPath[path]].path == path == Relative(path)
    ensures path !in byPath ==> forall i :: 0 <= i < |dirs| ==> dirs[i].path != path
  {
  }

  lemma JoinRoot(comp: string)
    ensures Join("", comp) == comp
  {
  }

  lemma ChainStart(path: string)
    ensures Chain("", path) == Relative(path)
  {
  }

  lemma RefusedBad(files: seq<FileEntry>, upper: string -> string, path: string)
    ensures BadComponent(files, false) ==> Refused(files, upper, BadPath(path))
    ensures BadComponent(files, true) ==> Refused(files, upper, NameTooLong(path))
    ensures Conflicts(files, upper) ==> Refused(files, upper, PathConflict(path))
  {
  }

  // ---- The last component ----

  lemma RelativeBoundary(path: string)
    requires path == "" || path[|path| - 1] == '/'
    ensures Relative(path) == "" || Relative(path)[|Relative(path)| - 1] == '/'
  {
  }

  /** A last component no directory can hold shows in the path. */
  lemma BadNameShows(files: seq<FileEntry>, f: nat, tooLong: bool)
    requires f < |files| && IsBad(SplitPath(files[f].path).1, tooLong)
    ensures BadComponent(files, tooLong)
  {
    var path := files[f].path;
    var (dir, name) := SplitPath(path);
    if name == "" {
      RelativeBoundary(path);
      assert Relative(path) == Relative(path) + "" + "";
    } else {
      RelativeOfSplit(path);
      var before := if Relative(dir) == "" then "" else Relative(dir) + "/";
      assert Relative(path) == before + name + "";
    }
  }

  lemma NameConflicts(dirs: seq<Dir>, files: seq<FileEntry>, n: nat, d: nat, name: string, x: Child, upper: string -> string)
    requires n < |files| && d < |dirs| && Growing(dirs, files, n, n + 1, upper) && x in dirs[d].children
    requires Relative(files[n].path) == Join(dirs[d].path, name) && upper(x.name) == upper(name) && IsLegal(name)
    ensures Conflicts(files, upper)
  {
    LegalPlain(name);
    assert NodeOf(files, n, dirs[d].path, name, true);
    TakenConflicts(dirs, files, n, d, name, true, x, upper);
  }

  // ---- Sorted children ----

  function Sorted(dirs: seq<Dir>): (r: seq<Dir>)
    ensures |r| == |dirs|
    ensures forall d :: 0 <= d < |r| ==> r[d] == dirs[d].(children := SortByName(dirs[d].children))
  {
    seq(|dirs|, d requires 0 <= d < |dirs| => dirs[d].(children := SortByName(dirs[d].children)))
  }

  lemma SortKeepsFolds(cs: seq<Child>, upper: string -> string)
    requires FoldsDistinct(cs, upper)
    ensures FoldsDistinct(SortByName(cs), upper) && NamesAscend(SortByName(cs))
  {
    var r := SortByName(cs);
    SortAscends(cs);
    SortMembers(cs);
    forall i, j | 0 <= i < j < |r| ensures upper(r[i].name) != upper(r[j].name) {
      assert r[i] in cs && r[j] in cs;
      BeforeIrreflexive(r[i].name);
    }
  }

  /** Sorting each directory's children changes nothing but their order. */
  lemma SortKeepsTree(dirs: seq<Dir>, files: seq<FileEntry>, n: nat, upper: string -> string)
    requires TreeOf(dirs, files, n, upper)
    ensures TreeOf(Sorted(dirs), files, n, upper)
    ensures forall d :: 0 <= d < |dirs| ==> NamesAscend(Sorted(dirs)[d].children)
  {
    var r := Sorted(dirs);
    forall d | 0 <= d < |dirs| ensures forall c :: c in r[d].children <==> c in dirs[d].children {
      SortMembers(dirs[d].children);
    }
    forall d | 0 <= d < |dirs| ensures FoldsDistinct(r[d].children, upper) && NamesAscend(r[d].children) {
      assert FoldsDistinct(dirs[d].children, upper);
      SortKeepsFolds(dirs[d].children, upper);
    }
    SameMembers(dirs, r, files, n);
  }

  lemma SameMembers(dirs: seq<Dir>, r: seq<Dir>, files: seq<FileEntry>, n: nat)
    requires |r| == |dirs| && forall d :: 0 <= d < |dirs| ==> r[d].path == dirs[d].path && r[d].parent == dirs[d].parent
    requires forall d, c :: 0 <= d < |dirs| ==> (c in r[d].children <==> c in dirs[d].children)
    requires DirsListed(dirs) && ChildrenOk(dirs, files, n, n) && FilesListed(dirs, n)
    ensures DirsListed(r) && ChildrenOk(r, files, n, n) && FilesListed(r, n)
  {
    hide IsComponent, OnTheWay, Join, Relative;
    forall d, c | 0 <= d < |r| && c in r[d].children ensures ChildOk(r, files, n, n, d, c) {
      SameChild(dirs, r, files, n, d, c);
    }
    hide ChildOk;
    forall f | 0 <= f < n ensures FileListed(r, f) {
      assert FileListed(dirs, f);
      var d, c :| 0 <= d < |dirs| && c in dirs[d].children && c.kind == FileKind(f);
      assert c in r[d].children;
    }
    SameListed(dirs, r);
  }

  lemma SameListed(dirs: seq<Dir>, r: seq<Dir>)
    requires |r| == |dirs| && forall d :: 0 <= d < |dirs| ==> r[d].path == dirs[d].path && r[d].parent == dirs[d].parent
    requires forall d, c :: 0 <= d < |dirs| ==> (c in r[d].children <==> c in dirs[d].children)
    requires DirsListed(dirs)
    ensures DirsListed(r)
  {
    assert r[0].path == dirs[0].path && r[0].parent == dirs[0].parent;
    forall i | 0 < i < |r| ensures ListedAt(r, i) {
      OneListed(dirs, i);
      assert r[i].path == dirs[i].path && r[i].parent == dirs[i].parent;
      var c :| c in dirs[dirs[i].parent].children && c.kind == DirKind(i);
      assert c in r[r[i].parent].children;
    }
  }

  lemma SameChild(dirs: seq<Dir>, r: seq<Dir>, files: seq<FileEntry>, n: nat, d: nat, c: Child)
    requires |r| == |dirs| && forall e :: 0 <= e < |dirs| ==> r[e].path == dirs[e].path && r[e].parent == dirs[e].parent
    requires d < |dirs| && ChildOk(dirs, files, n, n, d, c)
    ensures ChildOk(r, files, n, n, d, c)
  {
    hide IsComponent, OnTheWay, Join, Relative;
    match c.kind
    case DirKind(i) => assert r[i].path == dirs[i].path && r[i].parent == dirs[i].parent && r[d].path == dirs[d].path;
    case FileKind(_) => assert r[d].path == dirs[d].path;
  }

  method SortChildren(dirs: seq<Dir>) returns (r: seq<Dir>)
    ensures r == Sorted(dirs)
  {
    r := dirs;
    for i := 0 to |dirs|
      invariant |r| == |dirs|
      invariant forall d :: 0 <= d < i ==> r[d] == dirs[d].(children := SortByName(dirs[d].children))
      invariant forall d :: i <= d < |dirs| ==> r[d] == dirs[d]
    {
      r := r[i := r[i].(children := SortByName(r[i].children))];
    }
  }

  // ---- A tree leaves no fault ----

  /** Where the last slash of a joined path stands. */
  lemma JoinSlash(p: string, a: string)
    requires '/' !in a
    ensures forall k :: 0 <= k < |a| ==> a[k] != '/'
    ensures p == "" ==> Join(p, a) == a
    ensures p != "" ==> Join(p, a) == p + "/" + a && |Join(p, a)| > |p| && Join(p, a)[|p|] == '/'
    ensures p != "" ==> forall k :: |p| < k < |Join(p, a)| ==> Join(p, a)[k] != '/'
  {
    forall k | 0 <= k < |a| ensures a[k] != '/' {
      assert a[k] in a;
    }
  }

  /** A path ends in one name only. */
  lemma JoinInjective(p: string, a: string, q: string, b: string)
    requires Join(p, a) == Join(q, b) && '/' !in a && '/' !in b
    ensures p == q && a == b
  {
    JoinSlash(p, a);
    JoinSlash(q, b);
    var s := Join(p, a);
    assert p != "" ==> s[..|p|] == p && s[|p| + 1..] == a;
    assert q != "" ==> s[..|q|] == q && s[|q| + 1..] == b;
  }

  /** What lies above a named node lies at or above its directory. */
  lemma PrefixOfJoin(q: string, p: string, a: string)
    requires StartsWith(Join(p, a), q + "/") && '/' !in a
    ensures p != "" && (q == p || StartsWith(p, q + "/"))
  {
    JoinSlash(p, a);
    var s := Join(p, a);
    assert s[|q|] == (q + "/")[|q|] == '/';
    assert s[..|q|] == q && s[..|q| + 1] == q + "/";
    assert p != "" ==> s[..|p|] == p;
    assert p != "" && |q| < |p| ==> s[..|q| + 1] == p[..|q| + 1];
  }

  /** A directory's entry in its parent. */
  lemma DirEntryOf(dirs: seq<Dir>, files: seq<FileEntry>, n: nat, i: nat) returns (d: nat, c: Child)
    requires DirsListed(dirs) && ChildrenOk(dirs, files, n, n) && 0 < i < |dirs|
    ensures d < i && c in dirs[d].children && c.kind == DirKind(i) && IsComponent(c.name) && dirs[i].path == Join(dirs[d].path, c.name)
  {
    assert ListedAt(dirs, i);
    d := dirs[i].parent;
    c :| c in dirs[d].children && c.kind == DirKind(i);
    assert ChildOk(dirs, files, n, n, d, c);
  }

  /** Going up from a directory, every directory above it is met. */
  lemma {:induction false} Above(dirs: seq<Dir>, files: seq<FileEntry>, n: nat, i: nat, parent: string, name: string) returns (d: nat, c: Child)
    requires DirsListed(dirs) && ChildrenOk(dirs, files, n, n) && i < |dirs| && '/' !in name && Join(parent, name) != ""
    requires dirs[i].path == Join(parent, name) || StartsWith(dirs[i].path, Join(parent, name) + "/")
    ensures d < |dirs| && dirs[d].path == parent && c in dirs[d].children && c.name == name && c.kind.DirKind? && IsComponent(name)
    decreases i
  {
    assert i > 0;
    d, c := DirEntryOf(dirs, files, n, i);
    LegalPlain(c.name);
    if dirs[i].path == Join(parent, name) {
      JoinInjective(dirs[d].path, c.name, parent, name);
    } else {
      PrefixOfJoin(Join(parent, name), dirs[d].path, c.name);
      d, c := Above(dirs, files, n, d, parent, name);
    }
  }

  /** Two directories have two paths. */
  lemma {:induction false} OnePath(dirs: seq<Dir>, files: seq<FileEntry>, n: nat, upper: string -> string, i: nat, j: nat)
    requires TreeOf(dirs, files, n, upper) && i < |dirs| && j < |dirs| && dirs[i].path == dirs[j].path
    ensures i == j
    decreases i
  {
    OnlyRootIsEmpty(dirs, i);
    OnlyRootIsEmpty(dirs, j);
    if i > 0 && j > 0 {
      var d, c := DirEntryOf(dirs, files, n, i);
      var e, x := DirEntryOf(dirs, files, n, j);
      LegalPlain(c.name);
      LegalPlain(x.name);
      JoinInjective(dirs[d].path, c.name, dirs[e].path, x.name);
      OnePath(dirs, files, n, upper, d, e);
      OneEntry(dirs, upper, d, c, x);
    }
  }

  lemma OnlyRootIsEmpty(dirs: seq<Dir>, i: nat)
    requires DirsListed(dirs) && i < |dirs|
    ensures dirs[i].path == "" <==> i == 0
  {
    assert i > 0 ==> ListedAt(dirs, i);
  }

  /** Two children of one directory have names that do not fold together. */
  lemma OneEntry(dirs: seq<Dir>, upper: string -> string, d: nat, c: Child, x: Child)
    requires AllDistinct(dirs, upper) && d < |dirs| && c in dirs[d].children && x in dirs[d].children && upper(c.name) == upper(x.name)
    ensures c == x
  {
    var cs := dirs[d].children;
    assert FoldsDistinct(cs, upper);
    var i :| 0 <= i < |cs| && cs[i] == c;
    var j :| 0 <= j < |cs| && cs[j] == x;
  }

  /** A file's entry. */
  lemma FileEntryOf(dirs: seq<Dir>, files: seq<FileEntry>, upper: string -> string, f: nat) returns (d: nat, c: Child)
    requires TreeOf(dirs, files, |files|, upper) && f < |files|
    ensures d < |dirs| && c in dirs[d].children && c.kind == FileKind(f) && IsComponent(c.name) && Relative(files[f].path) == Join(dirs[d].path, c.name)
  {
    assert FileListed(dirs, f);
    d, c :| 0 <= d < |dirs| && c in dirs[d].children && c.kind == FileKind(f);
    assert ChildOk(dirs, files, |files|, |files|, d, c);
  }

  lemma {:induction false} RelativePlain(path: string)
    ensures Relative(path) != "" ==> Relative(path)[0] != '/'
  {
    if path != "" && path[0] == '/' {
      RelativePlain(path[1..]);
    }
  }

  /** The tree has every node of its files, where the files have it. */
  lemma NodeFound(dirs: seq<Dir>, files: seq<FileEntry>, upper: string -> string, f: nat, parent: string, name: string, isFile: bool)
    returns (d: nat, c: Child)
    requires TreeOf(dirs, files, |files|, upper) && NodeOf(files, f, parent, name, isFile)
    ensures d < |dirs| && dirs[d].path == parent && c in dirs[d].children && c.name == name && IsComponent(name)
    ensures if isFile then c.kind == FileKind(f) else c.kind.DirKind?
  {
    hide IsComponent, AllDistinct, ChildrenOk, DirsListed;
    d, c := FileEntryOf(dirs, files, upper, f);
    ComponentPlain(c.name);
    if isFile {
      JoinInjective(dirs[d].path, c.name, parent, name);
    } else {
      RelativePlain(files[f].path);
      PrefixOfJoin(Join(parent, name), dirs[d].path, c.name);
      NotRoot(files[f].path, parent, name);
      d, c := Above(dirs, files, |files|, d, parent, name);
    }
  }

  lemma ComponentPlain(name: string)
    requires IsComponent(name)
    ensures name != "" && '/' !in name
  {
    LegalPlain(name);
  }

  lemma NotRoot(path: string, parent: string, name: string)
    requires StartsWith(Relative(path), Join(parent, name) + "/")
    ensures Join(parent, name) != ""
  {
    RelativePlain(path);
    assert Relative(path)[|Join(parent, name)|] == '/';
  }

  /** So no two of its nodes fold together. */
  lemma TreeHasNoConflict(dirs: seq<Dir>, files: seq<FileEntry>, upper: string -> string)
    requires TreeOf(dirs, files, |files|, upper)
    ensures !Conflicts(files, upper)
  {
    hide TreeOf, IsComponent;
    forall f, g, parent, a, b, fa, fb |
      NodeOf(files, f, parent, a, fa) && NodeOf(files, g, parent, b, fb) && upper(a) == upper(b)
      ensures (fa && fb && f == g) || (!fa && !fb && a == b)
    {
      var d, c := NodeFound(dirs, files, upper, f, parent, a, fa);
      var e, x := NodeFound(dirs, files, upper, g, parent, b, fb);
      OnePath(dirs, files, |files|, upper, d, e);
      TreeDistinct(dirs, files, upper);
      OneEntry(dirs, upper, d, c, x);
    }
  }

  lemma TreeDistinct(dirs: seq<Dir>, files: seq<FileEntry>, upper: string -> string)
    requires TreeOf(dirs, files, |files|, upper)
    ensures AllDistinct(dirs, upper)
  {
  }

  /** And every component of its paths can stand in a directory. */
  lemma TreeHasNoBad(dirs: seq<Dir>, files: seq<FileEntry>, upper: string -> string, tooLong: bool)
    requires TreeOf(dirs, files, |files|, upper)
    ensures !BadComponent(files, tooLong)
  {
    hide TreeOf, IsBad, Relative;
    if BadComponent(files, tooLong) {
      var f, before, comp, after :| 0 <= f < |files| && Relative(files[f].path) == before + comp + after && '/' !in comp && IsBad(comp, tooLong)
        && (before == "" || before[|before| - 1] == '/') && (after == "" || after[0] == '/');
      ComponentStands(dirs, files, upper, f, before, comp, after);
      NotBad(comp, tooLong);
    }
  }

  lemma NotBad(comp: string, tooLong: bool)
    requires IsComponent(comp)
    ensures !IsBad(comp, tooLong)
  {
  }

  lemma ComponentStands(dirs: seq<Dir>, files: seq<FileEntry>, upper: string -> string, f: nat, before: string, comp: string, after: string)
    requires TreeOf(dirs, files, |files|, upper) && f < |files| && Relative(files[f].path) == before + comp + after && '/' !in comp
    requires (before == "" || before[|before| - 1] == '/') && (after == "" || after[0] == '/')
    ensures IsComponent(comp)
  {
    hide TreeOf, IsComponent;
    var path := Relative(files[f].path);
    var parent := if before == "" then "" else before[..|before| - 1];
    RelativePlain(files[f].path);
    assert before != "" ==> before == parent + "/" && path[0] == before[0];
    assert before + comp == Join(parent, comp);
    if after == "" {
      assert path == Join(parent, comp);
      assert NodeOf(files, f, parent, comp, true);
      var d, c := NodeFound(dirs, files, upper, f, parent, comp, true);
    } else {
      assert path == Join(parent, comp) + "/" + after[1..];
      assert StartsWith(path, Join(parent, comp) + "/");
      assert NodeOf(files, f, parent, comp, false);
      var d, c := NodeFound(dirs, files, upper, f, parent, comp, false);
    }
  }

  // ---- build_tree ----

  /** Nothing about the files keeps them from being a tree. */
  ghost predicate Faultless(files: seq<FileEntry>, upper: string -> string) {
    Admissible(files) && !BadComponent(files, false) && !BadComponent(files, true) && !Conflicts(files, upper)
  }

  /** A refusal names a fault there is. */
  lemma RefusedFaulty(files: seq<FileEntry>, upper: string -> string, e: Fat32Error)
    requires Refused(files, upper, e)
    ensures !Faultless(files, upper)
  {
    hide NotAscending, BadComponent, Conflicts;
  }

  lemma TreeFaultless(dirs: seq<Dir>, files: seq<FileEntry>, upper: string -> string)
    requires Admissible(files) && TreeOf(dirs, files, |files|, upper)
    ensures Faultless(files, upper)
  {
    hide Admissible, TreeOf, BadComponent, Conflicts;
    TreeHasNoConflict(dirs, files, upper);
    TreeHasNoBad(dirs, files, upper, false);
    TreeHasNoBad(dirs, files, upper, true);
  }

  /** Paths strictly ascend and every file fits a 32-bit size. */
  ghost predicate Admissible(files: seq<FileEntry>) {
    !NotAscending(files) && forall i :: 0 <= i < |files| ==> files[i].size <= MAX_FILE_SIZE
  }

  /**
   `build_tree`: the tree of the files, children in name order, exactly when nothing
   is wrong with them, or a refusal that the input itself explains. `upper` is the
   case folding of the platform.
   */
  method BuildTree(files: seq<FileEntry>, upper: string -> string) returns (r: Result<seq<Dir>, Fat32Error>)
    ensures r.Ok? ==> Admissible(files) && TreeOf(r.value, files, |files|, upper)
                      && forall d :: 0 <= d < |r.value| ==> NamesAscend(r.value[d].children)
    ensures r.Err? ==> Refused(files, upper, r.error)
    ensures r.Ok? <==> Faultless(files, upper)
  {
    r := GrowTree(files, upper);
    hide Admissible, TreeOf, Refused, Faultless;
    if r.Ok? {
      TreeFaultless(r.value, files, upper);
    } else {
      RefusedFaulty(files, upper, r.error);
    }
  }

  method GrowTree(files: seq<FileEntry>, upper: string -> string) returns (r: Result<seq<Dir>, Fat32Error>)
    ensures r.Ok? ==> Admissible(files) && TreeOf(r.value, files, |files|, upper)
                      && forall d :: 0 <= d < |r.value| ==> NamesAscend(r.value[d].children)
    ensures r.Err? ==> Refused(files, upper, r.error)
  {
    hide Growing, Paths, Folds, TreeOf, Refused, NotAscending, Before, NamesAscend, Sorted;
    var i := 1;
    while i < |files|
      invariant forall j :: 0 < j < i && j < |files| ==> Before(files[j - 1].path, files[j].path)
    {
      if !Before(files[i - 1].path, files[i].path) {
        RefusedOrder(files, upper, i);
        return Err(Unsorted(files[i].path));
      }
      i := i + 1;
    }
    Ascending(files);
    var t := new TreeBuilder(files, upper);
    for n := 0 to |files|
      invariant t.Valid(files, n, n, upper)
      invariant forall i :: 0 <= i < n ==> files[i].size <= MAX_FILE_SIZE
    {
      if files[n].size > MAX_FILE_SIZE {
        RefusedSize(files, upper, n);
        return Err(FileTooLarge(files[n].path, files[n].size));
      }
      var _ :- AddOne(t, files, n, upper);
    }
    Grown(t.dirs, files, upper);
    SortKeepsTree(t.dirs, files, |files|, upper);
    var sorted := SortChildren(t.dirs);
    return Ok(sorted);
  }

  /** One file: its name checked, its directory found or made, itself entered. */
  method AddOne(t: TreeBuilder, files: seq<FileEntry>, n: nat, upper: string -> string) returns (r: Result<(), Fat32Error>)
    requires n < |files| && t.Valid(files, n, n, upper)
    modifies t
    ensures r.Ok? ==> t.Valid(files, n + 1, n + 1, upper)
    ensures r.Err? ==> Refused(files, upper, r.error)
  {
    hide Growing, Paths, Folds, Join, Relative, SplitPath, Refused, IsLegal, BadComponent, Conflicts;
    var (dirPath, name) := SplitPath(files[n].path);
    RefusedBad(files, upper, files[n].path);
    if !(IsLegal(name) && |Utf16(name)| <= 255) {
      BadNameShows(files, n, IsLegal(name));
      return Err(if !IsLegal(name) then BadPath(files[n].path) else NameTooLong(files[n].path));
    }
    LegalNotEmpty(name);
    Widen(t.dirs, files, n, upper);
    var parent :- t.EnsureDir(dirPath, files, n, upper);
    RelativeOfSplit(files[n].path);
    var ok := t.AddFile(parent, name, files, n, upper);
    if !ok {
      ghost var x :| x in t.dirs[parent].children && upper(x.name) == upper(name);
      NameConflicts(t.dirs, files, n, parent, name, x, upper);
      return Err(PathConflict(files[n].path));
    }
    return Ok(());
  }

  lemma LegalNotEmpty(name: string)
    requires IsLegal(name)
    ensures name != ""
  {
  }

  lemma Widen(dirs: seq<Dir>, files: seq<FileEntry>, n: nat, upper: string -> string)
    requires Growing(dirs, files, n, n, upper)
    ensures Growing(dirs, files, n, n + 1, upper)
  {
    MoreOnTheWay(dirs, files, n, n, n + 1);
  }

  lemma RefusedOrder(files: seq<FileEntry>, upper: string -> string, i: nat)
    requires 0 < i < |files| && !Before(files[i - 1].path, files[i].path)
    ensures Refused(files, upper, Unsorted(files[i].path))
  {
  }

  lemma RefusedSize(files: seq<FileEntry>, upper: string -> string, i: nat)
    requires i < |files| && files[i].size > MAX_FILE_SIZE
    ensures Refused(files, upper, FileTooLarge(files[i].path, files[i].size))
  {
  }

  lemma Ascending(files: seq<FileEntry>)
    requires forall j :: 0 < j < |files| ==> Before(files[j - 1].path, files[j].path)
    ensures !NotAscending(files)
  {
  }

  lemma Grown(dirs: seq<Dir>, files: seq<FileEntry>, upper: string -> string)
    requires Growing(dirs, files, |files|, |files|, upper)
    ensures TreeOf(dirs, files, |files|, upper)
  {
  }
}
