/**
 Range serving (`Executor::serve_range`): whatever produced the bytes, what is
 returned is the blob's own content, clamped to its size, and a component is
 quarantined only when its inputs are clean.
 */
module ServeRange {
  import opened Wrappers
  import opened Bytes
  import A = Assemble
  import R = RandomAccess

  type Hash = nat

  const GROUP_BYTES: nat := 16384

  /** The bytes a hash stands for; hashing itself is abstract. */
  type Contents = Hash -> seq<byte>

  /** A tree check of `window` as bytes `start..` of a blob said to be `len` long. */
  type TreeCheck = (Hash, nat, nat, seq<byte>) -> bool

  /**
   Tree checks accept only true bytes: a non-empty window that passes is the
   blob's content there, and if it reaches the stated end, that is the blob's end.
   */
  ghost predicate Accepts(check: TreeCheck, content: Contents, h: Hash, len: nat, start: nat, window: seq<byte>) {
    check(h, len, start, window) && window != [] ==>
      && start + |window| <= |content(h)| && window == content(h)[start..start + |window|]
      && (start + |window| == len ==> len == |content(h)|)
  }

  ghost predicate Sound(check: TreeCheck, content: Contents) {
    forall h, len, start, window :: Accepts(check, content, h, len, start, window)
  }

  datatype Node =
    | Lit(hash: Hash, len: nat)
    | Asm(hash: Hash, mintedAffine: bool, segments: seq<A.Segment>, children: seq<Node>)
    | Wasm(hash: Hash, component: Hash, seekable: bool, children: seq<Node>)
    | Other(hash: Hash, children: seq<Node>)
  {
    predicate IsOp() {
      !Lit?
    }
  }

  datatype ServeError =
    | NoRoute
    | Malformed
    | MissingOutboard
    | StoreError
    | RangeVerifyFailed

  datatype IndexRow = IndexRow(size: Option<u64>, resident: bool, verified: bool)

  function Min(a: nat, b: nat): nat {
    if a < b then a else b
  }

  function SaturatingAdd(a: u64, b: u64): u64 {
    if a + b < TWO_64 then a + b else TWO_64 - 1
  }

  /** `offset..offset + len` of a blob, clamped to it. */
  function Clamped(s: seq<byte>, offset: u64, len: u64): seq<byte> {
    var start, end := Min(offset, |s|), Min(SaturatingAdd(offset, len), |s|);
    s[start..end]
  }

  /**
   A file of `have` bytes reaches the requested part of a blob of `all`: the request
   starts within the file, or past the blob, or asks for nothing.
   */
  predicate Reached(offset: u64, len: u64, have: nat, all: nat) {
    offset < have || all <= offset || SaturatingAdd(offset, len) == offset
  }

  /** The group-aligned window around `start..end` of a blob of `total` bytes. */
  function GroupStart(start: nat): nat {
    start - start % GROUP_BYTES
  }

  function GroupEnd(end: nat, total: nat): nat {
    Min((end + GROUP_BYTES - 1) / GROUP_BYTES * GROUP_BYTES, total)
  }

  /** The window covers the range and meets the tree check's alignment demand. */
  lemma WindowAligned(start: nat, end: nat, total: nat)
    requires start <= end <= total
    ensures GroupStart(start) <= start < GroupStart(start) + 16384 && end <= GroupEnd(end, total) <= total && GroupEnd(end, total) < end + 16384
    ensures GroupStart(start) % 16384 == 0 && (GroupEnd(end, total) % 16384 == 0 || GroupEnd(end, total) == total)
  {
  }

  lemma WindowCovers(start: nat, end: nat, total: nat)
    requires start <= end <= total
    ensures GroupStart(start) <= start && end <= GroupEnd(end, total) <= total
  {
    WindowAligned(start, end, total);
    hide *;
  }

  function OutboardSize(len: nat): nat {
    if len <= GROUP_BYTES then 0 else ((len + GROUP_BYTES - 1) / GROUP_BYTES - 1) * 64
  }

  /** A tree over `groups` groups of 16 KiB has 64 bytes for each group but one. */
  lemma OutboardSizeIs(len: nat, groups: nat)
    requires 16384 * groups < len <= 16384 * (groups + 1)
    ensures OutboardSize(len) == 64 * groups
  {
  }

  /** No more than was asked for, no more than there is, and from the offset on. */
  lemma ClampedIs(s: seq<byte>, offset: u64, len: u64)
    requires |s| < 0x1_0000_0000_0000_0000
    ensures offset >= |s| ==> Clamped(s, offset, len) == []
    ensures offset < |s| ==> |Clamped(s, offset, len)| == if len < |s| - offset then len else |s| - offset
    ensures forall k :: 0 <= k < |Clamped(s, offset, len)| ==> Clamped(s, offset, len)[k] == s[offset + k]
  {
  }

  // ---- The nodes of a plan ----

  /** Every node of a plan, each before what is below it, in order. */
  ghost function Nodes(n: Node): seq<Node>
    decreases n
  {
    [n] + if n.Lit? then [] else NodesIn(n, n.children)
  }

  ghost function NodesIn(n: Node, ns: seq<Node>): seq<Node>
    requires forall i :: 0 <= i < |ns| ==> ns[i] < n
    decreases n, |ns|
  {
    if ns == [] then [] else Nodes(ns[0]) + NodesIn(n, ns[1..])
  }

  /** Nothing but minted assembles over trusted literals. */
  ghost predicate CarvedOut(n: Node, trusted: set<Hash>) {
    forall x :: x in Nodes(n) ==> (x.Lit? && x.hash in trusted) || (x.Asm? && x.mintedAffine)
  }

  /** `k` is the first of the nodes that declares it can be read in place. */
  ghost predicate FirstInPlace(nodes: seq<Node>, k: int) {
    0 <= k < |nodes| && nodes[k].Wasm? && nodes[k].seekable && forall j :: 0 <= j < k ==> !(nodes[j].Wasm? && nodes[j].seekable)
  }

  ghost function FirstComponent(nodes: seq<Node>): Option<Hash> {
    if exists k :: FirstInPlace(nodes, k) then
      var k :| FirstInPlace(nodes, k);
      Some(nodes[k].component)
    else None
  }

  /**
   Whose window it is: of a plan that assembles, the first component in it read in
   place; of a component read in place, its own; else nobody's.
   */
  ghost function Suspect(n: Node, quarantined: set<Hash>): Option<Hash> {
    if n.Asm? then FirstComponent(Nodes(n))
    else if n.Wasm? && n.seekable && n.component !in quarantined then Some(n.component)
    else None
  }

  lemma FirstOfNodes(nodes: seq<Node>, k: int)
    requires FirstInPlace(nodes, k)
    ensures FirstComponent(nodes) == Some(nodes[k].component)
  {
    forall j | FirstInPlace(nodes, j) ensures j == k {
      assert nodes[j].Wasm? && nodes[k].Wasm?;
    }
  }

  /** The first of two lists, or else of the second. */
  lemma FirstOfBoth(a: seq<Node>, b: seq<Node>)
    ensures FirstComponent(a + b) == if FirstComponent(a).Some? then FirstComponent(a) else FirstComponent(b)
  {
    if k :| FirstInPlace(a, k) {
      assert FirstInPlace(a + b, k);
      FirstOfNodes(a, k);
      FirstOfNodes(a + b, k);
    } else if k :| FirstInPlace(b, k) {
      NoneInPlace(a);
      assert FirstInPlace(a + b, |a| + k);
      FirstOfNodes(b, k);
      FirstOfNodes(a + b, |a| + k);
    } else if k :| FirstInPlace(a + b, k) {
      NoneInPlace(a);
      NoneInPlace(b);
      assert false;
    }
  }

  lemma {:induction false} NoneInPlace(nodes: seq<Node>)
    requires !exists k :: FirstInPlace(nodes, k)
    ensures forall j :: 0 <= j < |nodes| ==> !(nodes[j].Wasm? && nodes[j].seekable)
  {
    if nodes != [] {
      var short := nodes[..|nodes| - 1];
      forall k ensures !FirstInPlace(short, k) {
        if FirstInPlace(short, k) {
          assert FirstInPlace(nodes, k);
        }
      }
      NoneInPlace(short);
      assert !FirstInPlace(nodes, |nodes| - 1);
      assert forall j :: 0 <= j < |nodes| - 1 ==> nodes[j] == short[j];
    }
  }

  /** The search for a suspect goes through the nodes in order. */
  lemma {:induction false} FirstSeekableIs(n: Node)
    ensures FirstSeekable(n) == FirstComponent(Nodes(n))
    decreases n
  {
    if n.Wasm? && n.seekable {
      FirstOfNodes(Nodes(n), 0);
    } else {
      assert !FirstInPlace([n], 0);
      FirstOfBoth([n], Nodes(n)[1..]);
      assert [n] + Nodes(n)[1..] == Nodes(n);
      if n.IsOp() {
        FirstSeekableIsIn(n, n.children);
        assert Nodes(n)[1..] == NodesIn(n, n.children);
      }
    }
  }

  lemma {:induction false} FirstSeekableIsIn(n: Node, ns: seq<Node>)
    requires forall i :: 0 <= i < |ns| ==> ns[i] < n
    ensures FirstSeekableIn(n, ns) == FirstComponent(NodesIn(n, ns))
    decreases n, |ns|
  {
    if ns != [] {
      FirstSeekableIs(ns[0]);
      FirstSeekableIsIn(n, ns[1..]);
      FirstOfBoth(Nodes(ns[0]), NodesIn(n, ns[1..]));
    }
  }

  /** The carve-out takes exactly the plans of nothing else. */
  lemma {:induction false} CarvesExactly(n: Node, trusted: set<Hash>)
    ensures Carves(n, trusted) <==> CarvedOut(n, trusted)
    decreases n
  {
    assert n in Nodes(n);
    if n.IsOp() {
      CarvesExactlyIn(n, n.children, trusted);
      assert forall x :: x in Nodes(n) <==> x == n || x in NodesIn(n, n.children);
    }
  }

  lemma {:induction false} CarvesExactlyIn(n: Node, ns: seq<Node>, trusted: set<Hash>)
    requires forall i :: 0 <= i < |ns| ==> ns[i] < n
    ensures (forall i :: 0 <= i < |ns| ==> Carves(ns[i], trusted)) <==>
            forall x :: x in NodesIn(n, ns) ==> (x.Lit? && x.hash in trusted) || (x.Asm? && x.mintedAffine)
    decreases n, |ns|
  {
    if ns != [] {
      CarvesExactly(ns[0], trusted);
      CarvesExactlyIn(n, ns[1..], trusted);
      assert forall i :: 0 < i < |ns| ==> ns[i] == ns[1..][i - 1];
      assert NodesIn(n, ns) == Nodes(ns[0]) + NodesIn(n, ns[1..]);
    }
  }

  /** What is checked before a component is blamed are the literals among the nodes. */
  lemma {:induction false} LeavesAreLiterals(n: Node, h: Hash)
    ensures h in Leaves(n) <==> exists x :: x in Nodes(n) && x.Lit? && x.hash == h
    decreases n
  {
    assert n in Nodes(n);
    if n.IsOp() {
      LeavesAreLiteralsIn(n, n.children, h);
      assert forall x :: x in Nodes(n) <==> x == n || x in NodesIn(n, n.children);
    }
  }

  lemma {:induction false} LeavesAreLiteralsIn(n: Node, ns: seq<Node>, h: Hash)
    requires forall i :: 0 <= i < |ns| ==> ns[i] < n
    ensures h in LeavesIn(n, ns) <==> exists x :: x in NodesIn(n, ns) && x.Lit? && x.hash == h
    decreases n, |ns|
  {
    if ns != [] {
      LeavesAreLiterals(ns[0], h);
      LeavesAreLiteralsIn(n, ns[1..], h);
    }
  }

  lemma {:induction false} AllLeavesAreLiterals(ns: seq<Node>, h: Hash)
    ensures h in AllLeaves(ns) <==> exists i, x :: 0 <= i < |ns| && x in Nodes(ns[i]) && x.Lit? && x.hash == h
  {
    if ns != [] {
      LeavesAreLiterals(ns[0], h);
      AllLeavesAreLiterals(ns[1..], h);
      hide Nodes, Leaves, AllLeaves;
      assert forall i :: 0 < i < |ns| ==> ns[i] == ns[1..][i - 1];
      assert forall i :: 0 <= i < |ns| - 1 ==> ns[1..][i] == ns[i + 1];
    }
  }

  // ---- Which component to suspect ----

  /** The first transform an in-place read runs, depth first. */
  function FirstSeekable(n: Node): Option<Hash>
    decreases n
  {
    match n
    case Lit(_, _) => None
    case Wasm(_, component, seekable, children) => if seekable then Some(component) else FirstSeekableIn(n, children)
    case Asm(_, _, _, children) => FirstSeekableIn(n, children)
    case Other(_, children) => FirstSeekableIn(n, children)
  }

  function FirstSeekableIn(n: Node, ns: seq<Node>): Option<Hash>
    requires forall i :: 0 <= i < |ns| ==> ns[i] < n
    decreases n, |ns|
  {
    if ns == [] then None
    else
      var first := FirstSeekable(ns[0]);
      if first.Some? then first else FirstSeekableIn(n, ns[1..])
  }

  /** The children of the first node that runs `component`. */
  function FindChildren(n: Node, component: Hash): Option<seq<Node>>
    decreases n
  {
    if n.Lit? then None
    else if n.Wasm? && n.component == component then Some(n.children)
    else FindChildrenIn(n, n.children, component)
  }

  function FindChildrenIn(n: Node, ns: seq<Node>, component: Hash): Option<seq<Node>>
    requires forall i :: 0 <= i < |ns| ==> ns[i] < n
    decreases n, |ns|
  {
    if ns == [] then None
    else
      var first := FindChildren(ns[0], component);
      if first.Some? then first else FindChildrenIn(n, ns[1..], component)
  }

  /** The literals a node is grounded in, in order. */
  function Leaves(n: Node): seq<Hash>
    decreases n
  {
    if n.Lit? then [n.hash] else LeavesIn(n, n.children)
  }

  function LeavesIn(n: Node, ns: seq<Node>): seq<Hash>
    requires forall i :: 0 <= i < |ns| ==> ns[i] < n
    decreases n, |ns|
  {
    if ns == [] then [] else Leaves(ns[0]) + LeavesIn(n, ns[1..])
  }

  function AllLeaves(ns: seq<Node>): seq<Hash> {
    if ns == [] then [] else Leaves(ns[0]) + AllLeaves(ns[1..])
  }

  /** A component a read can blame runs somewhere in the plan, so its inputs are found. */
  lemma {:induction false} SeekableFound(n: Node)
    ensures FirstSeekable(n).Some? ==> FindChildren(n, FirstSeekable(n).value).Some?
    decreases n
  {
    if n.IsOp() && !(n.Wasm? && n.seekable) {
      SeekableFoundIn(n, n.children);
    }
  }

  lemma {:induction false} SeekableFoundIn(n: Node, ns: seq<Node>)
    requires forall i :: 0 <= i < |ns| ==> ns[i] < n
    ensures FirstSeekableIn(n, ns).Some? ==> FindChildrenIn(n, ns, FirstSeekableIn(n, ns).value).Some?
    decreases n, |ns|
  {
    if ns != [] {
      SeekableFound(ns[0]);
      SeekableFoundIn(n, ns[1..]);
    }
  }

  // ---- The affine carve-out ----

  /** Only minted affine assembles over resident, verified literals. */
  predicate Carves(n: Node, trusted: set<Hash>)
    decreases n
  {
    match n
    case Lit(h, _) => h in trusted
    case Asm(_, minted, _, children) => minted && forall i :: 0 <= i < |children| ==> Carves(children[i], trusted)
    case _ => false
  }

  /** The bytes of each child's blob. */
  function ChildContents(children: seq<Node>, content: Contents): (r: seq<seq<byte>>)
    ensures |r| == |children|
  {
    seq(|children|, i requires 0 <= i < |children| => content(children[i].hash))
  }

  /**
   What a plan claims is so: a literal has its recorded length, and a minted
   affine assemble, whose output was hashed when it was minted, assembles to it.
   */
  ghost predicate Truthful(n: Node, content: Contents)
    decreases n
  {
    match n
    case Lit(h, len) => len == |content(h)|
    case Asm(h, minted, segments, children) =>
      && (forall i :: 0 <= i < |children| ==> Truthful(children[i], content))
      && (minted ==> A.AllInRange(segments, ChildContents(children, content)) && A.Total(segments) < TWO_64
                     && A.Output(segments, ChildContents(children, content)) == content(h))
    case Wasm(_, _, _, children) => forall i :: 0 <= i < |children| ==> Truthful(children[i], content)
    case Other(_, children) => forall i :: 0 <= i < |children| ==> Truthful(children[i], content)
  }

  /** The carve-out plan as a random-access source: verified leaves hand out true bytes or fail, nodes translate. */
  function SourceOf(n: Node, content: Contents): R.Source
    requires AssembleOnly(n)
    decreases n
  {
    match n
    case Lit(h, _) => R.Leaf(content(h), (at: nat) => TWO_64)
    case Asm(_, _, segments, children) =>
      R.Assembled(segments, seq(|children|, i requires 0 <= i < |children| => SourceOf(children[i], content)))
  }

  predicate AssembleOnly(n: Node)
    decreases n
  {
    n.Lit? || (n.Asm? && forall i :: 0 <= i < |n.children| ==> AssembleOnly(n.children[i]))
  }

  lemma {:induction false} CarvedIsAssemble(n: Node, trusted: set<Hash>)
    requires Carves(n, trusted)
    ensures AssembleOnly(n)
    decreases n
  {
    if n.Asm? {
      forall i | 0 <= i < |n.children| ensures AssembleOnly(n.children[i]) {
        CarvedIsAssemble(n.children[i], trusted);
      }
    }
  }

  /** A carve-out plan's source holds exactly the blob's content, at every node. */
  lemma {:induction false} CarvedContent(n: Node, trusted: set<Hash>, content: Contents)
    requires Carves(n, trusted) && Truthful(n, content) && AssembleOnly(n)
    ensures R.WellFormed(SourceOf(n, content)) && R.Content(SourceOf(n, content)) == content(n.hash)
    decreases n
  {
    if n.Asm? {
      var src := SourceOf(n, content);
      forall i | 0 <= i < |n.children| ensures R.WellFormed(src.children[i]) && R.Content(src.children[i]) == content(n.children[i].hash) {
        CarvedContent(n.children[i], trusted, content);
      }
      hide R.WellFormed, R.Content, A.Output, A.Total, Carves, Truthful, SourceOf;
      CarvedNode(src, n.segments, n.children, content);
    }
  }

  lemma CarvedNode(src: R.Source, segments: seq<A.Segment>, children: seq<Node>, content: Contents)
    requires src.Assembled? && src.segments == segments && |src.children| == |children|
    requires forall i :: 0 <= i < |children| ==> R.WellFormed(src.children[i]) && R.Content(src.children[i]) == content(children[i].hash)
    requires A.AllInRange(segments, ChildContents(children, content)) && A.Total(segments) < TWO_64
    ensures R.WellFormed(src) && R.Content(src) == A.Output(segments, ChildContents(children, content))
  {
    assert R.Contents(src.children) == ChildContents(children, content);
  }

  // ---- Serving ----

  /** What the producer of a recipe-served window may do: anything at all. */
  datatype Producer = Produced(window: seq<byte>) | ProducerFails

  class Server {
    var store: map<Hash, seq<byte>>
    /** The stored outboards, by length. */
    var trees: map<Hash, nat>
    var index: map<Hash, IndexRow>
    var quarantined: set<Hash>

    /** Indexed sizes are the blobs' sizes. */
    ghost predicate SizesTrue(content: Contents)
      reads this
    {
      forall h :: h in index && index[h].size.Some? ==> index[h].size.value == |content(h)|
    }

    /** The blob is not stored, and the index knows its size. */
    ghost predicate InIndex(h: Hash)
      reads this
    {
      !IsResident(h) && h in index && index[h].size.Some?
    }

    /** A window of the blob needs a tree, and there is none. */
    ghost predicate Treeless(h: Hash)
      requires InIndex(h)
      reads this
    {
      OutboardSize(index[h].size.value) != 0 && Tree(h).None?
    }

    ghost predicate IsResident(h: Hash)
      reads this
    {
      h in store && (h in index ==> index[h].resident)
    }

    /** Nothing but minted assembles over literals that the index calls resident and verified, and that are stored. */
    ghost predicate IsCarvedOut(n: Node)
      reads this
    {
      forall x :: x in Nodes(n) ==>
        || (x.Lit? && x.hash in index && index[x.hash].resident && index[x.hash].verified && x.hash in store)
        || (x.Asm? && x.mintedAffine)
    }

    lemma IsCarvedOutExactly(n: Node)
      ensures Carves(n, Trusted()) <==> IsCarvedOut(n)
    {
      CarvesExactly(n, Trusted());
    }

    function Trusted(): set<Hash>
      reads this
    {
      set h | h in index && index[h].resident && index[h].verified && h in store
    }

    /** The length of a blob's outboard: a stored one, or the empty one that a stored file of one group has by its size. */
    function Tree(h: Hash): Option<nat>
      reads this
    {
      if h in trees then Some(trees[h])
      else if h in store && OutboardSize(|store[h]|) == 0 then Some(0)
      else None
    }

    /**
     A stored literal. Without a tree it is read as it is; a file of one group has the
     empty tree in any case. With a tree, the read succeeds
     exactly when the tree is of the file's size and nothing is asked for or the groups
     around the range pass.
     */
    method ServeResident(h: Hash, offset: u64, len: u64, check: TreeCheck, ghost content: Contents) returns (r: Result<seq<byte>, ServeError>)
      requires h in store && Sound(check, content)
      ensures Tree(h).None? <==> h !in trees && |store[h]| > 16384
      ensures h !in trees && |store[h]| > 16384 ==> r == Ok(Clamped(store[h], offset, len))
      ensures h in trees || |store[h]| <= 16384 ==>
                r == if Passes(check, h, store[h], offset, len, if h in trees then trees[h] else 0) then Ok(Clamped(store[h], offset, len)) else Err(StoreError)
      ensures Tree(h).Some? && r.Ok? ==> (r.value == Clamped(content(h), offset, len) <==> Reached(offset, len, |store[h]|, |content(h)|))
    {
      var file := store[h];
      var start, end := Min(offset, |file|), Min(SaturatingAdd(offset, len), |file|);
      var tree := Tree(h);
      if tree.None? {
        return Ok(file[start..end]);
      }
      if tree.value != OutboardSize(|file|) {
        return Err(StoreError);
      }
      if start == end {
        return Ok([]);
      }
      WindowCovers(start, end, |file|);
      var lo, hi := GroupStart(start), GroupEnd(end, |file|);
      var window := file[lo..hi];
      assert Accepts(check, content, h, |file|, lo, window);
      if !check(h, |file|, lo, window) {
        return Err(StoreError);
      }
      WindowHolds(content(h), window, lo, start, end);
      A.SliceOfSlice(file, lo, hi, start - lo, end - lo);
      return Ok(file[start..end]);
    }

    /** Quarantine the component a failed window came through, unless some literal under its node is not its own content. */
    method AttributeSeekFailure(plan: Node, via: Option<Hash>, intact: Hash -> bool, canWrite: bool)
      modifies this`quarantined
      ensures quarantined == old(quarantined) + Blamed(plan, via, intact, canWrite)
    {
      if via.None? {
        return;
      }
      var clean := true;
      var children := FindChildren(plan, via.value);
      if children.Some? {
        var leaves := AllLeaves(children.value);
        for k := 0 to |leaves|
          invariant clean <==> forall j :: 0 <= j < k ==> intact(leaves[j])
        {
          if !intact(leaves[k]) {
            clean := false;
          }
        }
      }
      if clean && canWrite {
        quarantined := quarantined + {via.value};
      }
    }

    /** Which component a window would come through: the suspect if it fails its check. */
    function Via(plan: Node): Option<Hash>
      reads this
    {
      match plan
      case Asm(_, _, _, _) => FirstSeekable(plan)
      case Wasm(_, component, seekable, _) => if seekable && component !in quarantined then Some(component) else None
      case _ => None
    }

    lemma ViaIsSuspect(plan: Node)
      ensures Via(plan) == Suspect(plan, quarantined)
    {
      FirstSeekableIs(plan);
    }

    /** The carve-out: every byte is verified input bytes or fill. `leafFails` is whether some leaf failed its own check. */
    method ServeCarved(plan: Node, start: nat, end: nat, leafFails: bool, ghost content: Contents, src: R.Source) returns (r: Result<seq<byte>, ServeError>)
      requires R.WellFormed(src) && R.Content(src) == content(plan.hash) && start <= end <= |content(plan.hash)|
      ensures r == if leafFails then Err(RangeVerifyFailed) else Ok(content(plan.hash)[start..end])
    {
      if leafFails {
        return Err(RangeVerifyFailed);
      }
      var buf := new byte[end - start](_ => 0);
      var ok := R.ReadExact(src, start, buf, 0, end - start);
      if !ok {
        return Err(RangeVerifyFailed);
      }
      WholeBuffer(buf[..], R.Content(src), start, end);
      return Ok(buf[..]);
    }

    /**
     `serve_range`. `plan` is what planning answers, `producer` what the route
     yields for the window, `blesses` whether an on-demand blessing succeeds.
     */
    method Serve(h: Hash, offset: u64, len: u64, plan: Result<Node, ServeError>, producer: Producer, blesses: bool, leafFails: bool,
                 check: TreeCheck, intact: Hash -> bool, canWrite: bool, ghost content: Contents, source: Node -> R.Source)
      returns (r: Result<seq<byte>, ServeError>)
      requires Sound(check, content) && SizesTrue(content)
      requires plan.Ok? ==> plan.value.hash == h && Truthful(plan.value, content)
      requires forall n :: AssembleOnly(n) ==> source(n) == SourceOf(n, content)
      modifies this`trees, this`quarantined
      ensures IsResident(h) && old(Tree(h)).None? ==> r == Ok(Clamped(store[h], offset, len))
      ensures IsResident(h) && old(Tree(h)).Some? ==>
                r == if Passes(check, h, store[h], offset, len, old(Tree(h)).value) then Ok(Clamped(store[h], offset, len)) else Err(StoreError)
      ensures IsResident(h) && old(Tree(h)).Some? && r.Ok? ==>
                (r.value == Clamped(content(h), offset, len) <==> Reached(offset, len, |store[h]|, |content(h)|))
      ensures !IsResident(h) && h !in index ==> r == Err(NoRoute)
      ensures !IsResident(h) && h in index && index[h].size.None? ==> r == Err(Malformed)
      ensures InIndex(h) && plan.Err? ==> r == Err(plan.error)
      ensures InIndex(h) && plan.Ok? && old(Treeless(h)) && old(IsCarvedOut(plan.value)) ==>
                r == if leafFails then Err(RangeVerifyFailed) else Ok(Clamped(content(h), offset, len))
      ensures InIndex(h) && plan.Ok? && old(Treeless(h)) && !old(IsCarvedOut(plan.value)) && !blesses ==> r == Err(MissingOutboard)
      ensures InIndex(h) && plan.Ok? && (!old(Treeless(h)) || (!old(IsCarvedOut(plan.value)) && blesses)) ==>
                r == if producer.ProducerFails? then Err(StoreError)
                     else if Rejects(check, h, index[h].size.value, offset, len, producer.window, Tree(h)) then Err(RangeVerifyFailed)
                     else Ok(Clamped(content(h), offset, len))
      ensures trees == if InIndex(h) && plan.Ok? && old(Treeless(h)) && !old(IsCarvedOut(plan.value)) && blesses
                       then old(trees)[h := OutboardSize(index[h].size.value)] else old(trees)
      ensures quarantined == if InIndex(h) && plan.Ok? && (!old(Treeless(h)) || (!old(IsCarvedOut(plan.value)) && blesses)) && producer.Produced?
                                && Rejects(check, h, index[h].size.value, offset, len, producer.window, Tree(h))
                             then old(quarantined) + Blamed(plan.value, Suspect(plan.value, old(quarantined)), intact, canWrite)
                             else old(quarantined)
    {
      hide Truthful, Sound, Clean, Rejects, FirstSeekable, OutboardSize, Carves, SourceOf, Passes, Suspect, CarvedOut, IsCarvedOut, Trusted;
      if h in store && (h !in index || index[h].resident) {
        r := ServeResident(h, offset, len, check, content);
        return;
      }
      if h !in index {
        return Err(NoRoute);
      }
      if index[h].size.None? {
        return Err(Malformed);
      }
      var total := index[h].size.value;
      var start, end := Min(offset, total), Min(SaturatingAdd(offset, len), total);
      if plan.Err? {
        return Err(plan.error);
      }
      var n := plan.value;
      IsCarvedOutExactly(n);
      if OutboardSize(total) != 0 && Tree(h).None? {
        if Carves(n, Trusted()) {
          CarvedIsAssemble(n, Trusted());
          CarvedContent(n, Trusted(), content);
          r := ServeCarved(n, start, end, leafFails, content, source(n));
          return;
        }
        if !blesses {
          return Err(MissingOutboard);
        }
        trees := trees[h := OutboardSize(total)];
      }
      r := ServeWindow(h, total, offset, len, n, producer, check, intact, canWrite, content);
    }

    /** The window a route yields, checked against the tree that was built for the blob. */
    method ServeWindow(h: Hash, total: nat, offset: u64, len: u64, n: Node, producer: Producer, check: TreeCheck, intact: Hash -> bool, canWrite: bool,
                       ghost content: Contents)
      returns (r: Result<seq<byte>, ServeError>)
      requires Sound(check, content) && total == |content(h)| && (OutboardSize(total) == 0 || Tree(h).Some?)
      modifies this`quarantined
      ensures r == if producer.ProducerFails? then Err(StoreError)
                   else if Rejects(check, h, total, offset, len, producer.window, Tree(h)) then Err(RangeVerifyFailed)
                   else Ok(Clamped(content(h), offset, len))
      ensures quarantined == if producer.Produced? && Rejects(check, h, total, offset, len, producer.window, Tree(h))
                             then old(quarantined) + Blamed(n, Suspect(n, old(quarantined)), intact, canWrite)
                             else old(quarantined)
    {
      hide Sound, Accepts, GroupStart, GroupEnd, OutboardSize, Clean, FirstComponent, Suspect, Via, Blamed, FindChildren, FirstSeekable, Passes;
      var start, end := Min(offset, total), Min(SaturatingAdd(offset, len), total);
      WindowCovers(start, end, total);
      var lo, hi := GroupStart(start), GroupEnd(end, total);
      if producer.ProducerFails? {
        return Err(StoreError);
      }
      var window := producer.window;
      var sidecar := if OutboardSize(total) == 0 then 0 else Tree(h).value;
      if |window| != hi - lo || sidecar != OutboardSize(total) || (window != [] && !check(h, total, lo, window)) {
        var via := Via(n);
        ViaIsSuspect(n);
        AttributeSeekFailure(n, via, intact, canWrite);
        return Err(RangeVerifyFailed);
      }
      Checked(check, content, h, total, lo, window);
      WindowHolds(content(h), window, lo, start, end);
      return Ok(window[start - lo..end - lo]);
    }
  }

  /** The window is not of the size asked for, its tree is not of the blob's size, or the tree does not accept it. */
  ghost predicate Rejects(check: TreeCheck, h: Hash, total: nat, offset: u64, len: u64, window: seq<byte>, tree: Option<nat>) {
    var start, end := Min(offset, total), Min(SaturatingAdd(offset, len), total);
    var lo, hi := GroupStart(start), GroupEnd(end, total);
    || |window| != hi - lo
    || (OutboardSize(total) != 0 && tree.Some? && tree.value != OutboardSize(total))
    || (window != [] && !check(h, total, lo, window))
  }

  /** The tree is of the file's size, and the range is empty or the groups around it are accepted. */
  ghost predicate Passes(check: TreeCheck, h: Hash, file: seq<byte>, offset: u64, len: u64, tree: nat) {
    var start, end := Min(offset, |file|), Min(SaturatingAdd(offset, len), |file|);
    && tree == OutboardSize(|file|)
    && (start == end || (WindowCovers(start, end, |file|); check(h, |file|, GroupStart(start), file[GroupStart(start)..GroupEnd(end, |file|)])))
  }

  /** Whom a rejected window is blamed on. */
  ghost function Blamed(plan: Node, via: Option<Hash>, intact: Hash -> bool, canWrite: bool): set<Hash> {
    if via.Some? && canWrite && Clean(plan, via.value, intact) then {via.value} else {}
  }

  /** Every literal under the first node that runs the component is its own content. */
  ghost predicate Clean(plan: Node, component: Hash, intact: Hash -> bool) {
    FindChildren(plan, component).Some? ==>
      forall j :: 0 <= j < |AllLeaves(FindChildren(plan, component).value)| ==> intact(AllLeaves(FindChildren(plan, component).value)[j])
  }

  lemma Checked(check: TreeCheck, content: Contents, h: Hash, len: nat, start: nat, window: seq<byte>)
    requires Sound(check, content) && (window == [] || check(h, len, start, window))
    ensures window != [] ==> start + |window| <= |content(h)| && window == content(h)[start..start + |window|]
  {
    assert Accepts(check, content, h, len, start, window);
  }

  lemma WindowHolds(s: seq<byte>, window: seq<byte>, lo: nat, start: nat, end: nat)
    requires lo <= start <= end <= lo + |window|
    requires window != [] ==> lo + |window| <= |s| && window == s[lo..lo + |window|]
    requires window == [] ==> start <= |s|
    ensures end <= |s| && window[start - lo..end - lo] == s[start..end]
  {
    if window != [] {
      A.SliceOfSlice(s, lo, lo + |window|, start - lo, end - lo);
    } else {
      assert window[start - lo..end - lo] == [] == s[start..end];
    }
  }

  lemma WholeBuffer(buf: seq<byte>, s: seq<byte>, start: nat, end: nat)
    requires start <= end <= |s| && |buf| == end - start
    requires exists before :: |before| == |buf| && buf == R.Overlay(before, 0, R.Window(s, start, end - start))
    ensures buf == s[start..end]
  {
  }

  // ---- What the checks leave open ----

  /**
   A stored file that lost its end within the last group: the resident branch passes
   every check there is and answers a range past what is left with nothing, although
   the blob has bytes there.
   */
  method TruncatedServesNothing(s: Server, h: Hash, len: u64, check: TreeCheck, ghost content: Contents) returns (r: Result<seq<byte>, ServeError>)
    requires Sound(check, content) && h in s.store && h in s.trees && len > 0
    requires |s.store[h]| == 17_000 && |content(h)| == 20_000 && s.trees[h] == OutboardSize(20_000)
    ensures r == Ok([]) && Clamped(content(h), 18_000, len) != []
  {
    r := s.ServeResident(h, 18_000, len, check, content);
  }

  /** The nodes that run `component`, in the order the search meets them. */
  function Runs(n: Node, component: Hash): (r: seq<Node>)
    ensures forall x :: x in r ==> x.Wasm? && x.component == component
    decreases n
  {
    if n.Lit? then []
    else (if n.Wasm? && n.component == component then [n] else []) + RunsIn(n, n.children, component)
  }

  function RunsIn(n: Node, ns: seq<Node>, component: Hash): (r: seq<Node>)
    requires forall i :: 0 <= i < |ns| ==> ns[i] < n
    ensures forall x :: x in r ==> x.Wasm? && x.component == component
    decreases n, |ns|
  {
    if ns == [] then [] else Runs(ns[0], component) + RunsIn(n, ns[1..], component)
  }

  /** The search stops at the first of them. */
  lemma {:induction false} FindsFirstRun(n: Node, component: Hash)
    ensures FindChildren(n, component) == if Runs(n, component) == [] then None else Some(Runs(n, component)[0].children)
    decreases n
  {
    if n.IsOp() && !(n.Wasm? && n.component == component) {
      FindsFirstRunIn(n, n.children, component);
    }
  }

  lemma {:induction false} FindsFirstRunIn(n: Node, ns: seq<Node>, component: Hash)
    requires forall i :: 0 <= i < |ns| ==> ns[i] < n
    ensures FindChildrenIn(n, ns, component) == if RunsIn(n, ns, component) == [] then None else Some(RunsIn(n, ns, component)[0].children)
    decreases n, |ns|
  {
    if ns != [] {
      FindsFirstRun(ns[0], component);
      FindsFirstRunIn(n, ns[1..], component);
    }
  }

  /** Every literal under every node that runs the component is its own content. */
  ghost predicate AllClean(plan: Node, component: Hash, intact: Hash -> bool) {
    forall x, l :: x in Runs(plan, component) && l in AllLeaves(x.children) ==> intact(l)
  }

  /** Each literal under a later node is under the first one too. */
  ghost predicate FirstCovers(plan: Node, component: Hash) {
    forall x, l :: x in Runs(plan, component) && l in AllLeaves(x.children) ==> l in AllLeaves(Runs(plan, component)[0].children)
  }

  /**
   The check before a component is blamed looks at the first node only. It vouches for
   all of the component's inputs exactly when the plan has no literal under a later
   node that is not under the first one as well: a component at one place, for one.
   */
  lemma CleanVouchesExactly(plan: Node, component: Hash)
    ensures (forall intact :: Clean(plan, component, intact) ==> AllClean(plan, component, intact)) <==> FirstCovers(plan, component)
  {
    var runs := Runs(plan, component);
    if FirstCovers(plan, component) {
      forall intact | Clean(plan, component, intact) ensures AllClean(plan, component, intact) {
        CoveredVouches(plan, component, intact);
      }
    } else {
      var x, l :| x in runs && l in AllLeaves(x.children) && l !in AllLeaves(runs[0].children);
      var intact := (l: Hash) => l in AllLeaves(runs[0].children);
      CleanIsFirst(plan, component, intact);
      assert FirstIntact(runs, intact);
      assert !intact(l);
    }
  }

  lemma CoveredVouches(plan: Node, component: Hash, intact: Hash -> bool)
    requires FirstCovers(plan, component) && Clean(plan, component, intact)
    ensures AllClean(plan, component, intact)
  {
    CleanIsFirst(plan, component, intact);
    hide Runs, AllLeaves, Clean;
    assert FirstIntact(Runs(plan, component), intact);
  }

  ghost predicate FirstIntact(runs: seq<Node>, intact: Hash -> bool)
    requires forall x :: x in runs ==> x.Wasm?
  {
    runs != [] ==> forall l :: l in AllLeaves(runs[0].children) ==> intact(l)
  }

  lemma CleanIsFirst(plan: Node, component: Hash, intact: Hash -> bool)
    ensures Clean(plan, component, intact) <==> FirstIntact(Runs(plan, component), intact)
  {
    FindsFirstRun(plan, component);
    var runs := Runs(plan, component);
    if runs != [] {
      var seen := AllLeaves(runs[0].children);
      assert FindChildren(plan, component) == Some(runs[0].children);
      hide Runs, AllLeaves, FindChildren;
      if Clean(plan, component, intact) {
        forall l | l in seen ensures intact(l) {
          var j :| 0 <= j < |seen| && seen[j] == l;
        }
      }
    }
  }

  /** For a given state of the literals: a clean first node leaves something out exactly when a later node's literal is not intact. */
  lemma LaterNodesUnchecked(plan: Node, component: Hash, intact: Hash -> bool)
    ensures Clean(plan, component, intact) && !AllClean(plan, component, intact) <==>
              && (forall l :: Runs(plan, component) != [] && l in AllLeaves(Runs(plan, component)[0].children) ==> intact(l))
              && exists x, l :: x in Runs(plan, component)[if Runs(plan, component) == [] then 0 else 1..] && l in AllLeaves(x.children) && !intact(l)
  {
    CleanIsFirst(plan, component, intact);
    var runs := Runs(plan, component);
    hide Runs, AllLeaves, FindChildren, Clean;
    if runs != [] {
      assert runs == [runs[0]] + runs[1..];
    }
  }

  /**
   A run in which that happens: a blob is assembled from two outputs of the component,
   the literal under the second one is corrupt, the assembled bytes are not the blob's,
   and the component is quarantined all the same.
   */
  method SecondNodeBlamed(s: Server, h: Hash, component: Hash, good: Hash, bad: Hash, check: TreeCheck, intact: Hash -> bool, ghost content: Contents,
                          sizes: (nat, nat), window: seq<byte>, source: Node -> R.Source)
    returns (plan: Node, r: Result<seq<byte>, ServeError>)
    requires Sound(check, content) && s.SizesTrue(content) && !s.IsResident(h) && h in s.index && s.index[h].size == Some(10)
    requires component !in s.quarantined && good in s.store && bad in s.store && h !in s.store && h + 1 !in s.store && h + 2 !in s.store
    requires intact(good) && !intact(bad) && sizes == (|content(good)|, |content(bad)|)
    requires |window| == 10 && !check(h, 10, 0, window)
    requires forall n :: AssembleOnly(n) ==> source(n) == SourceOf(n, content)
    modifies s`trees, s`quarantined
    ensures r == Err(RangeVerifyFailed) && component in s.quarantined
    ensures plan.Asm? && A.ValidParams(plan.segments) && A.Total(plan.segments) == 10
    ensures exists x, l :: x in Runs(plan, component) && l in AllLeaves(x.children) && !intact(l)
  {
    var first, second := Wasm(h + 1, component, true, [Lit(good, sizes.0)]), Wasm(h + 2, component, true, [Lit(bad, sizes.1)]);
    var halves := [A.BlobRange(0, 0, 5), A.BlobRange(1, 0, 5)];
    plan := Asm(h, false, halves, [first, second]);
    assert halves[1..] == [A.BlobRange(1, 0, 5)];
    TwoRuns(plan, first, second, component, good, bad, intact, sizes);
    assert Truthful(plan, content) by {
      assert Truthful(first.children[0], content) && Truthful(second.children[0], content);
      assert Truthful(plan.children[0], content) && Truthful(plan.children[1], content);
    }
    FirstSeekableIs(plan);
    hide Truthful, Sound, Runs, Clean, FindChildren, FirstSeekable, Nodes, FirstComponent, Passes, Carves, SourceOf, AssembleOnly, CarvedOut, Accepts, AllLeaves, Clamped, A.Total, A.ValidParams;
    r := s.Serve(h, 0, 10, Ok(plan), Produced(window), true, false, check, intact, true, content, source);
  }

  lemma TwoRuns(plan: Node, first: Node, second: Node, component: Hash, good: Hash, bad: Hash, intact: Hash -> bool, sizes: (nat, nat))
    requires first == Wasm(plan.hash + 1, component, true, [Lit(good, sizes.0)]) && second == Wasm(plan.hash + 2, component, true, [Lit(bad, sizes.1)])
    requires plan.Asm? && plan == Asm(plan.hash, false, plan.segments, [first, second]) && intact(good) && !intact(bad)
    ensures FirstSeekable(plan) == Some(component) && Clean(plan, component, intact)
    ensures exists x, l :: x in Runs(plan, component) && l in AllLeaves(x.children) && !intact(l)
  {
    var ns := plan.children;
    assert FirstSeekable(ns[0]) == Some(component);
    assert FindChildren(ns[0], component) == Some([Lit(good, sizes.0)]);
    assert FindChildrenIn(plan, ns, component) == Some([Lit(good, sizes.0)]);
    assert AllLeaves([Lit(good, sizes.0)][1..]) == [] && AllLeaves([Lit(good, sizes.0)]) == [good] + [];
    assert ns[1..][0] == second && Runs(ns[1..][0], component)[0] == second;
    assert RunsIn(plan, ns[1..], component)[0] == second;
    assert second in RunsIn(plan, ns, component);
    assert AllLeaves(second.children)[0] == bad;
  }
}
