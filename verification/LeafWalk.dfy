/**
 The walk of the piece swap (D116) from a rebuild route down to its grounding
 leaves. An absent input that can be rebuilt from smaller parts is an
 intermediate, whose own route is walked and later licensed; every other
 non-generated input is a leaf, which the swap packs if it is absent.
 */
module LeafWalk {
  import opened Wrappers
  import opened Grounding

  /** One row of a rebuild route's inputs, with its sharing evidence. */
  datatype RebuildInput = RebuildInput(hash: Hash, size: Option<nat>, residency: Residency, coveringClaims: nat, generated: bool)

  datatype Index = Index(blobs: map<Hash, BlobRow>, recipes: Recipes) {
    function Row(h: Hash): BlobRow {
      if h in blobs then blobs[h] else BlobRow(None, Absent)
    }

    /** The output of a non-failed recipe without inputs: never packed. */
    predicate Generated(h: Hash) {
      exists i :: 0 <= i < |recipes| && recipes[i].verify != Failed && recipes[i].inputs == [] && recipes[i].Claims(h)
    }

    function CoveringClaims(h: Hash): nat {
      |set i | 0 <= i < |recipes| && recipes[i].verify != Failed && recipes[i].Claims(h)|
    }

    function RebuildInputOf(h: Hash): RebuildInput {
      RebuildInput(h, Row(h).size, Row(h).residency, CoveringClaims(h), Generated(h))
    }

    /** A route is a view when a non-generated input is at least as large as the output. */
    predicate IsView(inputs: seq<Hash>, size: nat) {
      exists x :: x in inputs && !Generated(x) && Row(x).size.Some? && Row(x).size.value >= size
    }

    predicate IsDownward(i: RecipeId, h: Hash, size: nat)
      requires i < |recipes|
    {
      recipes[i].Claims(h) && recipes[i].verify != Failed && recipes[i].inputs != [] && !IsView(recipes[i].inputs, size)
    }

    /** The first non-failed route of `h` that rebuilds it from smaller parts. */
    function DownwardRoute(h: Hash): Option<RecipeId> {
      if Row(h).size.None? then None else DownwardFrom(h, Row(h).size.value, 0)
    }

    function DownwardFrom(h: Hash, size: nat, from: nat): (r: Option<RecipeId>)
      requires from <= |recipes|
      ensures r.Some? ==> from <= r.value < |recipes| && IsDownward(r.value, h, size)
      ensures r.Some? ==> forall i :: from <= i < r.value ==> !IsDownward(i, h, size)
      ensures r.None? ==> forall i :: from <= i < |recipes| ==> !IsDownward(i, h, size)
      decreases |recipes| - from
    {
      if from == |recipes| then None
      else if IsDownward(from, h, size) then Some(from)
      else DownwardFrom(h, size, from + 1)
    }

    /** Every blob some recipe takes as an input. */
    function AllInputs(): set<Hash> {
      set i, x | 0 <= i < |recipes| && x in recipes[i].inputs :: x
    }
  }

  /** A live route of `h`. */
  predicate IsLive(ix: Index, i: RecipeId, h: Hash) {
    i < |ix.recipes| && ix.recipes[i].Claims(h) && ix.recipes[i].verify != Failed
  }

  /** A leaf counts as claimed by one decomposition only when no two live routes make it. */
  lemma SharedExactly(ix: Index, h: Hash)
    ensures ix.CoveringClaims(h) <= 1 <==> forall i: RecipeId, j: RecipeId :: IsLive(ix, i, h) && IsLive(ix, j, h) ==> i == j
  {
    var claims := set i | 0 <= i < |ix.recipes| && ix.recipes[i].verify != Failed && ix.recipes[i].Claims(h);
    assert |claims| == ix.CoveringClaims(h);
    assert forall i: RecipeId :: i in claims <==> IsLive(ix, i, h);
    if i: RecipeId, j: RecipeId :| IsLive(ix, i, h) && IsLive(ix, j, h) && i != j {
      assert i in claims && j in claims;
      assert claims == {i, j} + (claims - {i, j});
      assert |claims| >= 2;
    } else {
      AtMostOne(claims);
    }
  }

  lemma AtMostOne(s: set<RecipeId>)
    requires forall i, j :: i in s && j in s ==> i == j
    ensures |s| <= 1
  {
    if s != {} {
      var i :| i in s;
      assert s == {i};
    }
  }

  /** The way down: the first live route of a blob of known size that makes it from smaller inputs, generated ones apart. */
  lemma DownwardIsFirst(ix: Index, h: Hash, i: RecipeId)
    ensures ix.DownwardRoute(h) == Some(i) <==>
      && h in ix.blobs && ix.blobs[h].size.Some? && MakesFromSmaller(ix, i, h, ix.blobs[h].size.value)
      && forall j :: 0 <= j < i ==> !MakesFromSmaller(ix, j, h, ix.blobs[h].size.value)
  {
    if h in ix.blobs && ix.blobs[h].size.Some? {
      forall j | 0 <= j < |ix.recipes| ensures ix.IsDownward(j, h, ix.blobs[h].size.value) <==> MakesFromSmaller(ix, j, h, ix.blobs[h].size.value) {
        SmallerIsDownward(ix, j, h, ix.blobs[h].size.value);
      }
    }
  }

  ghost predicate MakesFromSmaller(ix: Index, i: RecipeId, h: Hash, size: nat) {
    && i < |ix.recipes| && (exists c :: c in ix.recipes[i].outputs && c.hash == h) && ix.recipes[i].verify != Failed && ix.recipes[i].inputs != []
    && forall x :: x in ix.recipes[i].inputs && x in ix.blobs && ix.blobs[x].size.Some? && ix.blobs[x].size.value >= size ==> IsGenerated(ix, x)
  }

  /** Some live route makes the blob from nothing. */
  ghost predicate IsGenerated(ix: Index, x: Hash) {
    exists i, c :: 0 <= i < |ix.recipes| && ix.recipes[i].verify != Failed && ix.recipes[i].inputs == [] && c in ix.recipes[i].outputs && c.hash == x
  }

  lemma SmallerIsDownward(ix: Index, i: RecipeId, h: Hash, size: nat)
    requires i < |ix.recipes|
    ensures ix.IsDownward(i, h, size) <==> MakesFromSmaller(ix, i, h, size)
  {
    forall x ensures ix.Generated(x) <==> IsGenerated(ix, x) {
      if ix.Generated(x) {
        var k :| 0 <= k < |ix.recipes| && ix.recipes[k].verify != Failed && ix.recipes[k].inputs == [] && ix.recipes[k].Claims(x);
        var c :| c in ix.recipes[k].outputs && c.hash == x;
        assert IsGenerated(ix, x);
      }
    }
    hide Index.Generated, IsGenerated;
  }

  /** The walk's accumulators: blobs seen, leaves in walk order, routes in post-order. */
  datatype Leaves = Leaves(seen: set<Hash>, inputs: seq<RebuildInput>, routes: seq<RecipeId>) {
    predicate HasLeaf(h: Hash) {
      exists l :: l in inputs && l.hash == h
    }
  }

  function WalkRoute(ix: Index, id: RecipeId, path: seq<Hash>, out: Leaves): (r: Leaves)
    requires id < |ix.recipes|
    ensures out.seen <= r.seen
    decreases |ix.AllInputs() - out.seen|, |ix.recipes[id].inputs| + 1
  {
    WalkInputs(ix, id, path, out, 0)
  }

  function WalkInputs(ix: Index, id: RecipeId, path: seq<Hash>, out: Leaves, from: nat): (r: Leaves)
    requires id < |ix.recipes| && from <= |ix.recipes[id].inputs|
    ensures out.seen <= r.seen
    decreases |ix.AllInputs() - out.seen|, |ix.recipes[id].inputs| - from
  {
    var inputs := ix.recipes[id].inputs;
    if from == |inputs| then out
    else
      var next := WalkOne(ix, inputs[from], path, out, id, from);
      SeenShrinks(ix, out.seen, next.seen);
      WalkInputs(ix, id, path, next, from + 1)
  }

  /** One input: skipped, kept as a leaf, or walked as an intermediate. */
  function WalkOne(ix: Index, h: Hash, path: seq<Hash>, out: Leaves, id: RecipeId, from: nat): (r: Leaves)
    requires id < |ix.recipes| && from < |ix.recipes[id].inputs| && ix.recipes[id].inputs[from] == h
    ensures out.seen <= r.seen
    decreases |ix.AllInputs() - out.seen|, 0
  {
    var input := ix.RebuildInputOf(h);
    if input.generated || h in out.seen then out
    else
      var out := out.(seen := out.seen + {h});
      if input.residency.Resident? then out.(inputs := out.inputs + [input])
      else if h in path then out
      else
        match ix.DownwardRoute(h)
        case None => out.(inputs := out.inputs + [input])
        case Some(route) =>
          InputListed(ix, id, from);
          SeenGrows(ix, out.seen - {h}, h);
          var below := WalkRoute(ix, route, path + [h], out);
          below.(routes := below.routes + [route])
  }

  lemma InputListed(ix: Index, id: RecipeId, from: nat)
    requires id < |ix.recipes| && from < |ix.recipes[id].inputs|
    ensures ix.recipes[id].inputs[from] in ix.AllInputs()
  {
    var x := ix.recipes[id].inputs[from];
    assert x in ix.recipes[id].inputs;
  }

  lemma SeenShrinks(ix: Index, a: set<Hash>, b: set<Hash>)
    requires a <= b
    ensures |ix.AllInputs() - b| <= |ix.AllInputs() - a|
  {
    var x, y := ix.AllInputs() - b, ix.AllInputs() - a;
    assert y == x + (y - x);
    assert |y| == |x| + |y - x|;
  }

  lemma SeenGrows(ix: Index, seen: set<Hash>, h: Hash)
    requires h in ix.AllInputs() && h !in seen
    ensures |ix.AllInputs() - (seen + {h})| < |ix.AllInputs() - seen|
  {
    assert ix.AllInputs() - seen == (ix.AllInputs() - (seen + {h})) + {h};
  }

  function CollectLeaves(ix: Index, id: RecipeId): Leaves
    requires id < |ix.recipes|
  {
    WalkRoute(ix, id, [], Leaves({}, [], []))
  }

  // ---- What the walk keeps ----

  /** `x` needs nothing more: regenerated, packed as a leaf, or rebuilt by one of the first `n` routes. */
  ghost predicate SettledBy(ix: Index, out: Leaves, x: Hash, n: nat)
    requires n <= |out.routes|
  {
    || ix.Generated(x)
    || out.HasLeaf(x)
    || exists j :: 0 <= j < n && out.routes[j] < |ix.recipes| && ix.recipes[out.routes[j]].Claims(x)
  }

  ghost predicate Settled(ix: Index, out: Leaves, x: Hash) {
    SettledBy(ix, out, x, |out.routes|)
  }

  /** Bottom-up topological order: a route's inputs are settled before the route itself. */
  ghost predicate RoutesOrdered(ix: Index, out: Leaves) {
    forall j :: 0 <= j < |out.routes| ==>
      && out.routes[j] < |ix.recipes| && ix.recipes[out.routes[j]].verify != Failed
      && forall x :: x in ix.recipes[out.routes[j]].inputs ==> SettledBy(ix, out, x, j)
  }

  /** Each leaf is listed once, is not regenerable, and is resident or has no downward route. */
  ghost predicate LeavesExact(ix: Index, out: Leaves) {
    && (forall j :: 0 <= j < |out.inputs| ==>
          && out.inputs[j] == ix.RebuildInputOf(out.inputs[j].hash)
          && !out.inputs[j].generated && out.inputs[j].hash in out.seen
          && (out.inputs[j].residency.Resident? || ix.DownwardRoute(out.inputs[j].hash).None?))
    && forall i, j :: 0 <= i < j < |out.inputs| ==> out.inputs[i].hash != out.inputs[j].hash
  }

  ghost predicate BelowSize(ix: Index, x: Hash, bound: nat) {
    ix.Row(x).size.Some? ==> ix.Row(x).size.value < bound
  }

  ghost predicate Invariant(ix: Index, out: Leaves, path: seq<Hash>, top: nat) {
    && RoutesOrdered(ix, out)
    && (forall p :: p in path ==> p in out.seen)
    && forall x :: x in out.seen ==> BelowSize(ix, x, top) && (x in path || Settled(ix, out, x))
  }

  /**
   Sizes fall strictly on the way down: everything on the path is at least
   `bound`, every packable input of the route is below it. A blob on the path
   is therefore never met again.
   */
  ghost predicate Descending(ix: Index, id: RecipeId, path: seq<Hash>, bound: nat)
    requires id < |ix.recipes|
  {
    && (forall p :: p in path ==> ix.Row(p).size.Some? && bound <= ix.Row(p).size.value)
    && forall x :: x in ix.recipes[id].inputs && !ix.Generated(x) ==> BelowSize(ix, x, bound)
  }

  ghost predicate Extends(a: Leaves, b: Leaves) {
    a.seen <= b.seen && a.inputs <= b.inputs && a.routes <= b.routes
  }

  lemma SettledPersists(ix: Index, a: Leaves, b: Leaves, x: Hash, n: nat)
    requires Extends(a, b) && n <= |a.routes| && SettledBy(ix, a, x, n)
    ensures SettledBy(ix, b, x, n)
  {
    if a.HasLeaf(x) {
      var l :| l in a.inputs && l.hash == x;
      assert l in b.inputs;
    }
  }

  lemma PrefixPersists(ix: Index, a: Leaves, b: Leaves, inputs: seq<Hash>, from: nat)
    requires from < |inputs| && Extends(a, b) && Settled(ix, b, inputs[from])
    requires forall j :: 0 <= j < from ==> Settled(ix, a, inputs[j])
    ensures forall j :: 0 <= j < from + 1 ==> Settled(ix, b, inputs[j])
  {
    forall j | 0 <= j < from ensures Settled(ix, b, inputs[j]) {
      SettledPersists(ix, a, b, inputs[j], |a.routes|);
    }
  }

  lemma ExtendsTransitive(a: Leaves, b: Leaves, c: Leaves)
    requires Extends(a, b) && Extends(b, c)
    ensures Extends(a, c)
  {
  }

  /** Whatever the sizes are: exact leaves, routes of the table, and only inputs of recipes seen. */
  ghost predicate Shape(ix: Index, out: Leaves) {
    && LeavesExact(ix, out)
    && out.seen <= ix.AllInputs()
    && forall i :: i in out.routes ==> i < |ix.recipes|
  }

  lemma {:induction false} WalkRouteShape(ix: Index, id: RecipeId, path: seq<Hash>, out: Leaves)
    requires id < |ix.recipes| && Shape(ix, out) && (forall p :: p in path ==> p in out.seen)
    ensures Shape(ix, WalkRoute(ix, id, path, out))
    decreases |ix.AllInputs() - out.seen|, |ix.recipes[id].inputs| + 1
  {
    WalkInputsShape(ix, id, path, out, 0);
  }

  lemma {:induction false} WalkInputsShape(ix: Index, id: RecipeId, path: seq<Hash>, out: Leaves, from: nat)
    requires id < |ix.recipes| && from <= |ix.recipes[id].inputs| && Shape(ix, out) && (forall p :: p in path ==> p in out.seen)
    ensures Shape(ix, WalkInputs(ix, id, path, out, from))
    decreases |ix.AllInputs() - out.seen|, |ix.recipes[id].inputs| - from
  {
    var inputs := ix.recipes[id].inputs;
    if from < |inputs| {
      var next := WalkOne(ix, inputs[from], path, out, id, from);
      WalkOneShape(ix, inputs[from], path, out, id, from);
      SeenShrinks(ix, out.seen, next.seen);
      WalkInputsShape(ix, id, path, next, from + 1);
    }
  }

  lemma {:induction false} WalkOneShape(ix: Index, h: Hash, path: seq<Hash>, out: Leaves, id: RecipeId, from: nat)
    requires id < |ix.recipes| && from < |ix.recipes[id].inputs| && ix.recipes[id].inputs[from] == h
    requires Shape(ix, out) && (forall p :: p in path ==> p in out.seen)
    ensures Shape(ix, WalkOne(ix, h, path, out, id, from))
    decreases |ix.AllInputs() - out.seen|, 0
  {
    InputListed(ix, id, from);
    var input := ix.RebuildInputOf(h);
    if !input.generated && h !in out.seen {
      var marked := out.(seen := out.seen + {h});
      assert Shape(ix, marked);
      if input.residency.Resident? || ix.DownwardRoute(h).None? {
        LeafShape(ix, h, out);
      } else {
        SeenGrows(ix, out.seen, h);
        WalkRouteShape(ix, ix.DownwardRoute(h).value, path + [h], marked);
      }
    }
  }

  lemma LeafShape(ix: Index, h: Hash, out: Leaves)
    requires Shape(ix, out) && h !in out.seen && h in ix.AllInputs() && !ix.Generated(h)
    requires ix.Row(h).residency.Resident? || ix.DownwardRoute(h).None?
    ensures Shape(ix, Leaves(out.seen + {h}, out.inputs + [ix.RebuildInputOf(h)], out.routes))
  {
  }

  /** Every walk lists each leaf once, and only leaves. */
  lemma CollectLeavesShape(ix: Index, id: RecipeId)
    requires id < |ix.recipes|
    ensures Shape(ix, CollectLeaves(ix, id))
  {
    WalkRouteShape(ix, id, [], Leaves({}, [], []));
  }

  lemma {:induction false} WalkRouteKeeps(ix: Index, id: RecipeId, path: seq<Hash>, out: Leaves, bound: nat, top: nat)
    requires id < |ix.recipes| && bound <= top
    requires Invariant(ix, out, path, top) && Descending(ix, id, path, bound)
    ensures var r := WalkRoute(ix, id, path, out);
            && Invariant(ix, r, path, top) && Extends(out, r)
            && forall x :: x in ix.recipes[id].inputs ==> Settled(ix, r, x)
    decreases |ix.AllInputs() - out.seen|, |ix.recipes[id].inputs| + 1
  {
    WalkInputsKeeps(ix, id, path, out, 0, bound, top);
  }

  lemma {:induction false} WalkInputsKeeps(ix: Index, id: RecipeId, path: seq<Hash>, out: Leaves, from: nat, bound: nat, top: nat)
    requires id < |ix.recipes| && from <= |ix.recipes[id].inputs| && bound <= top
    requires Invariant(ix, out, path, top) && Descending(ix, id, path, bound)
    requires forall j :: 0 <= j < from ==> Settled(ix, out, ix.recipes[id].inputs[j])
    ensures var r := WalkInputs(ix, id, path, out, from);
            && Invariant(ix, r, path, top) && Extends(out, r)
            && forall x :: x in ix.recipes[id].inputs ==> Settled(ix, r, x)
    decreases |ix.AllInputs() - out.seen|, |ix.recipes[id].inputs| - from
  {
    var inputs := ix.recipes[id].inputs;
    hide WalkOne, Invariant, Extends, Descending, Settled;
    if from < |inputs| {
      var next := WalkOne(ix, inputs[from], path, out, id, from);
      WalkOneKeeps(ix, inputs[from], path, out, id, from, bound, top);
      SeenShrinks(ix, out.seen, next.seen);
      PrefixPersists(ix, out, next, inputs, from);
      WalkInputsKeeps(ix, id, path, next, from + 1, bound, top);
      ExtendsTransitive(out, next, WalkInputs(ix, id, path, next, from + 1));
    } else {
      forall x | x in inputs ensures Settled(ix, out, x) {
      }
    }
  }

  lemma {:induction false} WalkOneKeeps(ix: Index, h: Hash, path: seq<Hash>, out: Leaves, id: RecipeId, from: nat, bound: nat, top: nat)
    requires id < |ix.recipes| && from < |ix.recipes[id].inputs| && ix.recipes[id].inputs[from] == h && bound <= top
    requires Invariant(ix, out, path, top) && Descending(ix, id, path, bound)
    ensures var r := WalkOne(ix, h, path, out, id, from);
            Invariant(ix, r, path, top) && Extends(out, r) && Settled(ix, r, h)
    decreases |ix.AllInputs() - out.seen|, 0
  {
    assert h in ix.recipes[id].inputs;
    var input := ix.RebuildInputOf(h);
    if !input.generated && h !in out.seen {
      var marked := out.(seen := out.seen + {h});
      if input.residency.Resident? || ix.DownwardRoute(h).None? {
        LeafKeeps(ix, h, path, out, top);
      } else {
        var route := ix.DownwardRoute(h).value;
        var size := ix.Row(h).size.value;
        InputListed(ix, id, from);
        SeenGrows(ix, out.seen, h);
        MarkKeeps(ix, h, path, out, top);
        assert Descending(ix, route, path + [h], size) by {
          forall x | x in ix.recipes[route].inputs && !ix.Generated(x) ensures BelowSize(ix, x, size) {
          }
        }
        WalkRouteKeeps(ix, route, path + [h], marked, size, top);
        RouteKeeps(ix, h, route, path, WalkRoute(ix, route, path + [h], marked), top);
      }
    }
  }

  /** Marking an intermediate as seen, with the intermediate on the path. */
  lemma MarkKeeps(ix: Index, h: Hash, path: seq<Hash>, out: Leaves, top: nat)
    requires Invariant(ix, out, path, top) && BelowSize(ix, h, top)
    ensures Invariant(ix, out.(seen := out.seen + {h}), path + [h], top)
  {
    var r := out.(seen := out.seen + {h});
    assert Extends(out, r);
    forall j, x | 0 <= j < |r.routes| && x in ix.recipes[r.routes[j]].inputs ensures SettledBy(ix, r, x, j) {
      SettledPersists(ix, out, r, x, j);
    }
    forall x | x in r.seen ensures BelowSize(ix, x, top) && (x in path + [h] || Settled(ix, r, x)) {
      if x in out.seen && x !in path {
        SettledPersists(ix, out, r, x, |out.routes|);
      }
    }
  }

  lemma LeafKeeps(ix: Index, h: Hash, path: seq<Hash>, out: Leaves, top: nat)
    requires Invariant(ix, out, path, top) && BelowSize(ix, h, top)
    requires h !in out.seen && !ix.Generated(h)
    requires ix.Row(h).residency.Resident? || ix.DownwardRoute(h).None?
    ensures var r := Leaves(out.seen + {h}, out.inputs + [ix.RebuildInputOf(h)], out.routes);
            Invariant(ix, r, path, top) && Extends(out, r) && Settled(ix, r, h)
  {
    var r := Leaves(out.seen + {h}, out.inputs + [ix.RebuildInputOf(h)], out.routes);
    assert Extends(out, r);
    assert r.inputs[|out.inputs|].hash == h;
    forall j, x | 0 <= j < |r.routes| && x in ix.recipes[r.routes[j]].inputs ensures SettledBy(ix, r, x, j) {
      SettledPersists(ix, out, r, x, j);
    }
    forall x | x in r.seen ensures BelowSize(ix, x, top) && (x in path || Settled(ix, r, x)) {
      if x in out.seen && x !in path {
        SettledPersists(ix, out, r, x, |out.routes|);
      }
    }
  }

  /** Listing an intermediate's route once everything under it is settled. */
  lemma RouteKeeps(ix: Index, h: Hash, route: RecipeId, path: seq<Hash>, below: Leaves, top: nat)
    requires route < |ix.recipes| && ix.recipes[route].verify != Failed && ix.recipes[route].Claims(h)
    requires Invariant(ix, below, path + [h], top)
    requires forall x :: x in ix.recipes[route].inputs ==> Settled(ix, below, x)
    ensures var r := below.(routes := below.routes + [route]);
            Invariant(ix, r, path, top) && Extends(below, r) && Settled(ix, r, h)
  {
    var r := below.(routes := below.routes + [route]);
    assert Extends(below, r);
    assert r.routes[|below.routes|] == route;
    forall j | 0 <= j < |r.routes|
      ensures r.routes[j] < |ix.recipes| && ix.recipes[r.routes[j]].verify != Failed
      ensures forall x :: x in ix.recipes[r.routes[j]].inputs ==> SettledBy(ix, r, x, j)
    {
      forall x | x in ix.recipes[r.routes[j]].inputs ensures SettledBy(ix, r, x, j) {
        SettledPersists(ix, below, r, x, j);
      }
    }
    forall p | p in path ensures p in r.seen {
      assert p in path + [h];
    }
    forall x | x in r.seen ensures BelowSize(ix, x, top) && (x in path || Settled(ix, r, x)) {
      if x !in path && x != h {
        SettledPersists(ix, below, r, x, |below.routes|);
      }
    }
  }

  // ---- Main results ----

  /** Every packable input of the swapped container's route is smaller than the container. */
  ghost predicate Decomposes(ix: Index, id: RecipeId, container: Hash)
    requires id < |ix.recipes|
  {
    && ix.Row(container).size.Some?
    && forall x :: x in ix.recipes[id].inputs && !ix.Generated(x) ==> BelowSize(ix, x, ix.Row(container).size.value)
  }

  /** The walk from a decomposition: routes bottom-up, every input settled, and never the container itself. */
  lemma CollectLeavesOrdered(ix: Index, id: RecipeId, container: Hash)
    requires id < |ix.recipes| && Decomposes(ix, id, container)
    ensures var r := CollectLeaves(ix, id);
            && RoutesOrdered(ix, r)
            && (forall x :: x in ix.recipes[id].inputs ==> Settled(ix, r, x))
            && !r.HasLeaf(container)
  {
    var size := ix.Row(container).size.value;
    WalkRouteKeeps(ix, id, [], Leaves({}, [], []), size, size);
    CollectLeavesShape(ix, id);
  }

  lemma {:induction false} RoutesGround(ix: Index, rules: set<RecipeId>, seed: set<Hash>, out: Leaves, n: nat)
    requires RoutesOrdered(ix, out) && n <= |out.routes|
    requires forall l :: l in out.inputs ==> l.hash in seed
    requires forall j :: 0 <= j < |out.routes| ==> out.routes[j] in rules
    requires forall x :: x in ix.AllInputs() && ix.Generated(x) ==> Grounded(ix.recipes, rules, seed, x)
    ensures forall x :: x in ix.AllInputs() && SettledBy(ix, out, x, n) ==> Grounded(ix.recipes, rules, seed, x)
  {
    forall x | x in ix.AllInputs() && SettledBy(ix, out, x, n) ensures Grounded(ix.recipes, rules, seed, x) {
      if !ix.Generated(x) && !out.HasLeaf(x) {
        var j :| 0 <= j < n && out.routes[j] < |ix.recipes| && ix.recipes[out.routes[j]].Claims(x);
        RoutesGround(ix, rules, seed, out, j);
        var id := out.routes[j];
        forall y | y in ix.recipes[id].inputs ensures Grounded(ix.recipes, rules, seed, y) {
          assert y in ix.AllInputs();
        }
        GroundedStep(ix.recipes, rules, seed, id, x);
      } else if out.HasLeaf(x) {
        assert x in Reach(ix.recipes, rules, seed, 0);
      }
    }
  }

  /**
   The leaves are enough: with them resident, the listed routes and the rebuild
   route allowed to fire, and generated inputs grounded, the container stays
   grounded without its own literal.
   */
  lemma LeavesSuffice(ix: Index, id: RecipeId, container: Hash, rules: set<RecipeId>, resident: set<Hash>)
    requires id < |ix.recipes| && Decomposes(ix, id, container) && ix.recipes[id].Claims(container)
    requires id in rules && forall j :: j in CollectLeaves(ix, id).routes ==> j in rules
    requires forall l :: l in CollectLeaves(ix, id).inputs ==> l.hash in resident
    requires forall x :: x in ix.AllInputs() && ix.Generated(x) ==> Grounded(ix.recipes, rules, resident - {container}, x)
    ensures Grounded(ix.recipes, rules, resident - {container}, container)
  {
    var out := CollectLeaves(ix, id);
    var seed := resident - {container};
    CollectLeavesOrdered(ix, id, container);
    RoutesGround(ix, rules, seed, out, |out.routes|);
    forall x | x in ix.recipes[id].inputs ensures Grounded(ix.recipes, rules, seed, x) {
      assert x in ix.AllInputs();
      assert Settled(ix, out, x);
    }
    GroundedStep(ix.recipes, rules, seed, id, container);
  }

  // ---- The walk itself ----

  class Walker {
    var path: seq<Hash>
    var out: Leaves

    constructor ()
      ensures path == [] && out == Leaves({}, [], [])
    {
      path := [];
      out := Leaves({}, [], []);
    }

    /** `walk`: recurse below each intermediate with it on the path, then list its route. */
    method Walk(ix: Index, id: RecipeId)
      requires id < |ix.recipes|
      modifies this
      ensures path == old(path)
      ensures out == WalkRoute(ix, id, path, old(out))
      decreases |ix.AllInputs() - out.seen|, 1
    {
      hide WalkOne;
      var inputs := ix.recipes[id].inputs;
      var j := 0;
      while j < |inputs|
        invariant j <= |inputs|
        invariant path == old(path) && old(out).seen <= out.seen
        invariant WalkRoute(ix, id, path, old(out)) == WalkInputs(ix, id, path, out, j)
      {
        SeenShrinks(ix, old(out).seen, out.seen);
        WalkInput(ix, id, j);
        j := j + 1;
      }
    }

    /** One input of the route being walked. */
    method WalkInput(ix: Index, id: RecipeId, j: nat)
      requires id < |ix.recipes| && j < |ix.recipes[id].inputs|
      modifies this
      ensures path == old(path) && old(out).seen <= out.seen
      ensures out == WalkOne(ix, ix.recipes[id].inputs[j], path, old(out), id, j)
      decreases |ix.AllInputs() - out.seen|, 0
    {
      hide WalkInputs, WalkRoute;
      var input := ix.RebuildInputOf(ix.recipes[id].inputs[j]);
      if !input.generated && input.hash !in out.seen {
        out := out.(seen := out.seen + {input.hash});
        if input.residency.Resident? {
          out := out.(inputs := out.inputs + [input]);
        } else if input.hash !in path {
          var route := ix.DownwardRoute(input.hash);
          if route.Some? {
            InputListed(ix, id, j);
            SeenGrows(ix, old(out).seen, input.hash);
            path := path + [input.hash];
            Walk(ix, route.value);
            path := path[..|path| - 1];
            out := out.(routes := out.routes + [route.value]);
          } else {
            out := out.(inputs := out.inputs + [input]);
          }
        }
      }
    }
  }
}
