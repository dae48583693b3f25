/**
 Route planning (`Executor::plan`): a depth-first search for an operator tree
 over store-resident literals, with a cycle cut on the current path and a depth
 cut. Both cuts make a blob's answer depend on the path that asks for it, so the
 exact set of plannable blobs is a theorem (`PlanExact`), not a definition.
 */
module Planning {
  import opened Wrappers
  import opened Grounding

  datatype Plan =
    | Literal(hash: Hash)
    | Op(hash: Hash, recipe: RecipeId, children: seq<Plan>)

  datatype PlanError =
    | NoRoute(hash: Hash)
    | Depth
    | Cycle(hash: Hash)
    | UnknownRecipe(recipe: RecipeId)

  type PlanResult = Result<Plan, PlanError>

  /**
   What a plan reads: the index, the blobs whose bytes the store holds, and the
   components that can be loaded, from the store or already compiled.
   */
  datatype World = World(blobs: map<Hash, BlobRow>, recipes: Recipes, stored: set<Hash>, loadable: set<Hash>, maxDepth: nat) {
    /** An op resolves when its component, if it needs one, can be loaded. */
    predicate Resolves(r: Recipe) {
      r.component.None? || r.component.value in loadable
    }

    /** The recipes a plan may use: never poisoned, and the op resolves. */
    function Usable(): set<RecipeId> {
      set i | 0 <= i < |recipes| && recipes[i].verify != Failed && Resolves(recipes[i])
    }

    /** What needs no child plan: stored bytes, and outputs of zero-input recipes. */
    function Leaves(): set<Hash> {
      stored + set i, c | i in Usable() && recipes[i].inputs == [] && c in recipes[i].outputs :: c.hash
    }

    /** The blobs a plan tree of height at most `k` can produce. */
    function Within(k: nat): set<Hash> {
      Reach(recipes, Usable(), Leaves(), k)
    }

    /** Indexing a recipe creates a row for every blob it mentions. */
    ghost predicate Indexed() {
      forall i, c :: 0 <= i < |recipes| && c in recipes[i].outputs ==> c.hash in blobs
    }
  }

  // ---- The search, as a function of the path ----

  function PlanBlob(w: World, h: Hash, depth: nat, path: seq<Hash>): PlanResult
    requires depth <= w.maxDepth + 1
    decreases w.maxDepth + 1 - depth, 3, 0
  {
    if depth > w.maxDepth then Err(Depth)
    else if h in path then Err(Cycle(h))
    else if h in w.stored then Ok(Literal(h))
    else if h !in w.blobs then Err(NoRoute(h))
    else PlanRoutes(w, h, depth, path + [h], 0, NoRoute(h))
  }

  /** The first usable route from recipe `from` on; the last failure otherwise. */
  function PlanRoutes(w: World, h: Hash, depth: nat, path: seq<Hash>, from: nat, last: PlanError): PlanResult
    requires depth <= w.maxDepth && from <= |w.recipes|
    decreases w.maxDepth + 1 - depth, 2, |w.recipes| - from
  {
    if from == |w.recipes| then Err(last)
    else if !w.recipes[from].Claims(h) || w.recipes[from].verify == Failed then
      PlanRoutes(w, h, depth, path, from + 1, last)
    else
      match PlanRecipe(w, h, depth, path, from)
      case Ok(plan) => Ok(plan)
      case Err(e) => PlanRoutes(w, h, depth, path, from + 1, e)
  }

  function PlanRecipe(w: World, h: Hash, depth: nat, path: seq<Hash>, id: RecipeId): PlanResult
    requires depth <= w.maxDepth && id < |w.recipes|
    decreases w.maxDepth + 1 - depth, 1, 0
  {
    var r := w.recipes[id];
    if !w.Resolves(r) then Err(NoRoute(r.component.value))
    else
      var children :- PlanInputs(w, r.inputs, depth, path, 0);
      Ok(Op(h, id, children))
  }

  function PlanInputs(w: World, inputs: seq<Hash>, depth: nat, path: seq<Hash>, from: nat): (r: Result<seq<Plan>, PlanError>)
    requires depth <= w.maxDepth && from <= |inputs|
    ensures r.Ok? ==> |r.value| == |inputs| - from
    decreases w.maxDepth + 1 - depth, 0, |inputs| - from
  {
    if from == |inputs| then Ok([])
    else
      var child :- PlanBlob(w, inputs[from], depth + 1, path);
      var rest :- PlanInputs(w, inputs, depth, path, from + 1);
      Ok([child] + rest)
  }

  // ---- Soundness ----

  /**
   A plan that can run: literals the store holds, usable recipes that claim what
   they are asked for, one child per input, no blob repeated on the way down,
   and nothing below the depth limit.
   */
  ghost predicate Valid(w: World, p: Plan, depth: nat, path: seq<Hash>)
    decreases p
  {
    && depth <= w.maxDepth
    && p.hash !in path
    && match p
       case Literal(h) => h in w.stored
       case Op(h, id, children) =>
         && h !in w.stored
         && id in w.Usable() && w.recipes[id].Claims(h)
         && |children| == |w.recipes[id].inputs|
         && forall j :: 0 <= j < |children| ==>
              children[j].hash == w.recipes[id].inputs[j] && Valid(w, children[j], depth + 1, path + [h])
  }

  lemma {:induction false} PlanSound(w: World, h: Hash, depth: nat, path: seq<Hash>)
    requires depth <= w.maxDepth + 1
    ensures var r := PlanBlob(w, h, depth, path);
            r.Ok? ==> r.value.hash == h && Valid(w, r.value, depth, path)
    decreases w.maxDepth + 1 - depth, 3, 0
  {
    if depth <= w.maxDepth && h !in path && h !in w.stored && h in w.blobs {
      RoutesSound(w, h, depth, path, 0, NoRoute(h));
    }
  }

  lemma {:induction false} RoutesSound(w: World, h: Hash, depth: nat, path: seq<Hash>, from: nat, last: PlanError)
    requires depth <= w.maxDepth && from <= |w.recipes| && h !in path && h !in w.stored
    ensures var r := PlanRoutes(w, h, depth, path + [h], from, last);
            r.Ok? ==> r.value.hash == h && Valid(w, r.value, depth, path)
    decreases w.maxDepth + 1 - depth, 2, |w.recipes| - from
  {
    if from < |w.recipes| {
      if w.recipes[from].Claims(h) && w.recipes[from].verify != Failed {
        RecipeSound(w, h, depth, path, from);
        match PlanRecipe(w, h, depth, path + [h], from)
        case Ok(_) =>
        case Err(e) => RoutesSound(w, h, depth, path, from + 1, e);
      } else {
        RoutesSound(w, h, depth, path, from + 1, last);
      }
    }
  }

  lemma {:induction false} RecipeSound(w: World, h: Hash, depth: nat, path: seq<Hash>, id: RecipeId)
    requires depth <= w.maxDepth && id < |w.recipes| && h !in path && h !in w.stored
    requires w.recipes[id].Claims(h) && w.recipes[id].verify != Failed
    ensures var r := PlanRecipe(w, h, depth, path + [h], id);
            r.Ok? ==> r.value.hash == h && Valid(w, r.value, depth, path)
    decreases w.maxDepth + 1 - depth, 1, 0
  {
    var inputs := w.recipes[id].inputs;
    var r := PlanRecipe(w, h, depth, path + [h], id);
    if r.Ok? {
      InputsSound(w, inputs, depth, path + [h], 0);
      var children := r.value.children;
      forall j | 0 <= j < |children|
        ensures children[j].hash == inputs[j] && Valid(w, children[j], depth + 1, path + [h])
      {
        assert inputs[0 + j] == inputs[j];
      }
    }
  }

  lemma {:induction false} InputsSound(w: World, inputs: seq<Hash>, depth: nat, path: seq<Hash>, from: nat)
    requires depth <= w.maxDepth && from <= |inputs|
    ensures var r := PlanInputs(w, inputs, depth, path, from);
            r.Ok? ==> forall j :: 0 <= j < |inputs| - from ==>
              r.value[j].hash == inputs[from + j] && Valid(w, r.value[j], depth + 1, path)
    decreases w.maxDepth + 1 - depth, 0, |inputs| - from
  {
    if from < |inputs| {
      PlanSound(w, inputs[from], depth + 1, path);
      InputsSound(w, inputs, depth, path, from + 1);
      InputsSplit(w, inputs, depth, path, from);
      hide PlanInputs, PlanBlob, Valid;
      var r, rest := PlanInputs(w, inputs, depth, path, from), PlanInputs(w, inputs, depth, path, from + 1);
      if r.Ok? {
        forall j | 0 <= j < |inputs| - from ensures r.value[j].hash == inputs[from + j] && Valid(w, r.value[j], depth + 1, path) {
          if j > 0 {
            assert r.value[j] == rest.value[j - 1] && inputs[from + j] == inputs[from + 1 + (j - 1)];
          }
        }
      }
    }
  }

  /** The first input's plan, then the others'. */
  lemma InputsSplit(w: World, inputs: seq<Hash>, depth: nat, path: seq<Hash>, from: nat)
    requires depth <= w.maxDepth && from < |inputs|
    ensures var r := PlanInputs(w, inputs, depth, path, from);
            var (first, rest) := (PlanBlob(w, inputs[from], depth + 1, path), PlanInputs(w, inputs, depth, path, from + 1));
            r.Ok? ==> first.Ok? && rest.Ok? && r.value == [first.value] + rest.value && |rest.value| == |inputs| - from - 1
  {
    hide PlanBlob;
  }

  /** What a runnable plan produces is within the depth it has left. */
  lemma {:induction false} ValidIsWithin(w: World, p: Plan, depth: nat, path: seq<Hash>)
    requires Valid(w, p, depth, path)
    ensures p.hash in w.Within(w.maxDepth - depth)
    decreases p
  {
    ValidDepth(w, p, depth, path);
    if p.Op? && p.children != [] {
      ValidOp(w, p, depth, path);
      hide Valid, Reach, Round;
      var k: nat := w.maxDepth - depth - 1;
      forall x | x in w.recipes[p.recipe].inputs ensures x in w.Within(k) {
        var j :| 0 <= j < |w.recipes[p.recipe].inputs| && w.recipes[p.recipe].inputs[j] == x;
        ValidIsWithin(w, p.children[j], depth + 1, path + [p.hash]);
      }
      OneRuleMore(w, p.recipe, p.hash, k);
    } else {
      ReachGrows(w.recipes, w.Usable(), w.Leaves(), 0, w.maxDepth - depth);
      if p.Op? {
        var c :| c in w.recipes[p.recipe].outputs && c.hash == p.hash;
        assert c.hash in w.Leaves();
      }
    }
  }

  lemma ValidDepth(w: World, p: Plan, depth: nat, path: seq<Hash>)
    requires Valid(w, p, depth, path)
    ensures depth <= w.maxDepth
  {
  }

  /** The children of a runnable plan run one level down. */
  lemma ValidOp(w: World, p: Plan, depth: nat, path: seq<Hash>)
    requires Valid(w, p, depth, path) && p.Op? && p.children != []
    ensures depth < w.maxDepth && p.recipe in w.Usable() && p.recipe < |w.recipes| && w.recipes[p.recipe].Claims(p.hash)
    ensures |p.children| == |w.recipes[p.recipe].inputs|
    ensures forall j :: 0 <= j < |p.children| ==>
              p.children[j].hash == w.recipes[p.recipe].inputs[j] && Valid(w, p.children[j], depth + 1, path + [p.hash])
  {
    assert Valid(w, p.children[0], depth + 1, path + [p.hash]);
  }

  lemma OneRuleMore(w: World, id: RecipeId, h: Hash, k: nat)
    requires id in w.Usable() && id < |w.recipes| && w.recipes[id].Claims(h) && forall x :: x in w.recipes[id].inputs ==> x in w.Within(k)
    ensures h in w.Within(k + 1)
  {
    hide Round;
    RoundHas(w.recipes, w.Usable(), w.Within(k), id, h);
  }

  // ---- Completeness ----

  /** No blob on the path is within `k`: nothing the search still needs is cut. */
  ghost predicate Unblocked(w: World, path: seq<Hash>, k: nat) {
    forall v :: v in path ==> v !in w.Within(k)
  }

  /**
   The search is complete despite the cycle cut and despite failed earlier
   routes: a blob within `k` rounds plans whenever `k` levels of depth are left
   and no blob of the same or lower rank is being visited.
   */
  lemma {:induction false} PlanComplete(w: World, h: Hash, k: nat, depth: nat, path: seq<Hash>)
    requires w.Indexed()
    requires h in w.Within(k) && depth + k <= w.maxDepth && Unblocked(w, path, k)
    ensures PlanBlob(w, h, depth, path).Ok?
    decreases k, 2, 0
  {
    if h !in w.stored {
      if k > 0 && h in w.Within(k - 1) {
        ReachGrows(w.recipes, w.Usable(), w.Leaves(), k - 1, k);
        PlanComplete(w, h, k - 1, depth, path);
      } else {
        var id := FiringRule(w, h, k);
        RuleComplete(w, h, id, k, depth, path + [h]);
        RoutesComplete(w, h, id, depth, path + [h], 0, NoRoute(h));
      }
    }
  }

  /** The rule that first reaches `h`, all of whose inputs are of lower rank. */
  lemma FiringRule(w: World, h: Hash, k: nat) returns (id: RecipeId)
    requires w.Indexed()
    requires h in w.Within(k) && h !in w.stored && (k > 0 ==> h !in w.Within(k - 1))
    ensures id in w.Usable() && w.recipes[id].Claims(h) && h in w.blobs
    ensures w.recipes[id].inputs == [] || (k > 0 && w.recipes[id].InputsIn(w.Within(k - 1)))
  {
    if k == 0 {
      var i, c :| i in w.Usable() && w.recipes[i].inputs == [] && c in w.recipes[i].outputs && c.hash == h;
      id := i;
    } else {
      id := RoundWitness(w.recipes, w.Usable(), w.Within(k - 1), h);
    }
  }

  lemma {:induction false} RuleComplete(w: World, h: Hash, id: RecipeId, k: nat, depth: nat, path: seq<Hash>)
    requires w.Indexed() && id in w.Usable() && depth + k <= w.maxDepth
    requires w.recipes[id].inputs == [] || (k > 0 && w.recipes[id].InputsIn(w.Within(k - 1)) && Unblocked(w, path, k - 1))
    ensures PlanRecipe(w, h, depth, path, id).Ok?
    decreases k, 1, 0
  {
    if w.recipes[id].inputs != [] {
      InputsComplete(w, w.recipes[id].inputs, k, depth, path, 0);
    }
  }

  lemma {:induction false} InputsComplete(w: World, inputs: seq<Hash>, k: nat, depth: nat, path: seq<Hash>, from: nat)
    requires w.Indexed() && 0 < k && depth + k <= w.maxDepth && from <= |inputs|
    requires forall x :: x in inputs ==> x in w.Within(k - 1)
    requires Unblocked(w, path, k - 1)
    ensures PlanInputs(w, inputs, depth, path, from).Ok?
    decreases k, 0, |inputs| - from
  {
    if from < |inputs| {
      assert inputs[from] in inputs;
      PlanComplete(w, inputs[from], k - 1, depth + 1, path);
      InputsComplete(w, inputs, k, depth, path, from + 1);
    }
  }

  lemma {:induction false} RoutesComplete(w: World, h: Hash, id: RecipeId, depth: nat, path: seq<Hash>, from: nat, last: PlanError)
    requires depth <= w.maxDepth && from <= id && id in w.Usable() && w.recipes[id].Claims(h)
    requires PlanRecipe(w, h, depth, path, id).Ok?
    ensures PlanRoutes(w, h, depth, path, from, last).Ok?
    decreases id - from
  {
    if from < id {
      if w.recipes[from].Claims(h) && w.recipes[from].verify != Failed {
        match PlanRecipe(w, h, depth, path, from)
        case Ok(_) =>
        case Err(e) => RoutesComplete(w, h, id, depth, path, from + 1, e);
      } else {
        RoutesComplete(w, h, id, depth, path, from + 1, last);
      }
    }
  }

  /** The plannable blobs are exactly those within the depth limit of a leaf. */
  lemma PlanExact(w: World, h: Hash)
    requires w.Indexed()
    ensures PlanBlob(w, h, 0, []).Ok? <==> h in w.Within(w.maxDepth)
  {
    if PlanBlob(w, h, 0, []).Ok? {
      PlanSound(w, h, 0, []);
      ValidIsWithin(w, PlanBlob(w, h, 0, []).value, 0, []);
    }
    if h in w.Within(w.maxDepth) {
      PlanComplete(w, h, w.maxDepth, 0, []);
    }
  }

  /** A blob grounded by usable recipes in stored bytes plans, unless the chain outgrows the depth limit. */
  lemma GroundedPlans(w: World, h: Hash, rules: set<RecipeId>, seed: set<Hash>, k: nat)
    requires w.Indexed() && rules <= w.Usable() && seed <= w.stored
    requires h in Reach(w.recipes, rules, seed, k) && k <= w.maxDepth
    ensures PlanBlob(w, h, 0, []).Ok?
  {
    ReachMonotone(w.recipes, rules, seed, w.Usable(), w.Leaves(), k);
    ReachGrows(w.recipes, w.Usable(), w.Leaves(), k, w.maxDepth);
    PlanExact(w, h);
  }

  /** The recipes that run inside a plan, top down. */
  function PlanRecipes(p: Plan): set<RecipeId> {
    match p
    case Literal(_) => {}
    case Op(_, id, children) => {id} + PlansRecipes(children)
  }

  function PlansRecipes(ps: seq<Plan>): set<RecipeId> {
    if ps == [] then {} else PlanRecipes(ps[0]) + PlansRecipes(ps[1..])
  }

  /** A recipe runs somewhere in a plan. */
  predicate RunsIn(p: Plan, i: RecipeId)
    decreases p
  {
    p.Op? && (p.recipe == i || exists k :: 0 <= k < |p.children| && RunsIn(p.children[k], i))
  }

  lemma {:induction false} RecipesRun(p: Plan, i: RecipeId)
    ensures i in PlanRecipes(p) <==> RunsIn(p, i)
    decreases p
  {
    if p.Op? {
      forall k | 0 <= k < |p.children| ensures i in PlanRecipes(p.children[k]) <==> RunsIn(p.children[k], i) {
        RecipesRun(p.children[k], i);
      }
      hide PlanRecipes;
      SomeRuns(p.children, i);
      assert PlanRecipes(p) == {p.recipe} + PlansRecipes(p.children) by {
        OpRecipes(p);
      }
    }
  }

  lemma OpRecipes(p: Plan)
    requires p.Op?
    ensures PlanRecipes(p) == {p.recipe} + PlansRecipes(p.children)
  {
  }

  lemma {:induction false} SomeRuns(ps: seq<Plan>, i: RecipeId)
    ensures i in PlansRecipes(ps) <==> exists k :: 0 <= k < |ps| && i in PlanRecipes(ps[k])
  {
    hide PlanRecipes;
    if ps != [] {
      SomeRuns(ps[1..], i);
      if i in PlansRecipes(ps) && i !in PlanRecipes(ps[0]) {
        var k :| 0 <= k < |ps[1..]| && i in PlanRecipes(ps[1..][k]);
        assert ps[k + 1] == ps[1..][k];
      }
      if exists k :: 0 < k < |ps| && i in PlanRecipes(ps[k]) {
        var k :| 0 < k < |ps| && i in PlanRecipes(ps[k]);
        assert ps[1..][k - 1] == ps[k];
      }
    }
  }

  // ---- Which route, and which error ----

  /** A route that is looked at for `h`. */
  predicate Tries(w: World, h: Hash, i: RecipeId) {
    i < |w.recipes| && w.recipes[i].Claims(h) && w.recipes[i].verify != Failed
  }

  /** From the route `from` on, `i` is the first that plans. */
  ghost predicate FirstToPlan(w: World, h: Hash, depth: nat, path: seq<Hash>, from: nat, i: RecipeId, p: Plan)
    requires depth <= w.maxDepth
  {
    && from <= i && Tries(w, h, i) && PlanRecipe(w, h, depth, path, i) == Ok(p)
    && forall j :: from <= j < i && Tries(w, h, j) ==> PlanRecipe(w, h, depth, path, j).Err?
  }

  /** From the route `from` on, none plans and `i` is the last looked at. */
  ghost predicate LastToFail(w: World, h: Hash, depth: nat, path: seq<Hash>, from: nat, i: RecipeId, e: PlanError)
    requires depth <= w.maxDepth
  {
    && from <= i && Tries(w, h, i) && PlanRecipe(w, h, depth, path, i) == Err(e)
    && (forall j :: from <= j && Tries(w, h, j) ==> j <= i && PlanRecipe(w, h, depth, path, j).Err?)
  }

  ghost predicate NoneTried(w: World, h: Hash, from: nat) {
    forall j :: from <= j ==> !Tries(w, h, j)
  }

  lemma {:induction false} RoutesFrom(w: World, h: Hash, depth: nat, path: seq<Hash>, from: nat, last: PlanError)
    requires depth <= w.maxDepth && from <= |w.recipes|
    ensures var r := PlanRoutes(w, h, depth, path, from, last);
      match r
      case Ok(p) => exists i :: FirstToPlan(w, h, depth, path, from, i, p)
      case Err(e) => (NoneTried(w, h, from) && e == last) || exists i :: LastToFail(w, h, depth, path, from, i, e)
    decreases |w.recipes| - from
  {
    if from < |w.recipes| {
      RoutesStep(w, h, depth, path, from, last);
      hide PlanRoutes, PlanRecipe, Tries;
      if !Tries(w, h, from) {
        RoutesFrom(w, h, depth, path, from + 1, last);
        RoutesWiden(w, h, depth, path, from);
        var r := PlanRoutes(w, h, depth, path, from + 1, last);
        assert PlanRoutes(w, h, depth, path, from, last) == r;
        if r.Ok? {
          var i :| FirstToPlan(w, h, depth, path, from + 1, i, r.value);
          assert FirstToPlan(w, h, depth, path, from, i, r.value);
        } else if !NoneTried(w, h, from + 1) || r.error != last {
          var i :| LastToFail(w, h, depth, path, from + 1, i, r.error);
          assert LastToFail(w, h, depth, path, from, i, r.error);
        }
      } else {
        var first := PlanRecipe(w, h, depth, path, from);
        if first.Ok? {
          assert FirstToPlan(w, h, depth, path, from, from, first.value);
        } else {
          RoutesFrom(w, h, depth, path, from + 1, first.error);
          RoutesWiden(w, h, depth, path, from);
          var r := PlanRoutes(w, h, depth, path, from + 1, first.error);
          assert PlanRoutes(w, h, depth, path, from, last) == r;
          if r.Ok? {
            var i :| FirstToPlan(w, h, depth, path, from + 1, i, r.value);
            assert FirstToPlan(w, h, depth, path, from, i, r.value);
          } else if NoneTried(w, h, from + 1) && r.error == first.error {
            assert LastToFail(w, h, depth, path, from, from, r.error);
          } else {
            var i :| LastToFail(w, h, depth, path, from + 1, i, r.error);
            assert LastToFail(w, h, depth, path, from, i, r.error);
          }
        }
      }
    }
  }

  lemma RoutesStep(w: World, h: Hash, depth: nat, path: seq<Hash>, from: nat, last: PlanError)
    requires depth <= w.maxDepth && from < |w.recipes|
    ensures var first := PlanRecipe(w, h, depth, path, from);
      PlanRoutes(w, h, depth, path, from, last) ==
        if !Tries(w, h, from) then PlanRoutes(w, h, depth, path, from + 1, last)
        else if first.Ok? then first else PlanRoutes(w, h, depth, path, from + 1, first.error)
  {
    hide PlanRecipe;
  }

  /** Looking at one route more, which does not plan. */
  lemma RoutesWiden(w: World, h: Hash, depth: nat, path: seq<Hash>, from: nat)
    requires depth <= w.maxDepth && from < |w.recipes| && (Tries(w, h, from) ==> PlanRecipe(w, h, depth, path, from).Err?)
    ensures forall i, p :: FirstToPlan(w, h, depth, path, from + 1, i, p) ==> FirstToPlan(w, h, depth, path, from, i, p)
    ensures forall i, e :: LastToFail(w, h, depth, path, from + 1, i, e) ==> LastToFail(w, h, depth, path, from, i, e)
    ensures !Tries(w, h, from) && NoneTried(w, h, from + 1) ==> NoneTried(w, h, from)
  {
    hide PlanRecipe, Tries;
  }

  /**
   What planning answers, case by case: too deep, a cycle, a stored literal, a blob not
   indexed; otherwise the first route in table order that plans, or the error of the
   last one looked at, or that there is none.
   */
  lemma PlanChooses(w: World, h: Hash, depth: nat, path: seq<Hash>)
    requires depth <= w.maxDepth + 1
    ensures var r := PlanBlob(w, h, depth, path);
      && (depth > w.maxDepth ==> r == Err(Depth))
      && (depth <= w.maxDepth && h in path ==> r == Err(Cycle(h)))
      && (depth <= w.maxDepth && h !in path && h in w.stored ==> r == Ok(Literal(h)))
      && (depth <= w.maxDepth && h !in path && h !in w.stored && h !in w.blobs ==> r == Err(NoRoute(h)))
      && (depth <= w.maxDepth && h !in path && h !in w.stored && h in w.blobs ==>
            match r
            case Ok(p) => exists i :: FirstToPlan(w, h, depth, path + [h], 0, i, p)
            case Err(e) => (NoneTried(w, h, 0) && e == NoRoute(h)) || exists i :: LastToFail(w, h, depth, path + [h], 0, i, e))
  {
    if depth <= w.maxDepth {
      RoutesFrom(w, h, depth, path + [h], 0, NoRoute(h));
    }
    hide PlanRoutes, PlanRecipe, Tries, FirstToPlan, LastToFail, NoneTried;
  }

  /** A recipe plans when its op resolves and each input plans one level down; the first thing that does not is the error. */
  lemma {:induction false} InputsChoose(w: World, inputs: seq<Hash>, depth: nat, path: seq<Hash>, from: nat)
    requires depth <= w.maxDepth && from <= |inputs|
    ensures match PlanInputs(w, inputs, depth, path, from)
      case Ok(children) =>
        |children| == |inputs| - from && forall k :: 0 <= k < |children| ==> PlanBlob(w, inputs[from + k], depth + 1, path) == Ok(children[k])
      case Err(e) => exists k :: FirstBad(w, inputs, depth, path, from, k, e)
    decreases |inputs| - from
  {
    if from < |inputs| {
      InputsChoose(w, inputs, depth, path, from + 1);
      InputsUnfold(w, inputs, depth, path, from);
      hide PlanInputs, PlanBlob;
      var first, rest := PlanBlob(w, inputs[from], depth + 1, path), PlanInputs(w, inputs, depth, path, from + 1);
      if first.Err? {
        assert FirstBad(w, inputs, depth, path, from, from, first.error);
      } else if rest.Err? {
        var k :| FirstBad(w, inputs, depth, path, from + 1, k, rest.error);
        assert FirstBad(w, inputs, depth, path, from, k, rest.error);
      } else {
        var children := [first.value] + rest.value;
        forall k | 0 <= k < |children| ensures PlanBlob(w, inputs[from + k], depth + 1, path) == Ok(children[k]) {
          if k > 0 {
            assert inputs[from + k] == inputs[from + 1 + (k - 1)] && children[k] == rest.value[k - 1];
          }
        }
      }
    }
  }

  ghost predicate FirstBad(w: World, inputs: seq<Hash>, depth: nat, path: seq<Hash>, from: nat, k: nat, e: PlanError)
    requires depth <= w.maxDepth
  {
    from <= k < |inputs| && PlanBlob(w, inputs[k], depth + 1, path) == Err(e) && forall j :: from <= j < k ==> PlanBlob(w, inputs[j], depth + 1, path).Ok?
  }

  lemma InputsUnfold(w: World, inputs: seq<Hash>, depth: nat, path: seq<Hash>, from: nat)
    requires depth <= w.maxDepth && from < |inputs|
    ensures var (first, rest) := (PlanBlob(w, inputs[from], depth + 1, path), PlanInputs(w, inputs, depth, path, from + 1));
      PlanInputs(w, inputs, depth, path, from) ==
        if first.Err? then Err(first.error) else if rest.Err? then Err(rest.error) else Ok([first.value] + rest.value)
  {
    hide PlanBlob;
  }

  lemma RecipeChooses(w: World, h: Hash, depth: nat, path: seq<Hash>, id: RecipeId)
    requires depth <= w.maxDepth && id < |w.recipes|
    ensures var (row, r) := (w.recipes[id], PlanRecipe(w, h, depth, path, id));
      if row.component.Some? && row.component.value !in w.loadable then r == Err(NoRoute(row.component.value))
      else match r
           case Ok(p) => p.Op? && p.hash == h && p.recipe == id && |p.children| == |row.inputs|
                         && forall k :: 0 <= k < |row.inputs| ==> PlanBlob(w, row.inputs[k], depth + 1, path) == Ok(p.children[k])
           case Err(e) => exists k :: FirstBad(w, row.inputs, depth, path, 0, k, e)
  {
    InputsChoose(w, w.recipes[id].inputs, depth, path, 0);
    hide PlanInputs, PlanBlob, FirstBad;
  }

  /** A recipe runs inside another's inputs when that one is executed. */
  ghost predicate RunsInside(w: World, id: RecipeId, i: RecipeId)
    requires id < |w.recipes|
  {
    exists k :: 0 <= k < |w.recipes[id].inputs| && RunsInInput(w, w.recipes[id].inputs[k], i)
  }

  ghost predicate RunsInInput(w: World, x: Hash, i: RecipeId) {
    PlanBlob(w, x, 1, []).Ok? && RunsIn(PlanBlob(w, x, 1, []).value, i)
  }

  /** Those are the recipes of the children's plans. */
  lemma InsideExactly(w: World, id: RecipeId, i: RecipeId)
    requires id < |w.recipes| && PlanRecipe(w, 0, 0, [], id).Ok?
    ensures PlanRecipe(w, 0, 0, [], id).value.Op?
    ensures i in PlansRecipes(PlanRecipe(w, 0, 0, [], id).value.children) <==> RunsInside(w, id, i)
  {
    RecipeChooses(w, 0, 0, [], id);
    hide PlanRecipe, PlanBlob, PlanRecipes, PlansRecipes, RunsIn;
    var (inputs, children) := (w.recipes[id].inputs, PlanRecipe(w, 0, 0, [], id).value.children);
    SomeRuns(children, i);
    forall k | 0 <= k < |children| ensures i in PlanRecipes(children[k]) <==> RunsInInput(w, inputs[k], i) {
      RecipesRun(children[k], i);
    }
    if i in PlansRecipes(children) {
      var k :| 0 <= k < |children| && i in PlanRecipes(children[k]);
      assert RunsInInput(w, inputs[k], i);
    }
  }
}
