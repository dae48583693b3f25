/**
 The recipe index: blob rows, recipe rows, and the grounding fixpoint of
 `datboi-index` (D21). A blob is grounded when it can be rebuilt from retained
 literals by recipes that are allowed to fire.

 A recipe id is an index into the recipe table, so the table order is the
 `ORDER BY recipe_id` of every route query.
 */
module Grounding {
  import opened Wrappers

  /** A content hash. Only its identity matters here. */
  type Hash = nat
  type RecipeId = nat

  datatype Residency = Resident | EvictedCovered | Absent

  datatype VerifyState = Pending | Verified | ReplayedLocal | Failed

  datatype BlobRow = BlobRow(size: Option<nat>, residency: Residency)

  datatype Claim = Claim(hash: Hash, size: nat)

  /** `component` is the wasm component an op runs in, absent for builtins. */
  datatype Recipe = Recipe(verify: VerifyState, component: Option<Hash>, inputs: seq<Hash>, outputs: seq<Claim>) {
    predicate Claims(h: Hash) {
      exists c :: c in outputs && c.hash == h
    }

    predicate InputsIn(s: set<Hash>) {
      forall h :: h in inputs ==> h in s
    }
  }

  type Recipes = seq<Recipe>

  // ---- The fixpoint ----

  /** One set-based round: the outputs of every rule whose inputs are all in `s`. */
  function Round(rs: Recipes, rules: set<RecipeId>, s: set<Hash>): set<Hash> {
    s + set i, c | i in rules && i < |rs| && rs[i].InputsIn(s) && c in rs[i].outputs :: c.hash
  }

  /** What `k` rounds reach from the seed. */
  function Reach(rs: Recipes, rules: set<RecipeId>, seed: set<Hash>, k: nat): set<Hash> {
    if k == 0 then seed else Round(rs, rules, Reach(rs, rules, seed, k - 1))
  }

  ghost predicate Grounded(rs: Recipes, rules: set<RecipeId>, seed: set<Hash>, h: Hash) {
    exists k: nat :: h in Reach(rs, rules, seed, k)
  }

  /** `s` is closed under the rules: a rule with all inputs in `s` adds nothing. */
  ghost predicate Closed(rs: Recipes, rules: set<RecipeId>, s: set<Hash>) {
    forall i, c :: i in rules && i < |rs| && rs[i].InputsIn(s) && c in rs[i].outputs ==> c.hash in s
  }

  lemma RoundHas(rs: Recipes, rules: set<RecipeId>, s: set<Hash>, i: RecipeId, h: Hash)
    requires i in rules && i < |rs| && rs[i].InputsIn(s) && rs[i].Claims(h)
    ensures h in Round(rs, rules, s)
  {
    var c :| c in rs[i].outputs && c.hash == h;
    assert c.hash in Round(rs, rules, s);
  }

  lemma RoundWitness(rs: Recipes, rules: set<RecipeId>, s: set<Hash>, h: Hash) returns (i: RecipeId)
    requires h in Round(rs, rules, s) && h !in s
    ensures i in rules && i < |rs| && rs[i].InputsIn(s) && rs[i].Claims(h)
  {
    var j, c :| j in rules && j < |rs| && rs[j].InputsIn(s) && c in rs[j].outputs && c.hash == h;
    i := j;
  }

  lemma {:induction false} ReachGrows(rs: Recipes, rules: set<RecipeId>, seed: set<Hash>, j: nat, k: nat)
    requires j <= k
    ensures Reach(rs, rules, seed, j) <= Reach(rs, rules, seed, k)
  {
    hide Round;
    if j < k {
      ReachStep(rs, rules, seed, k - 1);
      hide Reach;
      ReachGrows(rs, rules, seed, j, k - 1);
      RoundGrows(rs, rules, Reach(rs, rules, seed, k - 1));
    }
  }

  lemma ReachStep(rs: Recipes, rules: set<RecipeId>, seed: set<Hash>, k: nat)
    ensures Reach(rs, rules, seed, k + 1) == Round(rs, rules, Reach(rs, rules, seed, k))
  {
    hide Round;
  }

  lemma RoundGrows(rs: Recipes, rules: set<RecipeId>, s: set<Hash>)
    ensures s <= Round(rs, rules, s)
  {
  }

  /** More rules and more literals never unground anything, round by round. */
  lemma {:induction false} ReachMonotone(rs: Recipes, rules: set<RecipeId>, seed: set<Hash>,
                                         rules': set<RecipeId>, seed': set<Hash>, k: nat)
    requires rules <= rules' && seed <= seed'
    ensures Reach(rs, rules, seed, k) <= Reach(rs, rules', seed', k)
  {
    hide Round;
    if k > 0 {
      ReachStep(rs, rules, seed, k - 1);
      ReachStep(rs, rules', seed', k - 1);
      hide Reach;
      ReachMonotone(rs, rules, seed, rules', seed', k - 1);
      RoundMonotone(rs, rules, Reach(rs, rules, seed, k - 1), rules', Reach(rs, rules', seed', k - 1));
    }
  }

  lemma RoundMonotone(rs: Recipes, rules: set<RecipeId>, s: set<Hash>, rules': set<RecipeId>, s': set<Hash>)
    requires rules <= rules' && s <= s'
    ensures Round(rs, rules, s) <= Round(rs, rules', s')
  {
    RoundGrows(rs, rules', s');
    hide Round;
    forall h | h in Round(rs, rules, s) ensures h in Round(rs, rules', s') {
      if h !in s {
        var i := RoundWitness(rs, rules, s, h);
        RoundHas(rs, rules', s', i, h);
      }
    }
  }

  /** The grounded set is contained in every closed superset of the seed. */
  lemma {:induction false} ReachLeast(rs: Recipes, rules: set<RecipeId>, seed: set<Hash>, t: set<Hash>, k: nat)
    requires seed <= t && Closed(rs, rules, t)
    ensures Reach(rs, rules, seed, k) <= t
  {
    if k > 0 {
      ReachLeast(rs, rules, seed, t, k - 1);
      var s := Reach(rs, rules, seed, k - 1);
      forall h | h in Round(rs, rules, s) ensures h in t {
        if h !in s {
          var i := RoundWitness(rs, rules, s, h);
        }
      }
    }
  }

  /** Finitely many grounded inputs are all grounded within one common round. */
  lemma {:induction false} CommonRound(rs: Recipes, rules: set<RecipeId>, seed: set<Hash>, inputs: seq<Hash>) returns (k: nat)
    requires forall h :: h in inputs ==> Grounded(rs, rules, seed, h)
    ensures forall h :: h in inputs ==> h in Reach(rs, rules, seed, k)
  {
    if inputs == [] {
      k := 0;
    } else {
      assert inputs[0] in inputs;
      var a: nat :| inputs[0] in Reach(rs, rules, seed, a);
      var b := CommonRound(rs, rules, seed, inputs[1..]);
      k := if a < b then b else a;
      ReachGrows(rs, rules, seed, a, k);
      ReachGrows(rs, rules, seed, b, k);
    }
  }

  /** Grounding is closed: a rule with grounded inputs grounds its outputs. */
  lemma GroundedStep(rs: Recipes, rules: set<RecipeId>, seed: set<Hash>, i: RecipeId, h: Hash)
    requires i in rules && i < |rs| && rs[i].Claims(h)
    requires forall x :: x in rs[i].inputs ==> Grounded(rs, rules, seed, x)
    ensures Grounded(rs, rules, seed, h)
  {
    var k := CommonRound(rs, rules, seed, rs[i].inputs);
    RoundHas(rs, rules, Reach(rs, rules, seed, k), i, h);
    assert h in Reach(rs, rules, seed, k + 1);
  }

  lemma GroundedMonotone(rs: Recipes, rules: set<RecipeId>, seed: set<Hash>,
                         rules': set<RecipeId>, seed': set<Hash>, h: Hash)
    requires rules <= rules' && seed <= seed'
    requires Grounded(rs, rules, seed, h)
    ensures Grounded(rs, rules', seed', h)
  {
    var k: nat :| h in Reach(rs, rules, seed, k);
    ReachMonotone(rs, rules, seed, rules', seed', k);
  }

  /** Seeding with blobs that are grounded already grounds nothing new. */
  lemma {:induction false} GroundedSeed(rs: Recipes, rules: set<RecipeId>, seed: set<Hash>, extra: set<Hash>, h: Hash)
    requires forall x :: x in extra ==> Grounded(rs, rules, seed, x)
    requires Grounded(rs, rules, seed + extra, h)
    ensures Grounded(rs, rules, seed, h)
  {
    var k: nat :| h in Reach(rs, rules, seed + extra, k);
    GroundedSeedRound(rs, rules, seed, extra, k, h);
  }

  lemma {:induction false} GroundedSeedRound(rs: Recipes, rules: set<RecipeId>, seed: set<Hash>, extra: set<Hash>, k: nat, h: Hash)
    requires forall x :: x in extra ==> Grounded(rs, rules, seed, x)
    requires h in Reach(rs, rules, seed + extra, k)
    ensures Grounded(rs, rules, seed, h)
    decreases k
  {
    hide Round;
    if k == 0 {
      if h in seed {
        assert h in Reach(rs, rules, seed, 0);
      }
    } else {
      var s := Reach(rs, rules, seed + extra, k - 1);
      ReachStep(rs, rules, seed + extra, k - 1);
      hide Reach, Grounded;
      if h in s {
        GroundedSeedRound(rs, rules, seed, extra, k - 1, h);
      } else {
        var i := RoundWitness(rs, rules, s, h);
        forall x | x in rs[i].inputs ensures Grounded(rs, rules, seed, x) {
          GroundedSeedRound(rs, rules, seed, extra, k - 1, x);
        }
        GroundedStep(rs, rules, seed, i, h);
      }
    }
  }

  /**
   The drop-safety counterfactual: when `x` stays grounded without its own
   literal, dropping that literal changes nothing about what is grounded, so
   mutually inverse recipes can never justify dropping both ends.
   */
  lemma DropKeepsGrounded(rs: Recipes, rules: set<RecipeId>, seed: set<Hash>, x: Hash)
    requires Grounded(rs, rules, seed - {x}, x)
    ensures forall h :: Grounded(rs, rules, seed, h) <==> Grounded(rs, rules, seed - {x}, h)
  {
    forall h ensures Grounded(rs, rules, seed, h) <==> Grounded(rs, rules, seed - {x}, h) {
      if Grounded(rs, rules, seed, h) {
        GroundedMonotone(rs, rules, seed, rules, (seed - {x}) + {x}, h);
        GroundedSeed(rs, rules, seed - {x}, {x}, h);
      }
      if Grounded(rs, rules, seed - {x}, h) {
        GroundedMonotone(rs, rules, seed - {x}, rules, seed, h);
      }
    }
  }

  /** Same inputs, claims and components: only verify states may differ. */
  ghost predicate SameGraph(rs: Recipes, rs': Recipes) {
    && |rs| == |rs'|
    && forall i :: 0 <= i < |rs| ==>
         rs[i].inputs == rs'[i].inputs && rs[i].outputs == rs'[i].outputs && rs[i].component == rs'[i].component
  }

  lemma {:induction false} ReachSameGraph(rs: Recipes, rs': Recipes, rules: set<RecipeId>, seed: set<Hash>, k: nat)
    requires SameGraph(rs, rs')
    ensures Reach(rs, rules, seed, k) == Reach(rs', rules, seed, k)
  {
    hide Round, SameGraph;
    if k > 0 {
      ReachStep(rs, rules, seed, k - 1);
      ReachStep(rs', rules, seed, k - 1);
      hide Reach;
      ReachSameGraph(rs, rs', rules, seed, k - 1);
      RoundsSame(rs, rs', rules, Reach(rs, rules, seed, k - 1));
    }
  }

  lemma RoundsSame(rs: Recipes, rs': Recipes, rules: set<RecipeId>, s: set<Hash>)
    requires SameGraph(rs, rs')
    ensures Round(rs, rules, s) == Round(rs', rules, s)
  {
    assert SameGraph(rs', rs);
    hide Round, SameGraph;
    RoundSameGraph(rs, rs', rules, s);
    RoundSameGraph(rs', rs, rules, s);
  }

  lemma RoundSameGraph(rs: Recipes, rs': Recipes, rules: set<RecipeId>, s: set<Hash>)
    requires SameGraph(rs, rs')
    ensures Round(rs, rules, s) <= Round(rs', rules, s)
  {
    forall h | h in Round(rs, rules, s) ensures h in Round(rs', rules, s) {
      if h !in s {
        var i := RoundWitness(rs, rules, s, h);
        assert rs'[i].Claims(h);
        RoundHas(rs', rules, s, i, h);
      }
    }
  }

  lemma GroundedSameGraph(rs: Recipes, rs': Recipes, rules: set<RecipeId>, seed: set<Hash>, h: Hash)
    requires SameGraph(rs, rs') && Grounded(rs, rules, seed, h)
    ensures Grounded(rs', rules, seed, h)
  {
    var k: nat :| h in Reach(rs, rules, seed, k);
    ReachSameGraph(rs, rs', rules, seed, k);
  }

  // ---- Rank: how many rounds suffice ----

  /** The rules that have fired by round `k`. */
  function Fired(rs: Recipes, rules: set<RecipeId>, seed: set<Hash>, k: nat): set<RecipeId> {
    set i | i in rules && i < |rs| && rs[i].InputsIn(Reach(rs, rules, seed, k))
  }

  /** A round that fires no new rule is the last one. */
  lemma StalledRound(rs: Recipes, rules: set<RecipeId>, seed: set<Hash>, k: nat)
    requires Fired(rs, rules, seed, k) == Fired(rs, rules, seed, k + 1)
    ensures Reach(rs, rules, seed, k + 1) == Reach(rs, rules, seed, k + 2)
  {
    var s := Reach(rs, rules, seed, k);
    var s1 := Reach(rs, rules, seed, k + 1);
    forall i, c | i in rules && i < |rs| && rs[i].InputsIn(s1) && c in rs[i].outputs ensures c.hash in s1 {
      assert i in Fired(rs, rules, seed, k + 1);
      RoundHas(rs, rules, s, i, c.hash);
    }
    assert Round(rs, rules, s1) == s1;
  }

  lemma {:induction false} StallsForever(rs: Recipes, rules: set<RecipeId>, seed: set<Hash>, j: nat, k: nat)
    requires j <= k && Reach(rs, rules, seed, j) == Reach(rs, rules, seed, j + 1)
    ensures Reach(rs, rules, seed, k) == Reach(rs, rules, seed, j)
  {
    hide Reach, Round;
    if j < k {
      ReachStep(rs, rules, seed, k - 1);
      ReachStep(rs, rules, seed, j);
      StallsForever(rs, rules, seed, j, k - 1);
    }
  }

  /** While rounds still add blobs, each one fires a rule that had not fired. */
  lemma FiresNewRule(rs: Recipes, rules: set<RecipeId>, seed: set<Hash>, k: nat)
    requires Reach(rs, rules, seed, k + 1) != Reach(rs, rules, seed, k + 2)
    ensures Fired(rs, rules, seed, k) < Fired(rs, rules, seed, k + 1)
  {
    ReachGrows(rs, rules, seed, k, k + 1);
    if Fired(rs, rules, seed, k) == Fired(rs, rules, seed, k + 1) {
      StalledRound(rs, rules, seed, k);
    }
  }

  /** After `k` rounds either the fixpoint has stalled or more than `k` rules have fired. */
  lemma {:induction false} FiredGrows(rs: Recipes, rules: set<RecipeId>, seed: set<Hash>, k: nat)
    requires Reach(rs, rules, seed, k) != Reach(rs, rules, seed, k + 1)
    ensures |Fired(rs, rules, seed, k)| > k
  {
    hide Fired, Round;
    if k == 0 {
      FiresFirstRule(rs, rules, seed);
    } else {
      FiresNewRule(rs, rules, seed, k - 1);
      FiredGrows(rs, rules, seed, k - 1);
      SubsetSize(Fired(rs, rules, seed, k - 1), Fired(rs, rules, seed, k));
    }
  }

  lemma FiresFirstRule(rs: Recipes, rules: set<RecipeId>, seed: set<Hash>)
    requires seed != Round(rs, rules, seed)
    ensures |Fired(rs, rules, seed, 0)| > 0
  {
    var h :| h in Round(rs, rules, seed) && h !in seed;
    var i := RoundWitness(rs, rules, seed, h);
    assert i in Fired(rs, rules, seed, 0);
  }

  lemma {:induction false} SubsetSize<T>(a: set<T>, b: set<T>)
    requires a < b
    ensures |a| < |b|
  {
    assert b == a + (b - a);
    assert |b| == |a| + |b - a|;
  }

  lemma {:induction false} BelowSize(n: nat, s: set<nat>)
    requires forall i :: i in s ==> i < n
    ensures |s| <= n
  {
    if n > 0 {
      BelowSize(n - 1, s - {n - 1});
    } else {
      assert s == {};
    }
  }

  /** Every grounded blob is reached within as many rounds as there are recipes. */
  lemma RankBound(rs: Recipes, rules: set<RecipeId>, seed: set<Hash>, h: Hash)
    requires Grounded(rs, rules, seed, h)
    ensures h in Reach(rs, rules, seed, |rs|)
  {
    var n := |rs|;
    if Reach(rs, rules, seed, n) != Reach(rs, rules, seed, n + 1) {
      FiredGrows(rs, rules, seed, n);
      BelowSize(n, Fired(rs, rules, seed, n));
    }
    var k: nat :| h in Reach(rs, rules, seed, k);
    if k <= n {
      ReachGrows(rs, rules, seed, k, n);
    } else {
      StallsForever(rs, rules, seed, n, k);
    }
  }

  // ---- The query ----

  /** Recipes that ground for drop safety (D25): replayed on this host. */
  function ReplayedRules(rs: Recipes): set<RecipeId> {
    set i | 0 <= i < |rs| && rs[i].verify.ReplayedLocal?
  }

  function ResidentBlobs(blobs: map<Hash, BlobRow>): set<Hash> {
    set h | h in blobs && blobs[h].residency.Resident?
  }

  /** Grounded for drop safety, in one index state. */
  ghost predicate Safe(blobs: map<Hash, BlobRow>, rs: Recipes, h: Hash) {
    Grounded(rs, ReplayedRules(rs), ResidentBlobs(blobs), h)
  }

  /** Drop safety only grows with more resident blobs and more replayed recipes. */
  lemma SafeMonotone(blobs: map<Hash, BlobRow>, rs: Recipes, blobs': map<Hash, BlobRow>, rs': Recipes, h: Hash)
    requires SameGraph(rs, rs') && ReplayedRules(rs) <= ReplayedRules(rs')
    requires ResidentBlobs(blobs) <= ResidentBlobs(blobs')
    requires Safe(blobs, rs, h)
    ensures Safe(blobs', rs', h)
  {
    GroundedSameGraph(rs, rs', ReplayedRules(rs), ResidentBlobs(blobs), h);
    GroundedMonotone(rs', ReplayedRules(rs), ResidentBlobs(blobs), ReplayedRules(rs'), ResidentBlobs(blobs'), h);
  }

  /** Drop safety survives the drop of a blob that is safe without its own literal. */
  lemma SafeAfterDrop(blobs: map<Hash, BlobRow>, rs: Recipes, x: Hash, row: BlobRow)
    requires x in blobs && row.residency != Resident
    requires Grounded(rs, ReplayedRules(rs), ResidentBlobs(blobs) - {x}, x)
    ensures forall h :: Safe(blobs, rs, h) <==> Safe(blobs[x := row], rs, h)
  {
    assert ResidentBlobs(blobs[x := row]) == ResidentBlobs(blobs) - {x};
    DropKeepsGrounded(rs, ReplayedRules(rs), ResidentBlobs(blobs), x);
  }

  /**
   The fixpoint loop: insert the outputs of every satisfied rule until a round
   adds nothing. It computes exactly the grounded set.
   */
  method GroundedSet(rs: Recipes, rules: set<RecipeId>, seed: set<Hash>) returns (grounded: set<Hash>)
    ensures forall h :: h in grounded <==> Grounded(rs, rules, seed, h)
    ensures Closed(rs, rules, grounded)
  {
    grounded := seed;
    ghost var k := 0;
    ghost var universe := seed + set i, c | i in rules && i < |rs| && c in rs[i].outputs :: c.hash;
    while true
      invariant grounded == Reach(rs, rules, seed, k)
      invariant grounded <= universe
      decreases universe - grounded
    {
      var next := Round(rs, rules, grounded);
      if next == grounded {
        break;
      }
      forall h | h in next ensures h in universe {
        if h !in grounded {
          var i := RoundWitness(rs, rules, grounded, h);
          var c :| c in rs[i].outputs && c.hash == h;
          assert c.hash in universe;
        }
      }
      grounded := next;
      k := k + 1;
    }
    forall h | Grounded(rs, rules, seed, h) ensures h in grounded {
      var j: nat :| h in Reach(rs, rules, seed, j);
      if j <= k {
        ReachGrows(rs, rules, seed, j, k);
      } else {
        StallsForever(rs, rules, seed, k, j);
      }
    }
    forall i, c | i in rules && i < |rs| && rs[i].InputsIn(grounded) && c in rs[i].outputs ensures c.hash in grounded {
      RoundHas(rs, rules, grounded, i, c.hash);
    }
  }

  /** Would `x` remain grounded if its literal were dropped? */
  method IsEvictable(blobs: map<Hash, BlobRow>, rs: Recipes, x: Hash) returns (ok: bool)
    ensures ok <==> Grounded(rs, ReplayedRules(rs), ResidentBlobs(blobs) - {x}, x)
  {
    var grounded := GroundedSet(rs, ReplayedRules(rs), ResidentBlobs(blobs) - {x});
    ok := x in grounded;
  }
}
