/**
 The executor's stateful half: planning with an explicit visiting stack, replay
 and licensing, eviction, and the piece swap. Running an operator is not part of
 the model; its outcome is a parameter (`Verdict`), so every result holds for
 whatever the operators do.
 */
module Exec {
  import opened Wrappers
  import opened Grounding
  import opened Planning
  import opened LeafWalk

  /**
   What executing a recipe came to: its claims hold, are disproved, or were not
   decided. Each output has its own consumer, so a run that fails may have handed
   some of several outputs to the store before.
   */
  datatype Verdict = Proved | Disproved(handed: set<Hash>) | Undecided(handed: set<Hash>)

  datatype ReplayError = Poisoned | NoPlan(error: PlanError) | ClaimFailure | Environment

  /** Reading a planned route: its bytes verify, disprove it, or could not be had. */
  datatype StreamVerdict = Streams | RouteDisproved | Unreadable

  datatype Blocked = NotResident | NotGrounded | NeedsReplay | PinnedByView | IsPacked

  datatype EvictOutcome = Evicted(bytesReclaimed: nat) | Refused(why: Blocked)

  datatype EvictReport = EvictReport(evicted: nat, bytesReclaimed: nat, blocked: seq<(Hash, Blocked)>, replays: nat)

  /** Image and view tags pin what they serve; other tags protect nothing. */
  datatype Tag = ImageTag(hash: Hash) | ViewTag(hash: Hash) | OtherTag(hash: Hash)

  /** A row of a pinned view snapshot; seek class 2 is opaque. */
  datatype SnapshotRow = SnapshotRow(hash: Hash, seek: nat)

  /** The path of the planner's depth-first search. */
  class Visiting {
    var stack: seq<Hash>

    constructor ()
      ensures stack == []
    {
      stack := [];
    }
  }

  // ---- Verify-state updates ----

  function SetVerify(rs: Recipes, id: RecipeId, to: VerifyState): Recipes
    requires id < |rs|
  {
    rs[id := rs[id].(verify := to)]
  }

  /** Success licenses the recipe itself and the Verified recipes that ran inside it. */
  function Licensed(rs: Recipes, id: RecipeId, participants: set<RecipeId>): (r: Recipes)
    requires id < |rs|
    ensures |r| == |rs|
  {
    seq(|rs|, i requires 0 <= i < |rs| =>
      if i == id || (i in participants && rs[i].verify == Verified) then rs[i].(verify := ReplayedLocal) else rs[i])
  }

  /** Publishing a recipe's outputs: each claim becomes resident at its claimed size. */
  function Published(blobs: map<Hash, BlobRow>, outs: seq<Claim>): map<Hash, BlobRow>
    decreases |outs|
  {
    if outs == [] then blobs else Published(blobs[outs[0].hash := BlobRow(Some(outs[0].size), Resident)], outs[1..])
  }

  /** `put_with_obao` of each output: an existing loose file is left alone. */
  function Stored(loose: map<Hash, nat>, outs: seq<Claim>): map<Hash, nat>
    decreases |outs|
  {
    if outs == [] then loose
    else Stored(if outs[0].hash in loose then loose else loose[outs[0].hash := outs[0].size], outs[1..])
  }

  /** The outputs a failing run leaves in the store: never the only one. */
  function Left(outs: seq<Claim>, handed: set<Hash>): (r: seq<Claim>)
    ensures Hashes(r) <= Hashes(outs)
    ensures forall c :: c in r <==> |outs| >= 2 && c in outs && c.hash in handed
  {
    if |outs| < 2 then [] else Handed(outs, handed)
  }

  function Handed(outs: seq<Claim>, handed: set<Hash>): (r: seq<Claim>)
    ensures forall c :: c in r <==> c in outs && c.hash in handed
  {
    if outs == [] then [] else (if outs[0].hash in handed then [outs[0]] else []) + Handed(outs[1..], handed)
  }

  function Hashes(outs: seq<Claim>): set<Hash> {
    set c | c in outs :: c.hash
  }

  function Members(pieces: seq<RebuildInput>): set<Hash> {
    set p | p in pieces :: p.hash
  }

  lemma {:induction false} PublishedGrows(blobs: map<Hash, BlobRow>, loose: map<Hash, nat>, outs: seq<Claim>)
    ensures ResidentBlobs(Published(blobs, outs)) == ResidentBlobs(blobs) + Hashes(outs)
    ensures Published(blobs, outs).Keys == blobs.Keys + Hashes(outs)
    ensures Stored(loose, outs).Keys == loose.Keys + Hashes(outs)
    decreases |outs|
  {
    if outs != [] {
      var c, rest := outs[0], outs[1..];
      var blobs' := blobs[c.hash := BlobRow(Some(c.size), Resident)];
      PublishedGrows(blobs', if c.hash in loose then loose else loose[c.hash := c.size], rest);
      assert outs == [c] + rest;
      assert Hashes(outs) == {c.hash} + Hashes(rest);
      assert ResidentBlobs(blobs') == ResidentBlobs(blobs) + {c.hash};
    } else {
      assert Hashes(outs) == {};
    }
  }

  /** What executing recipe `id` answers: it is poisoned, or does not plan, or the run's own verdict counts. */
  ghost function Answer(w: World, id: RecipeId, verdict: Verdict): Result<(), ReplayError>
    requires id < |w.recipes|
  {
    if w.recipes[id].verify == Failed then Err(Poisoned)
    else
      match PlanRecipe(w, 0, 0, [], id)
      case Err(e) => Err(NoPlan(e))
      case Ok(_) => if verdict.Proved? then Ok(()) else if verdict.Disproved? then Err(ClaimFailure) else Err(Environment)
  }

  /** The verify state of recipe `i` after `id` was executed and its outputs hashed to their claims. */
  ghost function ProvedState(w: World, id: RecipeId, i: RecipeId): VerifyState
    requires id < |w.recipes| && i < |w.recipes|
  {
    if i == id || (w.recipes[i].verify == Verified && RunsInside(w, id, i)) then ReplayedLocal else w.recipes[i].verify
  }

  /** Recipe `id`, and the Verified ones that ran inside it, are licensed; nothing else about any recipe changes. */
  ghost predicate Relicensed(w: World, id: RecipeId, after: Recipes)
    requires id < |w.recipes|
  {
    |after| == |w.recipes| && forall i :: 0 <= i < |after| ==> after[i] == w.recipes[i].(verify := ProvedState(w, id, i))
  }

  lemma LicensedExactly(w: World, id: RecipeId)
    requires id < |w.recipes| && PlanRecipe(w, 0, 0, [], id).Ok?
    ensures PlanRecipe(w, 0, 0, [], id).value.Op?
    ensures Relicensed(w, id, Licensed(w.recipes, id, PlansRecipes(PlanRecipe(w, 0, 0, [], id).value.children)))
  {
    InsideExactly(w, id, 0);
    forall i | 0 <= i < |w.recipes| ensures i in PlansRecipes(PlanRecipe(w, 0, 0, [], id).value.children) <==> RunsInside(w, id, i) {
      InsideExactly(w, id, i);
    }
    hide PlanRecipe, PlansRecipes, RunsInside;
  }

  /** Each output's row is resident with a claimed size; the other rows stay. */
  ghost predicate RowsPublished(before: map<Hash, BlobRow>, after: map<Hash, BlobRow>, outs: seq<Claim>) {
    && after.Keys == before.Keys + Hashes(outs)
    && (forall h :: h in after && h !in Hashes(outs) ==> after[h] == before[h])
    && forall h :: h in Hashes(outs) ==> after[h].residency == Resident && exists c :: c in outs && c.hash == h && after[h].size == Some(c.size)
  }

  /** Files that are there stay as they are; each other output is there with a claimed size. */
  ghost predicate FilesStored(before: map<Hash, nat>, after: map<Hash, nat>, outs: seq<Claim>) {
    && after.Keys == before.Keys + Hashes(outs)
    && (forall h :: h in before ==> after[h] == before[h])
    && forall h :: h in after && h !in before ==> exists c :: c in outs && c.hash == h && after[h] == c.size
  }

  lemma RelicensedGrows(w: World, id: RecipeId, after: Recipes)
    requires id < |w.recipes| && Relicensed(w, id, after)
    ensures SameGraph(w.recipes, after) && ReplayedRules(w.recipes) + {id} <= ReplayedRules(after) && after[id].verify == ReplayedLocal
  {
    hide RunsInside;
  }

  lemma RowsResident(before: map<Hash, BlobRow>, after: map<Hash, BlobRow>, outs: seq<Claim>)
    requires RowsPublished(before, after, outs)
    ensures ResidentBlobs(before) <= ResidentBlobs(after)
  {
  }

  lemma {:induction false} PublishedExactly(blobs: map<Hash, BlobRow>, outs: seq<Claim>)
    ensures RowsPublished(blobs, Published(blobs, outs), outs)
    decreases |outs|
  {
    if outs != [] {
      PublishedExactly(blobs[outs[0].hash := BlobRow(Some(outs[0].size), Resident)], outs[1..]);
      PublishedNext(blobs, outs);
      hide Published, RowsPublished;
      RowsBefore(blobs, Published(blobs, outs), outs);
    }
  }

  lemma RowsBefore(blobs: map<Hash, BlobRow>, after: map<Hash, BlobRow>, outs: seq<Claim>)
    requires outs != [] && RowsPublished(blobs[outs[0].hash := BlobRow(Some(outs[0].size), Resident)], after, outs[1..])
    ensures RowsPublished(blobs, after, outs)
  {
    HashesNext(outs);
    hide Hashes;
    var next := blobs[outs[0].hash := BlobRow(Some(outs[0].size), Resident)];
    assert outs[0] in outs && forall c :: c in outs[1..] ==> c in outs;
    forall h | h in Hashes(outs) ensures after[h].residency == Resident && exists c :: c in outs && c.hash == h && after[h].size == Some(c.size) {
      if h in Hashes(outs[1..]) {
        var c :| c in outs[1..] && c.hash == h && after[h].size == Some(c.size);
      } else {
        assert after[h] == next[h];
      }
    }
  }

  lemma PublishedNext(blobs: map<Hash, BlobRow>, outs: seq<Claim>)
    requires outs != []
    ensures Published(blobs, outs) == Published(blobs[outs[0].hash := BlobRow(Some(outs[0].size), Resident)], outs[1..])
  {
  }

  lemma HashesNext(outs: seq<Claim>)
    requires outs != []
    ensures Hashes(outs) == {outs[0].hash} + Hashes(outs[1..])
  {
    assert outs == [outs[0]] + outs[1..];
  }

  lemma {:induction false} StoredExactly(loose: map<Hash, nat>, outs: seq<Claim>)
    ensures FilesStored(loose, Stored(loose, outs), outs)
    decreases |outs|
  {
    if outs != [] {
      var next := if outs[0].hash in loose then loose else loose[outs[0].hash := outs[0].size];
      StoredExactly(next, outs[1..]);
      HashesNext(outs);
      var after := Stored(next, outs[1..]);
      assert Stored(loose, outs) == after;
      hide Stored;
      forall h | h in after && h !in loose ensures exists c :: c in outs && c.hash == h && after[h] == c.size {
        if h in next {
          assert outs[0] in outs;
        } else {
          var c :| c in outs[1..] && c.hash == h && after[h] == c.size;
          assert c in outs;
        }
      }
    }
  }

  lemma LicenseGrows(rs: Recipes, id: RecipeId, participants: set<RecipeId>)
    requires id < |rs|
    ensures SameGraph(rs, Licensed(rs, id, participants))
    ensures ReplayedRules(rs) + {id} <= ReplayedRules(Licensed(rs, id, participants))
  {
  }

  lemma RowedKeeps(blobs: map<Hash, BlobRow>, rs: Recipes, rs': Recipes)
    requires AllRowed(blobs, rs) && SameGraph(rs, rs')
    ensures AllRowed(blobs, rs')
  {
  }

  lemma InputsRowed(blobs: map<Hash, BlobRow>, rs: Recipes, id: RecipeId)
    requires AllRowed(blobs, rs) && id < |rs|
    ensures forall x :: x in rs[id].inputs ==> x in blobs
  {
  }

  /** Poisoning a recipe that was never licensed takes nothing away from drop safety. */
  lemma PoisonKeepsReplayed(rs: Recipes, id: RecipeId)
    requires id < |rs| && rs[id].verify != ReplayedLocal
    ensures SameGraph(rs, SetVerify(rs, id, Failed))
    ensures ReplayedRules(rs) == ReplayedRules(SetVerify(rs, id, Failed))
  {
  }

  /** One eviction attempt entered into the report. */
  function Record(report: EvictReport, h: Hash, outcome: EvictOutcome): EvictReport {
    match outcome
    case Evicted(bytes) => report.(evicted := report.evicted + 1, bytesReclaimed := report.bytesReclaimed + bytes)
    case Refused(why) => report.(blocked := report.blocked + [(h, why)])
  }

  lemma AllSafeMonotone(blobs: map<Hash, BlobRow>, rs: Recipes, blobs': map<Hash, BlobRow>, rs': Recipes)
    requires SameGraph(rs, rs') && ReplayedRules(rs) <= ReplayedRules(rs')
    requires ResidentBlobs(blobs) <= ResidentBlobs(blobs')
    ensures forall h :: Safe(blobs, rs, h) ==> Safe(blobs', rs', h)
  {
    forall h | Safe(blobs, rs, h) ensures Safe(blobs', rs', h) {
      SafeMonotone(blobs, rs, blobs', rs', h);
    }
  }

  // ---- Eviction, as a function of what is held ----

  /** The index and the bytes: what an eviction looks at. */
  datatype State = State(blobs: map<Hash, BlobRow>, recipes: Recipes, loose: map<Hash, nat>, packed: map<Hash, nat>) {
    /** Why `h` may not be evicted now, in the order the checks run; none of them, if it may. */
    ghost function Gate(h: Hash, protected: set<Hash>): Option<Blocked> {
      if h !in blobs || blobs[h].residency != Resident || (h !in loose && h !in packed) then Some(NotResident)
      else if h in protected then Some(PinnedByView)
      else if h !in loose then Some(IsPacked)
      else if Grounded(recipes, ReplayedRules(recipes), ResidentBlobs(blobs) - {h}, h) then None
      else if exists i :: 0 <= i < |recipes| && recipes[i].Claims(h) && recipes[i].verify != Failed then Some(NeedsReplay)
      else Some(NotGrounded)
    }

    /** What dropping `h` frees: its recorded size, or the file's length. */
    function Weight(h: Hash): nat {
      if h in blobs && blobs[h].size.Some? then blobs[h].size.value else if h in loose then loose[h] else 0
    }

    /** Without the loose file of `h`; a packed copy keeps it resident. */
    function Without(h: Hash): State
      requires h in blobs
    {
      State(blobs[h := blobs[h].(residency := if h in packed then Resident else EvictedCovered)], recipes, loose - {h}, packed)
    }

    /** After trying to evict `h`, and what is reported. */
    ghost function Tried(h: Hash, protected: set<Hash>): State {
      if Gate(h, protected).None? then Without(h) else this
    }

    ghost function Outcome(h: Hash, protected: set<Hash>): EvictOutcome {
      var why := Gate(h, protected);
      if why.None? then Evicted(Weight(h)) else Refused(why.value)
    }
  }

  /** A refusal outlasts other drops: they only take bytes away. */
  lemma GateStays(s: State, x: Hash, h: Hash, protected: set<Hash>)
    requires s.Gate(x, protected).None? && s.Gate(h, protected).Some?
    ensures s.Without(x).Gate(h, protected) == s.Gate(h, protected)
  {
    var after := s.Without(x);
    assert h != x;
    assert ResidentBlobs(after.blobs) <= ResidentBlobs(s.blobs);
    hide ReplayedRules, ResidentBlobs, Grounded;
    if Grounded(s.recipes, ReplayedRules(s.recipes), ResidentBlobs(after.blobs) - {h}, h) {
      GroundedMonotone(s.recipes, ReplayedRules(s.recipes), ResidentBlobs(after.blobs) - {h}, ReplayedRules(s.recipes), ResidentBlobs(s.blobs) - {h}, h);
    }
  }

  /** What has been evicted is refused from then on. */
  lemma GateAfter(s: State, x: Hash, protected: set<Hash>)
    requires s.Gate(x, protected).None?
    ensures s.Without(x).Gate(x, protected) == Some(if x in s.packed then IsPacked else NotResident)
  {
    hide Grounded;
  }

  /** The candidates that were evicted: those no reason stood against. */
  function Taken(cs: seq<Hash>, gates: seq<Option<Blocked>>): set<Hash>
    requires |gates| <= |cs|
  {
    set j | 0 <= j < |gates| && gates[j].None? :: cs[j]
  }

  /** The others with their reasons, in order. */
  function Refusals(cs: seq<Hash>, gates: seq<Option<Blocked>>): seq<(Hash, Blocked)>
    requires |gates| <= |cs|
  {
    if gates == [] then []
    else
      var n := |gates| - 1;
      Refusals(cs, gates[..n]) + if gates[n].Some? then [(cs[n], gates[n].value)] else []
  }

  /** The bytes freed by the first `n` of them. */
  function Freed(s: State, cs: seq<Hash>, gates: seq<Option<Blocked>>, n: nat): nat
    requires n <= |gates| <= |cs|
  {
    if n == 0 then 0 else Freed(s, cs, gates, n - 1) + if gates[n - 1].None? then s.Weight(cs[n - 1]) else 0
  }

  /**
   A first pass over candidates, read off its two ends: `gates` is what stood against
   each candidate at its turn, the dropped files are those nothing stood against, and
   in the end every candidate looked at is refused, with the reason it was refused for.
   */
  ghost predicate PassIs(before: State, after: State, cs: seq<Hash>, protected: set<Hash>, gates: seq<Option<Blocked>>, report: EvictReport) {
    && |gates| <= |cs| && Dropping(before, after, Taken(cs, gates))
    && (forall i, j :: 0 <= i < j < |gates| && gates[i].None? && gates[j].None? ==> cs[i] != cs[j])
    && (forall j :: 0 <= j < |gates| ==> Ends(after, cs[j], protected, gates[j]))
    && report == EvictReport(|Taken(cs, gates)|, Freed(before, cs, gates, |gates|), Refusals(cs, gates), 0)
  }

  /** Just the loose files of `taken` are gone; no other row changed, and none its size. */
  ghost predicate Dropping(before: State, after: State, taken: set<Hash>) {
    && after.recipes == before.recipes && after.packed == before.packed && after.blobs.Keys == before.blobs.Keys
    && after.loose == before.loose - taken && taken <= before.loose.Keys
    && (forall h :: h in before.blobs && h !in taken ==> after.blobs[h] == before.blobs[h])
    && forall h :: h in before.blobs ==> after.blobs[h].size == before.blobs[h].size
  }

  lemma DroppingOne(before: State, after: State, taken: set<Hash>, h: Hash)
    requires Dropping(before, after, taken) && h !in taken && h in after.blobs && h in after.loose
    ensures Dropping(before, after.Without(h), taken + {h}) && after.Weight(h) == before.Weight(h)
  {
    assert after.loose - {h} == before.loose - (taken + {h});
  }

  ghost predicate Ends(after: State, h: Hash, protected: set<Hash>, gate: Option<Blocked>) {
    after.Gate(h, protected) == if gate.Some? then gate else Some(if h in after.packed then IsPacked else NotResident)
  }

  lemma PassStarts(s: State, cs: seq<Hash>, protected: set<Hash>)
    ensures PassIs(s, s, cs, protected, [], EvictReport(0, 0, [], 0))
  {
    assert Taken(cs, []) == {};
  }

  lemma PassNext(before: State, after: State, cs: seq<Hash>, protected: set<Hash>, gates: seq<Option<Blocked>>, report: EvictReport)
    requires PassIs(before, after, cs, protected, gates, report) && |gates| < |cs|
    ensures var h := cs[|gates|];
      PassIs(before, after.Tried(h, protected), cs, protected, gates + [after.Gate(h, protected)], Record(report, h, after.Outcome(h, protected)))
  {
    hide State.Gate, State.Weight, PassIs;
    var h := cs[|gates|];
    if after.Gate(h, protected).None? {
      PassTakes(before, after, cs, protected, gates, report);
    } else {
      PassRefuses(before, after, cs, protected, gates, report);
    }
  }

  lemma PassRefuses(before: State, after: State, cs: seq<Hash>, protected: set<Hash>, gates: seq<Option<Blocked>>, report: EvictReport)
    requires PassIs(before, after, cs, protected, gates, report) && |gates| < |cs| && after.Gate(cs[|gates|], protected).Some?
    ensures var (h, gate) := (cs[|gates|], after.Gate(cs[|gates|], protected));
      PassIs(before, after, cs, protected, gates + [gate], Record(report, h, Refused(gate.value)))
  {
    hide State.Gate, State.Weight, Dropping;
    var (h, n) := (cs[|gates|], |gates|);
    var gate := after.Gate(h, protected);
    var more := gates + [gate];
    assert more[..n] == gates && more[n] == gate && forall j :: 0 <= j < n ==> more[j] == gates[j];
    FreedSame(before, cs, gates, gate, n);
    TakenNext(cs, gates, gate);
    assert Ends(after, h, protected, gate);
    hide Ends, Taken;
  }

  lemma PassTakes(before: State, after: State, cs: seq<Hash>, protected: set<Hash>, gates: seq<Option<Blocked>>, report: EvictReport)
    requires PassIs(before, after, cs, protected, gates, report) && |gates| < |cs| && after.Gate(cs[|gates|], protected).None?
    ensures cs[|gates|] in after.blobs
    ensures PassIs(before, after.Without(cs[|gates|]), cs, protected, gates + [None], Record(report, cs[|gates|], Evicted(after.Weight(cs[|gates|]))))
  {
    hide State.Gate, Ends, Taken, Freed, Refusals, State.Weight, Dropping, State.Without;
    var (h, n) := (cs[|gates|], |gates|);
    GateGives(after, h, protected);
    NotTaken(after, h, cs, protected, gates);
    EndsNext(after, h, cs, protected, gates);
    TakenNext(cs, gates, None);
    TakenIn(cs, gates);
    DroppingOne(before, after, Taken(cs, gates), h);
    FreedNext(before, cs, gates);
    RefusalsSame(cs, gates);
    OnceMore(cs, gates, Taken(cs, gates), h);
  }

  lemma RefusalsSame(cs: seq<Hash>, gates: seq<Option<Blocked>>)
    requires |gates| < |cs|
    ensures Refusals(cs, gates + [None]) == Refusals(cs, gates)
  {
    assert (gates + [None])[..|gates|] == gates;
  }

  lemma OnceMore(cs: seq<Hash>, gates: seq<Option<Blocked>>, taken: set<Hash>, h: Hash)
    requires |gates| < |cs| && h == cs[|gates|] && h !in taken
    requires forall j :: 0 <= j < |gates| && gates[j].None? ==> cs[j] in taken
    requires forall i, j :: 0 <= i < j < |gates| && gates[i].None? && gates[j].None? ==> cs[i] != cs[j]
    ensures var more := gates + [None]; forall i, j :: 0 <= i < j < |more| && more[i].None? && more[j].None? ==> cs[i] != cs[j]
    ensures |taken + {h}| == |taken| + 1
  {
  }

  lemma FreedNext(s: State, cs: seq<Hash>, gates: seq<Option<Blocked>>)
    requires |gates| < |cs|
    ensures Freed(s, cs, gates + [None], |gates| + 1) == Freed(s, cs, gates, |gates|) + s.Weight(cs[|gates|])
  {
    FreedSame(s, cs, gates, None, |gates|);
  }

  lemma TakenIn(cs: seq<Hash>, gates: seq<Option<Blocked>>)
    requires |gates| <= |cs|
    ensures forall j :: 0 <= j < |gates| && gates[j].None? ==> cs[j] in Taken(cs, gates)
  {
  }

  lemma NotTaken(after: State, h: Hash, cs: seq<Hash>, protected: set<Hash>, gates: seq<Option<Blocked>>)
    requires |gates| <= |cs| && after.Gate(h, protected).None? && forall j :: 0 <= j < |gates| ==> Ends(after, cs[j], protected, gates[j])
    ensures h !in Taken(cs, gates)
  {
    hide State.Gate;
    forall j | 0 <= j < |gates| && gates[j].None? ensures cs[j] != h {
      assert Ends(after, cs[j], protected, gates[j]);
    }
  }

  lemma EndsNext(after: State, h: Hash, cs: seq<Hash>, protected: set<Hash>, gates: seq<Option<Blocked>>)
    requires |gates| < |cs| && h == cs[|gates|] && after.Gate(h, protected).None? && h in after.blobs
    requires forall j :: 0 <= j < |gates| ==> Ends(after, cs[j], protected, gates[j])
    ensures forall j :: 0 <= j < |gates| + 1 ==> Ends(after.Without(h), cs[j], protected, (gates + [None])[j])
  {
    forall j | 0 <= j < |gates| + 1 ensures Ends(after.Without(h), cs[j], protected, (gates + [None])[j]) {
      if j < |gates| {
        assert Ends(after, cs[j], protected, gates[j]);
        GateStays(after, h, cs[j], protected);
      } else {
        GateAfter(after, h, protected);
      }
      hide State.Gate;
    }
  }

  lemma GateGives(s: State, h: Hash, protected: set<Hash>)
    requires s.Gate(h, protected).None?
    ensures h in s.blobs && h in s.loose
  {
  }

  lemma TakenNext(cs: seq<Hash>, gates: seq<Option<Blocked>>, gate: Option<Blocked>)
    requires |gates| < |cs|
    ensures Taken(cs, gates + [gate]) == Taken(cs, gates) + if gate.None? then {cs[|gates|]} else {}
  {
    var more := gates + [gate];
    assert more[|gates|] == gate && forall j :: 0 <= j < |gates| ==> more[j] == gates[j];
  }

  lemma {:induction false} FreedSame(s: State, cs: seq<Hash>, gates: seq<Option<Blocked>>, gate: Option<Blocked>, n: nat)
    requires n <= |gates| < |cs|
    ensures Freed(s, cs, gates + [gate], n) == Freed(s, cs, gates, n)
  {
    if n > 0 {
      FreedSame(s, cs, gates, gate, n - 1);
    }
  }

  /** A pass goes on exactly while more than `target` bytes are resident. */
  ghost predicate GoesOn(before: State, cs: seq<Hash>, gates: seq<Option<Blocked>>, residentBytes: nat, target: nat)
    requires |gates| <= |cs|
  {
    && (forall n :: 0 <= n < |gates| ==> residentBytes > target + Freed(before, cs, gates, n))
    && (|gates| == |cs| || residentBytes <= target + Freed(before, cs, gates, |gates|))
  }

  /** A pass that ends above its target has left nothing it could evict: every candidate is refused in the end. */
  lemma NothingLeft(before: State, after: State, cs: seq<Hash>, protected: set<Hash>, gates: seq<Option<Blocked>>, report: EvictReport,
                    residentBytes: nat, target: nat)
    requires PassIs(before, after, cs, protected, gates, report) && GoesOn(before, cs, gates, residentBytes, target)
    requires residentBytes > target + report.bytesReclaimed
    ensures forall h :: h in cs ==> after.Gate(h, protected).Some?
  {
    hide State.Gate;
    forall h | h in cs ensures after.Gate(h, protected).Some? {
      var j :| 0 <= j < |cs| && cs[j] == h;
      assert Ends(after, cs[j], protected, gates[j]);
    }
  }

  lemma FreedKeeps(before: State, cs: seq<Hash>, gates: seq<Option<Blocked>>, gate: Option<Blocked>)
    requires |gates| < |cs|
    ensures forall n :: 0 <= n <= |gates| ==> Freed(before, cs, gates + [gate], n) == Freed(before, cs, gates, n)
  {
    forall n | 0 <= n <= |gates| ensures Freed(before, cs, gates + [gate], n) == Freed(before, cs, gates, n) {
      FreedSame(before, cs, gates, gate, n);
    }
  }

  lemma FreedOf(before: State, after: State, cs: seq<Hash>, protected: set<Hash>, gates: seq<Option<Blocked>>, report: EvictReport)
    requires PassIs(before, after, cs, protected, gates, report)
    ensures |gates| <= |cs| && report.bytesReclaimed == Freed(before, cs, gates, |gates|)
  {
  }

  /** What the first pass of an eviction came to. */
  datatype Pass = Pass(protected: set<Hash>, gates: seq<Option<Blocked>>, report: EvictReport, after: State)

  // ---- Licensing a blob ----

  /** A route a licensing replay is spent on. */
  ghost predicate OpenRoute(w: World, h: Hash, i: RecipeId) {
    i < |w.recipes| && w.recipes[i].Claims(h) && w.recipes[i].verify == Verified
  }

  /** Routes `ids` of `h`, Verified at the start, replayed in table order through the states `run`. */
  ghost predicate Tried(h: Hash, verdicts: RecipeId -> Verdict, ids: seq<RecipeId>, run: seq<World>) {
    && |run| == |ids| + 1
    && (forall k :: 0 <= k < |ids| ==> OpenRoute(run[0], h, ids[k]) && ids[k] < |run[k].recipes| && ReplayStep(run[k], ids[k], verdicts(ids[k]), run[k + 1]))
    && forall j, k :: 0 <= j < k < |ids| ==> ids[j] < ids[k]
  }

  /** All but the last were disproved, and none is passed over before the last. */
  ghost predicate Trials(h: Hash, verdicts: RecipeId -> Verdict, ids: seq<RecipeId>, run: seq<World>) {
    && Tried(h, verdicts, ids, run) && InBounds(ids, run)
    && (forall k :: 0 <= k < |ids| - 1 ==> Answer(run[k], ids[k], verdicts(ids[k])) == Err(ClaimFailure))
    && forall i :: OpenRoute(run[0], h, i) ==> i in ids || (ids != [] && i > ids[|ids| - 1] && LastAnswer(verdicts, ids, run) != Err(ClaimFailure))
  }

  ghost function LastAnswer(verdicts: RecipeId -> Verdict, ids: seq<RecipeId>, run: seq<World>): Result<(), ReplayError>
    requires ids != [] && InBounds(ids, run)
  {
    Answer(run[|ids| - 1], ids[|ids| - 1], verdicts(ids[|ids| - 1]))
  }

  /** The trials up to route `i`, all of them disproved. */
  ghost predicate DisprovedSoFar(h: Hash, verdicts: RecipeId -> Verdict, ids: seq<RecipeId>, run: seq<World>, i: nat) {
    && Tried(h, verdicts, ids, run)
    && (forall k :: 0 <= k < |ids| ==> ids[k] < i && ids[k] < |run[k].recipes| && Answer(run[k], ids[k], verdicts(ids[k])) == Err(ClaimFailure))
    && forall j :: 0 <= j < i && OpenRoute(run[0], h, j) ==> j in ids
  }

  lemma OpenHere(w: World, h: Hash, i: RecipeId)
    ensures OpenRoute(w, h, i) <==> i < |w.recipes| && w.recipes[i].Claims(h) && w.recipes[i].verify == Verified
  {
  }

  lemma TrialsStart(h: Hash, verdicts: RecipeId -> Verdict, w: World)
    ensures DisprovedSoFar(h, verdicts, [], [w], 0)
  {
  }

  lemma TrialsSkip(h: Hash, verdicts: RecipeId -> Verdict, ids: seq<RecipeId>, run: seq<World>, i: nat)
    requires DisprovedSoFar(h, verdicts, ids, run, i) && !OpenRoute(run[0], h, i)
    ensures DisprovedSoFar(h, verdicts, ids, run, i + 1)
  {
    hide Answer, ReplayStep, OpenRoute;
  }

  lemma TrialsMore(h: Hash, verdicts: RecipeId -> Verdict, ids: seq<RecipeId>, run: seq<World>, i: nat, after: World)
    requires DisprovedSoFar(h, verdicts, ids, run, i) && |run| == |ids| + 1 && OpenRoute(run[0], h, i)
    requires i < |run[|ids|].recipes| && ReplayStep(run[|ids|], i, verdicts(i), after)
    ensures var (answer, more, worlds) := (Answer(run[|ids|], i, verdicts(i)), ids + [i], run + [after]);
      if answer == Err(ClaimFailure) then DisprovedSoFar(h, verdicts, more, worlds, i + 1)
      else
        && Trials(h, verdicts, more, worlds) && InBounds(more, worlds)
        && Trialled(verdicts, more, worlds) == if answer.Ok? then Ok(true) else Err(answer.error)
  {
    hide Answer, ReplayStep, OpenRoute;
    TriedMore(h, verdicts, ids, run, i, after);
    hide Tried;
    var (more, worlds) := (ids + [i], run + [after]);
    if Answer(run[|ids|], i, verdicts(i)) == Err(ClaimFailure) {
      assert forall k :: 0 <= k < |more| ==> Answer(worlds[k], more[k], verdicts(more[k])) == Err(ClaimFailure);
    } else {
      TrialsStop(h, verdicts, ids, run, i, more, worlds);
    }
  }

  /** The sequences of routes and states grow by one. */
  lemma TriedMore(h: Hash, verdicts: RecipeId -> Verdict, ids: seq<RecipeId>, run: seq<World>, i: nat, after: World)
    requires DisprovedSoFar(h, verdicts, ids, run, i) && |run| == |ids| + 1 && OpenRoute(run[0], h, i)
    requires i < |run[|ids|].recipes| && ReplayStep(run[|ids|], i, verdicts(i), after)
    ensures var (more, worlds) := (ids + [i], run + [after]);
      && Tried(h, verdicts, more, worlds) && InBounds(more, worlds) && more[|ids|] == i && worlds[0] == run[0]
      && forall k :: 0 <= k < |more| ==> worlds[k] == run[k] && (k < |ids| ==> more[k] == ids[k])
  {
    hide Answer, ReplayStep, OpenRoute;
    var (more, worlds) := (ids + [i], run + [after]);
    assert more[|ids|] == i && forall k :: 0 <= k < |ids| ==> more[k] == ids[k];
    assert worlds[|ids| + 1] == after && forall k :: 0 <= k <= |ids| ==> worlds[k] == run[k];
  }

  lemma TrialsStop(h: Hash, verdicts: RecipeId -> Verdict, ids: seq<RecipeId>, run: seq<World>, i: nat, more: seq<RecipeId>, worlds: seq<World>)
    requires DisprovedSoFar(h, verdicts, ids, run, i) && |run| == |ids| + 1 && more == ids + [i] && InBounds(more, worlds) && Tried(h, verdicts, more, worlds)
    requires worlds[0] == run[0] && forall k :: 0 <= k < |more| ==> worlds[k] == run[k] && (k < |ids| ==> more[k] == ids[k])
    requires i < |run[|ids|].recipes| && Answer(run[|ids|], i, verdicts(i)) != Err(ClaimFailure)
    ensures Trials(h, verdicts, more, worlds)
    ensures var answer := Answer(run[|ids|], i, verdicts(i)); Trialled(verdicts, more, worlds) == if answer.Ok? then Ok(true) else Err(answer.error)
  {
    hide Answer, ReplayStep, OpenRoute, Tried;
    assert LastAnswer(verdicts, more, worlds) == Answer(run[|ids|], i, verdicts(i));
    forall j: nat | OpenRoute(worlds[0], h, j) ensures j in more || j > i {
      assert j < i ==> j in ids;
    }
  }

  lemma TrialsEnd(h: Hash, verdicts: RecipeId -> Verdict, ids: seq<RecipeId>, run: seq<World>, i: nat)
    requires DisprovedSoFar(h, verdicts, ids, run, i) && run != [] && i == |run[0].recipes|
    ensures Trials(h, verdicts, ids, run) && InBounds(ids, run) && Trialled(verdicts, ids, run) == Ok(false)
  {
    hide Answer, ReplayStep;
  }

  ghost predicate InBounds(ids: seq<RecipeId>, run: seq<World>) {
    |run| == |ids| + 1 && forall k :: 0 <= k < |ids| ==> ids[k] < |run[k].recipes|
  }

  /** Licensed by the last, out of routes, or stopped by another failure. */
  ghost function Trialled(verdicts: RecipeId -> Verdict, ids: seq<RecipeId>, run: seq<World>): Result<bool, ReplayError>
    requires InBounds(ids, run)
  {
    if ids == [] then Ok(false)
    else
      match LastAnswer(verdicts, ids, run)
      case Ok(_) => Ok(true)
      case Err(e) => if e.ClaimFailure? then Ok(false) else Err(e)
  }

  /** What became of one pool blob: the trials, the state they left, the result, and the state after the eviction. */
  datatype PoolTurn = PoolTurn(ids: seq<RecipeId>, run: seq<World>, before: State, between: State, result: Option<(EvictOutcome, nat)>, after: State)

  ghost predicate Shows(s: State, w: World) {
    w.blobs == s.blobs && w.recipes == s.recipes && w.stored == s.loose.Keys + s.packed.Keys
  }

  /**
   A pinned blob is refused without a replay. Otherwise its routes are tried: stopped
   by another failure, the pass ends; out of routes, the blob needs a replay still;
   licensed, one replay is counted and the ordinary gate decides.
   */
  ghost predicate PoolTurnIs(t: PoolTurn, h: Hash, protected: set<Hash>, verdicts: RecipeId -> Verdict) {
    if h in protected then t.result == Some((Refused(PinnedByView), 0)) && t.between == t.after == t.before
    else
      && Trials(h, verdicts, t.ids, t.run) && Shows(t.before, t.run[0]) && Shows(t.between, t.run[|t.ids|])
      && match Trialled(verdicts, t.ids, t.run)
         case Err(_) => t.result == None && t.after == t.between
         case Ok(false) => t.result == Some((Refused(NeedsReplay), 0)) && t.after == t.between
         case Ok(true) => t.result == Some((t.between.Outcome(h, protected), 1)) && t.after == t.between.Tried(h, protected)
  }

  /** An eviction changes only rows and loose files, and none of a protected blob. */
  lemma KeepsProtected(s: State, h: Hash, protected: set<Hash>)
    ensures s.Tried(h, protected).recipes == s.recipes && s.Tried(h, protected).packed == s.packed
    ensures forall x :: x in protected && x in s.loose ==> x in s.Tried(h, protected).loose
  {
    hide Grounded;
  }

  lemma PinnedTurn(s: State, w: World, h: Hash, protected: set<Hash>, verdicts: RecipeId -> Verdict)
    requires h in protected
    ensures PoolTurnIs(PoolTurn([], [w], s, s, Some((Refused(PinnedByView), 0)), s), h, protected, verdicts)
  {
  }

  /** The turn of a blob whose trials came to `licensed`. */
  lemma TriedTurn(t: PoolTurn, h: Hash, protected: set<Hash>, verdicts: RecipeId -> Verdict, licensed: Result<bool, ReplayError>)
    requires h !in protected && InBounds(t.ids, t.run) && Trials(h, verdicts, t.ids, t.run) && licensed == Trialled(verdicts, t.ids, t.run)
    requires Shows(t.before, t.run[0]) && Shows(t.between, t.run[|t.ids|])
    requires licensed.Err? ==> t.result == None && t.after == t.between
    requires licensed == Ok(false) ==> t.result == Some((Refused(NeedsReplay), 0)) && t.after == t.between
    requires licensed == Ok(true) ==> t.result == Some((t.between.Outcome(h, protected), 1)) && t.after == t.between.Tried(h, protected)
    ensures PoolTurnIs(t, h, protected, verdicts)
  {
    hide Trials, Trialled, State.Tried, State.Outcome, Shows;
  }

  /** One turn after the other, each beginning where the last ended. */
  ghost predicate PoolSoFar(before: State, after: State, pool: seq<Hash>, protected: set<Hash>, verdicts: RecipeId -> Verdict, turns: seq<PoolTurn>)
    requires |turns| <= |pool|
    decreases |turns|
  {
    if turns == [] then after == before
    else
      var n := |turns| - 1;
      turns[n].after == after && PoolTurnIs(turns[n], pool[n], protected, verdicts) && PoolSoFar(before, turns[n].before, pool, protected, verdicts, turns[..n])
  }

  /** The report after the first `n` turns. */
  ghost function Reported(soFar: EvictReport, pool: seq<Hash>, turns: seq<PoolTurn>, n: nat): EvictReport
    requires n <= |turns| <= |pool|
  {
    if n == 0 then soFar
    else
      var (r, result) := (Reported(soFar, pool, turns, n - 1), turns[n - 1].result);
      if result.None? then r
      else
        var (outcome, replays) := result.value;
        if outcome.Evicted? then EvictReport(r.evicted + 1, r.bytesReclaimed + outcome.bytesReclaimed, r.blocked, r.replays + replays)
        else EvictReport(r.evicted, r.bytesReclaimed, r.blocked + [(pool[n - 1], outcome.why)], r.replays + replays)
  }

  /** A second pass: one turn after the other while more than `target` bytes are resident; it ends without a report exactly on a failed turn. */
  ghost predicate PoolPass(before: State, after: State, pool: seq<Hash>, protected: set<Hash>, verdicts: RecipeId -> Verdict, soFar: EvictReport,
                           turns: seq<PoolTurn>, r: Option<EvictReport>, residentBytes: nat, target: nat)
  {
    && |turns| <= |pool| && PoolSoFar(before, after, pool, protected, verdicts, turns)
    && (forall j :: 0 <= j < |turns| - 1 ==> turns[j].result.Some?)
    && (r.None? <==> turns != [] && turns[|turns| - 1].result.None?)
    && (r.Some? ==> r.value == Reported(soFar, pool, turns, |turns|) && (|turns| == |pool| || residentBytes <= target + r.value.bytesReclaimed))
    && forall n :: 0 <= n < |turns| ==> residentBytes > target + Reported(soFar, pool, turns, n).bytesReclaimed
  }

  lemma PoolNext(before: State, now: State, pool: seq<Hash>, protected: set<Hash>, verdicts: RecipeId -> Verdict, soFar: EvictReport,
                 turns: seq<PoolTurn>, turn: PoolTurn)
    requires |turns| < |pool| && PoolSoFar(before, now, pool, protected, verdicts, turns)
    requires turn.before == now && PoolTurnIs(turn, pool[|turns|], protected, verdicts)
    ensures PoolSoFar(before, turn.after, pool, protected, verdicts, turns + [turn])
    ensures forall n :: 0 <= n <= |turns| ==> Reported(soFar, pool, turns + [turn], n) == Reported(soFar, pool, turns, n)
  {
    hide PoolTurnIs, Reported;
    forall n | 0 <= n <= |turns| ensures Reported(soFar, pool, turns + [turn], n) == Reported(soFar, pool, turns, n) {
      ReportedSame(soFar, pool, turns, turn, n);
    }
    assert (turns + [turn])[..|turns|] == turns;
  }

  lemma PoolStarts(s: State, pool: seq<Hash>, protected: set<Hash>, verdicts: RecipeId -> Verdict, soFar: EvictReport)
    ensures PoolSoFar(s, s, pool, protected, verdicts, []) && Reported(soFar, pool, [], 0) == soFar
  {
  }

  lemma ReportedOne(soFar: EvictReport, pool: seq<Hash>, turns: seq<PoolTurn>)
    requires 0 < |turns| <= |pool| && turns[|turns| - 1].result.Some?
    ensures var (n, result) := (|turns| - 1, turns[|turns| - 1].result.value);
      Reported(soFar, pool, turns, n + 1) == Record(Reported(soFar, pool, turns, n), pool[n], result.0).(replays := Reported(soFar, pool, turns, n).replays + result.1)
  {
  }

  lemma {:induction false} ReportedSame(soFar: EvictReport, pool: seq<Hash>, turns: seq<PoolTurn>, turn: PoolTurn, n: nat)
    requires n <= |turns| < |pool|
    ensures Reported(soFar, pool, turns + [turn], n) == Reported(soFar, pool, turns, n)
  {
    if n > 0 {
      ReportedSame(soFar, pool, turns, turn, n - 1);
    }
  }

  /** The trials of one blob, through the states `run`, and what they came to. */
  datatype Trial = Trial(ids: seq<RecipeId>, run: seq<World>, result: Result<bool, ReplayError>)

  ghost predicate TrialOk(t: Trial, h: Hash, verdicts: RecipeId -> Verdict) {
    Trials(h, verdicts, t.ids, t.run) && t.result == Trialled(verdicts, t.ids, t.run)
  }

  /** A drain of the pool: trials of each blob in turn. */
  ghost predicate DrainIs(before: World, after: World, pool: seq<Hash>, verdicts: RecipeId -> Verdict, trials: seq<Trial>) {
    |trials| <= |pool| && AllTried(pool, verdicts, trials) && Chained(before, after, trials)
  }

  ghost predicate AllTried(pool: seq<Hash>, verdicts: RecipeId -> Verdict, trials: seq<Trial>)
    requires |trials| <= |pool|
  {
    forall k :: 0 <= k < |trials| ==> TrialOk(trials[k], pool[k], verdicts)
  }

  /** Each begins where the one before ended. */
  ghost predicate Chained(before: World, after: World, trials: seq<Trial>)
    decreases |trials|
  {
    if trials == [] then after == before
    else
      var t := trials[|trials| - 1];
      t.run != [] && t.run[|t.run| - 1] == after && Chained(before, t.run[0], trials[..|trials| - 1])
  }

  /** The blobs no trial licensed, in order. */
  ghost function Unlicensed(pool: seq<Hash>, trials: seq<Trial>, n: nat): seq<Hash>
    requires n <= |trials| <= |pool|
  {
    if n == 0 then [] else Unlicensed(pool, trials, n - 1) + if trials[n - 1].result == Ok(true) then [] else [pool[n - 1]]
  }

  lemma DrainStarts(w: World, pool: seq<Hash>, verdicts: RecipeId -> Verdict)
    ensures DrainIs(w, w, pool, verdicts, []) && Unlicensed(pool, [], 0) == []
  {
  }

  lemma IsTrial(t: Trial, h: Hash, verdicts: RecipeId -> Verdict)
    requires InBounds(t.ids, t.run) && Trials(h, verdicts, t.ids, t.run) && t.result == Trialled(verdicts, t.ids, t.run)
    ensures TrialOk(t, h, verdicts)
  {
    hide Trials, Trialled;
  }

  lemma DrainNext(before: World, now: World, pool: seq<Hash>, verdicts: RecipeId -> Verdict, trials: seq<Trial>, t: Trial)
    requires DrainIs(before, now, pool, verdicts, trials) && |trials| < |pool|
    requires t.run != [] && TrialOk(t, pool[|trials|], verdicts) && t.run[0] == now
    ensures DrainIs(before, t.run[|t.run| - 1], pool, verdicts, trials + [t])
    ensures Unlicensed(pool, trials + [t], |trials| + 1) == Unlicensed(pool, trials, |trials|) + if t.result == Ok(true) then [] else [pool[|trials|]]
  {
    hide TrialOk;
    UnlicensedSame(pool, trials, t, |trials|);
    assert (trials + [t])[..|trials|] == trials;
  }

  lemma {:induction false} UnlicensedSame(pool: seq<Hash>, trials: seq<Trial>, t: Trial, n: nat)
    requires n <= |trials| < |pool|
    ensures Unlicensed(pool, trials + [t], n) == Unlicensed(pool, trials, n)
  {
    if n > 0 {
      UnlicensedSame(pool, trials, t, n - 1);
    }
  }

  // ---- The swap's steps ----

  /** An absent leaf can be streamed: it plans, and its bytes verify. */
  ghost predicate PieceStreams(w: World, h: Hash, streams: Hash -> StreamVerdict) {
    PlanBlob(w, h, 0, []).Ok? && streams(h) == Streams
  }

  /** The first piece that cannot. */
  ghost predicate StopsAt(w: World, pieces: seq<RebuildInput>, streams: Hash -> StreamVerdict, k: nat) {
    k < |pieces| && !PieceStreams(w, pieces[k].hash, streams) && forall j :: 0 <= j < k ==> PieceStreams(w, pieces[j].hash, streams)
  }

  /** The recipes after a piece failed: only the top recipe of a plan whose bytes disproved it is poisoned. */
  ghost function Poisons(w: World, h: Hash, streams: Hash -> StreamVerdict): Recipes {
    var plan := PlanBlob(w, h, 0, []);
    if plan.Ok? && plan.value.Op? && streams(h) == RouteDisproved && plan.value.recipe < |w.recipes|
    then w.recipes[plan.value.recipe := w.recipes[plan.value.recipe].(verify := Failed)] else w.recipes
  }

  /** A route that is licensed, or proves itself now. */
  ghost predicate Licenses(w: World, id: RecipeId, verdict: Verdict) {
    id < |w.recipes| && (w.recipes[id].verify == ReplayedLocal || Answer(w, id, verdict).Ok?)
  }

  /** Nothing to do for a licensed route; otherwise one replay, or one licence. */
  ghost predicate LicenceTurn(w: World, id: RecipeId, publish: bool, verdict: Verdict, after: World) {
    id < |w.recipes| &&
    if w.recipes[id].verify == ReplayedLocal then after == w
    else if publish then ReplayStep(w, id, verdict, after) else LicenseStep(w, id, verdict, after)
  }

  /** Routes licensed one after the other, only the last of the list by replay, while they prove themselves; `turns` are the states between. */
  ghost predicate LicenceTurns(before: World, ids: seq<RecipeId>, verdicts: RecipeId -> Verdict, turns: seq<World>) {
    && 0 < |turns| <= |ids| + 1 && turns[0] == before
    && (forall k :: 0 <= k < |turns| - 1 ==> LicenceTurn(turns[k], ids[k], k == |ids| - 1, verdicts(ids[k]), turns[k + 1]))
    && forall k :: 0 <= k < |turns| - 2 ==> Licenses(turns[k], ids[k], verdicts(ids[k]))
  }

  /** Every leaf that is not resident can be streamed. */
  ghost predicate AllStream(w: World, leaves: seq<RebuildInput>, streams: Hash -> StreamVerdict) {
    forall l :: l in leaves && l.residency != Resident ==> PieceStreams(w, l.hash, streams)
  }

  /** The leaves that were not resident are sealed into a pack and resident now; nothing else changed. */
  ghost predicate IsSealed(before: World, after: World, leaves: seq<RebuildInput>) {
    && after.recipes == before.recipes && after.maxDepth == before.maxDepth && after.blobs.Keys == before.blobs.Keys
    && (forall h :: h in before.blobs ==>
          after.blobs[h] == if IsAbsentLeaf(leaves, h) then before.blobs[h].(residency := Resident) else before.blobs[h])
    && forall h :: h in after.stored <==> h in before.stored || IsAbsentLeaf(leaves, h)
  }

  ghost predicate IsAbsentLeaf(leaves: seq<RebuildInput>, h: Hash) {
    exists l :: l in leaves && l.hash == h && l.residency != Resident
  }

  lemma PiecesAre(w: World, leaves: seq<RebuildInput>, streams: Hash -> StreamVerdict)
    ensures AllStream(w, leaves, streams) <==> forall p :: p in AbsentLeaves(leaves) ==> PieceStreams(w, p.hash, streams)
    ensures forall h :: h in Members(AbsentLeaves(leaves)) <==> IsAbsentLeaf(leaves, h)
  {
    hide PieceStreams;
  }

  /** A leaf is resident or absent; sealed, it is resident either way. */
  lemma LeavesResident(ix: Index, leaves: seq<RebuildInput>, blobs: map<Hash, BlobRow>)
    requires forall l :: l in leaves ==> l.hash in ix.blobs && l.residency == ix.blobs[l.hash].residency
    requires ResidentBlobs(blobs) == ResidentBlobs(ix.blobs) + Members(AbsentLeaves(leaves))
    ensures forall l :: l in leaves ==> l.hash in ResidentBlobs(blobs)
    ensures ResidentBlobs(ix.blobs) <= ResidentBlobs(blobs)
  {
    forall l | l in leaves ensures l.hash in ResidentBlobs(blobs) {
      if l.residency != Resident {
        assert l in AbsentLeaves(leaves);
        assert l.hash in Members(AbsentLeaves(leaves));
      }
    }
  }

  lemma SealedAs(before: World, after: World, leaves: seq<RebuildInput>)
    requires after.recipes == before.recipes && after.maxDepth == before.maxDepth && after.blobs.Keys == before.blobs.Keys
    requires after.stored == before.stored + Members(AbsentLeaves(leaves))
    requires forall h :: h in before.blobs ==>
               after.blobs[h] == if h in Members(AbsentLeaves(leaves)) then before.blobs[h].(residency := Resident) else before.blobs[h]
    ensures IsSealed(before, after, leaves)
  {
    PiecesAre(before, leaves, _ => Streams);
    hide AbsentLeaves, Members, IsAbsentLeaf, PieceStreams;
  }

  lemma NoPieces(w: World, ix: Index, leaves: seq<RebuildInput>, blobs: map<Hash, BlobRow>)
    requires AbsentLeaves(leaves) == [] && ix.blobs == blobs && forall l :: l in leaves ==> l.hash in blobs && l.residency == blobs[l.hash].residency
    ensures IsSealed(w, w, leaves) && forall l :: l in leaves ==> l.hash in ResidentBlobs(blobs)
  {
    assert forall l :: l in leaves ==> l.residency == Resident by {
      assert forall l :: l in AbsentLeaves(leaves) <==> l in leaves && l.residency != Resident;
    }
  }

  /** The first `k` of the list are. */
  ghost predicate LicensedTo(turns: seq<World>, ids: seq<RecipeId>, verdicts: RecipeId -> Verdict, k: nat) {
    k < |turns| && k <= |ids| && forall j :: 0 <= j < k ==> Licenses(turns[j], ids[j], verdicts(ids[j]))
  }

  lemma LicensedNone(turns: seq<World>, ids: seq<RecipeId>, verdicts: RecipeId -> Verdict)
    requires turns != []
    ensures LicensedTo(turns, ids, verdicts, 0)
  {
  }

  lemma LicensedMore(turns: seq<World>, after: World, ids: seq<RecipeId>, verdicts: RecipeId -> Verdict, k: nat)
    requires k < |ids| && |turns| == k + 1 && LicensedTo(turns, ids, verdicts, k)
    ensures Licenses(turns[k], ids[k], verdicts(ids[k])) ==> LicensedTo(turns + [after], ids, verdicts, k + 1)
    ensures Licenses(turns[k], ids[k], verdicts(ids[k])) && k == |ids| - 1 ==> AllLicensed(turns + [after], ids, verdicts)
    ensures !Licenses(turns[k], ids[k], verdicts(ids[k])) ==> !AllLicensed(turns + [after], ids, verdicts)
  {
    hide Licenses;
    var more := turns + [after];
    assert forall j :: 0 <= j <= k ==> more[j] == turns[j];
  }

  ghost predicate AllLicensed(turns: seq<World>, ids: seq<RecipeId>, verdicts: RecipeId -> Verdict) {
    |turns| == |ids| + 1 && forall k :: 0 <= k < |ids| ==> Licenses(turns[k], ids[k], verdicts(ids[k]))
  }

  /** How a swap went on: what packing and licensing came to, the states between licences, the state then, and what was protected from the eviction. */
  datatype Swap = Swap(ready: Result<(), SwapSkip>, turns: seq<World>, last: State, protected: set<Hash>)

  /** The pack is written exactly when every absent leaf streams; then the routes are licensed, bottom-up and the rebuild route last. */
  ghost predicate Readied(before: World, s: State, leaves: Leaves, id: RecipeId, streams: Hash -> StreamVerdict, verdicts: RecipeId -> Verdict,
                          ready: Result<(), SwapSkip>, turns: seq<World>, last: State)
  {
    if !AllStream(before, leaves.inputs, streams)
    then ready == Err(PackFailed) && last.blobs == s.blobs && last.loose == s.loose && last.packed == s.packed
    else
      && turns != [] && IsSealed(before, turns[0], leaves.inputs) && LicenceTurns(turns[0], leaves.routes + [id], verdicts, turns)
      && Shows(last, turns[|turns| - 1])
      && ready == if AllLicensed(turns, leaves.routes + [id], verdicts) then Ok(()) else Err(LicenseFailed)
  }

  /** Then, and only then, the container is evicted the ordinary way. */
  ghost predicate Ended(swap: Swap, container: Hash, unread: bool, tags: seq<Tag>, snapshots: map<Hash, seq<SnapshotRow>>, after: State, r: Result<nat, SwapSkip>) {
    if swap.ready.Err? then r == Err(swap.ready.error) && after == swap.last
    else if unread then r == Err(PinsUnreadable) && after == swap.last
    else Evicting(swap.last, after, container, swap.protected, r) && forall h :: h in swap.protected <==> PinnedIn(swap.last, tags, snapshots, h)
  }

  /** The ordinary eviction of `h`, as the swap reports it. */
  ghost predicate Evicting(before: State, after: State, h: Hash, protected: set<Hash>, r: Result<nat, SwapSkip>) {
    && after == before.Tried(h, protected)
    && match before.Outcome(h, protected)
       case Evicted(bytes) => r == Ok(bytes)
       case Refused(why) => r == Err(EvictionBlocked(why))
  }

  /** A tag pins `h`: an input of a pinned image's route, or an opaque row of a pinned view. */
  ghost predicate PinnedIn(s: State, tags: seq<Tag>, snapshots: map<Hash, seq<SnapshotRow>>, h: Hash) {
    exists t :: t in tags &&
      match t
      case ImageTag(image) =>
        image in s.blobs && exists i :: 0 <= i < |s.recipes| && s.recipes[i].Claims(image) && s.recipes[i].verify != Failed && h in s.recipes[i].inputs
      case ViewTag(view) => view in snapshots && h in s.blobs && exists row :: row in snapshots[view] && row.seek == 2 && row.hash == h
      case OtherTag(_) => false
  }

  /** The leaf a swap cannot weigh. */
  ghost predicate FirstUnsized(leaves: seq<RebuildInput>, k: nat) {
    k < |leaves| && leaves[k].size.None? && forall j :: 0 <= j < k ==> leaves[j].size.Some?
  }

  /** Why the swap is not even tried; nothing is written then. */
  ghost function SwapGuard(ix: Index, id: RecipeId, container: Hash, reclaimMin: nat, available: Option<nat>): Option<SwapSkip>
    requires id < |ix.recipes|
  {
    var (size, leaves) := (ix.Row(container).size, CollectLeaves(ix, id).inputs);
    if size.None? then Some(NoSize(container))
    else if ix.recipes[id].inputs == [] then Some(NoInputs)
    else if exists k: nat :: FirstUnsized(leaves, k) then
      var k: nat :| FirstUnsized(leaves, k);
      Some(NoSize(leaves[k].hash))
    else if AbsentBytes(leaves, false) == 0 || (reclaimMin > 0 && size.value < reclaimMin + AbsentBytes(leaves, true)) then Some(BelowThreshold)
    else if available.Some? && available.value < AbsentBytes(leaves, false) + 0x1000_0000 then Some(NoHeadroom)
    else None
  }

  /** Bytes of the leaves that are not resident; with `sole`, of those that no second route rebuilds. */
  ghost function AbsentBytes(leaves: seq<RebuildInput>, sole: bool): nat {
    if leaves == [] then 0
    else
      var (n, l) := (|leaves| - 1, leaves[|leaves| - 1]);
      AbsentBytes(leaves[..n], sole) + if l.residency != Resident && (sole ==> l.coveringClaims <= 1) && l.size.Some? then l.size.value else 0
  }

  lemma TurnsStart(w: World, ids: seq<RecipeId>, verdicts: RecipeId -> Verdict)
    ensures LicenceTurns(w, ids, verdicts, [w])
  {
  }

  lemma TurnsMore(before: World, ids: seq<RecipeId>, verdicts: RecipeId -> Verdict, turns: seq<World>, after: World)
    requires LicenceTurns(before, ids, verdicts, turns) && |turns| <= |ids|
    requires LicensedTo(turns, ids, verdicts, |turns| - 1)
    requires var k := |turns| - 1; LicenceTurn(turns[k], ids[k], k == |ids| - 1, verdicts(ids[k]), after)
    ensures LicenceTurns(before, ids, verdicts, turns + [after]) && turns[0] == before == (turns + [after])[0]
  {
    hide LicenceTurn, Licenses;
    var more := turns + [after];
    assert more[|turns|] == after && forall k :: 0 <= k < |turns| ==> more[k] == turns[k];
  }

  class Executor {
    var blobs: map<Hash, BlobRow>
    var recipes: Recipes
    var tags: seq<Tag>
    var snapshots: map<Hash, seq<SnapshotRow>>
    /** Data-namespace bytes by length: loose files, members of sealed packs; and retained outboards. */
    var loose: map<Hash, nat>
    var packed: map<Hash, nat>
    var outboards: set<Hash>
    var compiled: set<Hash>
    const maxDepth: nat

    ghost predicate Valid()
      reads this
    {
      && ResidentBlobs(blobs) <= loose.Keys + packed.Keys
      && AllRowed(blobs, recipes)
    }

    function Planner(): World
      reads this
    {
      World(blobs, recipes, loose.Keys + packed.Keys, compiled + loose.Keys + packed.Keys, maxDepth)
    }

    lemma PlannerIndexed()
      requires Valid()
      ensures Planner().Indexed()
    {
    }

    constructor (maxDepth: nat)
      ensures Valid() && this.maxDepth == maxDepth
      ensures blobs == map[] && recipes == [] && loose == map[] && packed == map[] && outboards == {} && compiled == {}
    {
      this.maxDepth := maxDepth;
      blobs, recipes, tags, snapshots := map[], [], [], map[];
      loose, packed, outboards, compiled := map[], map[], {}, {};
    }

    // ---- Planning ----

    /** `plan`: push the blob, try its routes in table order, pop on every way out. */
    method Plan(h: Hash, depth: nat, visiting: Visiting) returns (r: PlanResult)
      requires depth <= maxDepth + 1
      modifies visiting, this`compiled
      ensures visiting.stack == old(visiting.stack)
      ensures Planner() == old(Planner())
      ensures r == PlanBlob(Planner(), h, depth, visiting.stack)
      decreases maxDepth + 1 - depth, 1
    {
      if depth > maxDepth {
        return Err(Depth);
      }
      if h in visiting.stack {
        return Err(Cycle(h));
      }
      if h in loose || h in packed {
        return Ok(Literal(h));
      }
      if h !in blobs {
        return Err(NoRoute(h));
      }
      ghost var path := visiting.stack + [h];
      ghost var w := Planner();
      visiting.stack := visiting.stack + [h];
      var last := NoRoute(h);
      var i := 0;
      while i < |recipes|
        invariant i <= |recipes|
        invariant visiting.stack == path && Planner() == w
        invariant PlanBlob(w, h, depth, old(visiting.stack)) == PlanRoutes(w, h, depth, path, i, last)
      {
        if recipes[i].Claims(h) && recipes[i].verify != Failed {
          var attempt := PlanOne(i, h, depth, visiting);
          if attempt.Ok? {
            visiting.stack := visiting.stack[..|visiting.stack| - 1];
            return attempt;
          }
          last := attempt.error;
        }
        i := i + 1;
      }
      visiting.stack := visiting.stack[..|visiting.stack| - 1];
      return Err(last);
    }

    /** `load_component`: served from the compile cache, else compiled out of the store. */
    method LoadComponent(c: Hash) returns (ok: bool)
      modifies this`compiled
      ensures ok <==> c in Planner().loadable
      ensures Planner() == old(Planner())
      ensures compiled == if ok then old(compiled) + {c} else old(compiled)
    {
      if c in compiled {
        assert compiled == compiled + {c};
        return true;
      }
      ok := c in loose || c in packed;
      if ok {
        ghost var w := Planner();
        compiled := compiled + {c};
        assert Planner().loadable == w.loadable;
      }
    }

    /** `plan_recipe`: load the component (compiling it once), then plan each input one level down. */
    method PlanOne(id: RecipeId, target: Hash, depth: nat, visiting: Visiting) returns (r: PlanResult)
      requires depth <= maxDepth && id < |recipes|
      modifies visiting, this`compiled
      ensures visiting.stack == old(visiting.stack)
      ensures Planner() == old(Planner())
      ensures r == PlanRecipe(Planner(), target, depth, visiting.stack, id)
      decreases maxDepth + 1 - depth, 0
    {
      var recipe := recipes[id];
      ghost var w := Planner();
      if recipe.component.Some? {
        var loaded := LoadComponent(recipe.component.value);
        if !loaded {
          return Err(NoRoute(recipe.component.value));
        }
      }
      var children: seq<Plan> := [];
      var j := 0;
      ghost var all := PlanInputs(w, recipe.inputs, depth, visiting.stack, 0);
      assert all.Ok? ==> [] + all.value == all.value;
      while j < |recipe.inputs|
        invariant j <= |recipe.inputs| && |children| == j
        invariant visiting.stack == old(visiting.stack) && Planner() == w
        invariant var rest := PlanInputs(w, recipe.inputs, depth, visiting.stack, j);
                  if rest.Ok? then all == Ok(children + rest.value) else all == Err(rest.error)
      {
        ghost var rest := PlanInputs(w, recipe.inputs, depth, visiting.stack, j + 1);
        var child := Plan(recipe.inputs[j], depth + 1, visiting);
        if child.Err? {
          return Err(child.error);
        }
        assert rest.Ok? ==> children + ([child.value] + rest.value) == (children + [child.value]) + rest.value;
        children := children + [child.value];
        j := j + 1;
      }
      assert children + [] == children;
      return Ok(Op(target, id, children));
    }

    // ---- Replay and licensing ----

    /**
     `execute_with` up to the operator itself: the op must resolve and every
     input must plan, one level below the recipe. Returns the recipes that run
     inside those plans.
     */
    method Prepare(id: RecipeId) returns (r: Result<set<RecipeId>, PlanError>)
      requires id < |recipes|
      modifies this`compiled
      ensures Planner() == old(Planner())
      ensures var plan := PlanRecipe(Planner(), 0, 0, [], id);
              r == if plan.Ok? then Ok(PlansRecipes(plan.value.children)) else Err(plan.error)
    {
      var visiting := new Visiting();
      var plan := PlanOne(id, 0, 0, visiting);
      if plan.Err? {
        return Err(plan.error);
      }
      return Ok(PlansRecipes(plan.value.children));
    }

    /** `replay`: run the recipe and publish every output, licensing it (D25); a disproof poisons it. */
    method Replay(id: RecipeId, verdict: Verdict) returns (r: Result<(), ReplayError>)
      requires Valid() && id < |recipes|
      modifies this`compiled, this`recipes, this`blobs, this`loose, this`outboards
      ensures Valid()
      ensures r == Answer(old(Planner()), id, verdict)
      ensures r.Ok? ==> Relicensed(old(Planner()), id, recipes)
      ensures r.Ok? ==>
        && RowsPublished(old(blobs), blobs, old(recipes[id].outputs)) && FilesStored(old(loose), loose, old(recipes[id].outputs))
        && outboards == old(outboards) + Hashes(old(recipes[id].outputs))
      ensures r == Err(ClaimFailure) ==> recipes == old(recipes)[id := old(recipes)[id].(verify := Failed)]
      ensures r.Err? && r.error != ClaimFailure ==> recipes == old(recipes)
      ensures r.Err? ==> blobs == old(blobs)
      ensures r.Err? && (r.error.Poisoned? || r.error.NoPlan?) ==> loose == old(loose) && outboards == old(outboards)
      ensures r.Err? && (r.error.ClaimFailure? || r.error.Environment?) ==>
        && !verdict.Proved? && FilesStored(old(loose), loose, Left(old(recipes[id].outputs), verdict.handed))
        && outboards == old(outboards) + Hashes(Left(old(recipes[id].outputs), verdict.handed))
      ensures Planner().loadable == old(Planner()).loadable + (Planner().stored - old(Planner()).stored)
    {
      hide Published, Stored, Left, PlanRecipe, PlansRecipes, AllRowed, RowsPublished, FilesStored, Relicensed, Licensed;
      ghost var w := Planner();
      var row := recipes[id];
      if row.verify == Failed {
        return Err(Poisoned);
      }
      var prepared := Prepare(id);
      if prepared.Err? {
        return Err(NoPlan(prepared.error));
      }
      match verdict {
        case Proved =>
          LicensedExactly(w, id);
          LicenseGrows(recipes, id, prepared.value);
          RowedKeeps(blobs, recipes, Licensed(recipes, id, prepared.value));
          recipes := Licensed(recipes, id, prepared.value);
          Publish(row.outputs);
          return Ok(());
        case Disproved(handed) =>
          Leave(row.outputs, handed);
          RowedKeeps(blobs, recipes, SetVerify(recipes, id, Failed));
          recipes := SetVerify(recipes, id, Failed);
          return Err(ClaimFailure);
        case Undecided(handed) =>
          Leave(row.outputs, handed);
          return Err(Environment);
      }
    }

    /** Every output is in the store and its row resident. */
    method Publish(outs: seq<Claim>)
      requires Valid()
      modifies this`blobs, this`loose, this`outboards
      ensures Valid() && old(loose).Keys <= loose.Keys
      ensures RowsPublished(old(blobs), blobs, outs) && FilesStored(old(loose), loose, outs) && outboards == old(outboards) + Hashes(outs)
    {
      PublishedGrows(blobs, loose, outs);
      PublishedExactly(blobs, outs);
      StoredExactly(loose, outs);
      blobs := Published(blobs, outs);
      loose := Stored(loose, outs);
      outboards := outboards + Hashes(outs);
    }

    /** The bytes of outputs that were consumed before the run failed stay in the store; no index row changes. */
    method Leave(outs: seq<Claim>, handed: set<Hash>)
      requires Valid()
      modifies this`loose, this`outboards
      ensures Valid() && old(loose).Keys <= loose.Keys
      ensures FilesStored(old(loose), loose, Left(outs, handed)) && outboards == old(outboards) + Hashes(Left(outs, handed))
    {
      PublishedGrows(blobs, loose, Left(outs, handed));
      StoredExactly(loose, Left(outs, handed));
      loose := Stored(loose, Left(outs, handed));
      outboards := outboards + Hashes(Left(outs, handed));
    }

    /** `license`: the same proof over a hashing sink, publishing nothing (D116). */
    method LicenseOnly(id: RecipeId, verdict: Verdict) returns (r: Result<(), ReplayError>)
      requires Valid() && id < |recipes|
      modifies this`compiled, this`recipes
      ensures Valid()
      ensures r == Answer(old(Planner()), id, verdict)
      ensures r.Ok? ==> Relicensed(old(Planner()), id, recipes)
      ensures r == Err(ClaimFailure) ==> recipes == old(recipes)[id := old(recipes)[id].(verify := Failed)]
      ensures r.Err? && r.error != ClaimFailure ==> recipes == old(recipes)
      ensures Planner().stored == old(Planner()).stored && Planner().loadable == old(Planner()).loadable
    {
      hide PlanRecipe, PlansRecipes, AllRowed, Relicensed, Licensed;
      ghost var w := Planner();
      if recipes[id].verify == Failed {
        return Err(Poisoned);
      }
      var prepared := Prepare(id);
      if prepared.Err? {
        return Err(NoPlan(prepared.error));
      }
      match verdict {
        case Proved =>
          LicensedExactly(w, id);
          LicenseGrows(recipes, id, prepared.value);
          RowedKeeps(blobs, recipes, Licensed(recipes, id, prepared.value));
          recipes := Licensed(recipes, id, prepared.value);
          return Ok(());
        case Disproved(_) =>
          RowedKeeps(blobs, recipes, SetVerify(recipes, id, Failed));
          recipes := SetVerify(recipes, id, Failed);
          return Err(ClaimFailure);
        case Undecided(_) =>
          return Err(Environment);
      }
    }

    // ---- Eviction ----

    /** Does a tag pin `h`: an input of a pinned image's route, or an opaque row of a pinned view? */
    ghost predicate Pinned(h: Hash, n: nat)
      requires n <= |tags|
      reads this
    {
      exists t :: 0 <= t < n && PinnedBy(tags[t], h)
    }

    ghost predicate PinnedBy(tag: Tag, h: Hash)
      reads this
    {
      match tag
      case ImageTag(image) =>
        image in blobs && exists i :: 0 <= i < |recipes| && recipes[i].Claims(image) && recipes[i].verify != Failed && h in recipes[i].inputs
      case ViewTag(view) =>
        view in snapshots && h in blobs && exists row :: row in snapshots[view] && row.seek == 2 && row.hash == h
      case OtherTag(_) => false
    }

    /** `pinned_protected_set`: a tag naming a missing snapshot is an error, never an empty protection. */
    method PinnedProtectedSet() returns (r: Option<set<Hash>>)
      ensures r.None? <==> exists t :: t in tags && t.ViewTag? && t.hash !in snapshots
      ensures r.Some? ==> forall h :: h in r.value <==> Pinned(h, |tags|)
    {
      var protected: set<Hash> := {};
      var t := 0;
      while t < |tags|
        invariant t <= |tags|
        invariant forall u :: 0 <= u < t && tags[u].ViewTag? ==> tags[u].hash in snapshots
        invariant forall h :: h in protected <==> Pinned(h, t)
      {
        ghost var before := protected;
        match tags[t] {
          case ImageTag(image) =>
            if image in blobs {
              protected := protected + set i, x | 0 <= i < |recipes| && recipes[i].Claims(image) && recipes[i].verify != Failed && x in recipes[i].inputs :: x;
            }
          case ViewTag(view) =>
            if view !in snapshots {
              assert tags[t] in tags;
              return None;
            }
            protected := protected + set row | row in snapshots[view] && row.seek == 2 && row.hash in blobs :: row.hash;
          case OtherTag(_) =>
        }
        assert forall h :: h in protected <==> h in before || PinnedBy(tags[t], h);
        t := t + 1;
      }
      return Some(protected);
    }

    ghost function Now(): State
      reads this
    {
      State(blobs, recipes, loose, packed)
    }

    /**
     `evict_with`: drop one loose file if every safety rule passes. Drop safety
     is the same before and after, for every blob.
     */
    method EvictWith(h: Hash, protected: set<Hash>) returns (outcome: EvictOutcome)
      requires Valid()
      modifies this`blobs, this`loose, this`outboards
      ensures Valid()
      ensures Now() == old(Now()).Tried(h, protected) && outcome == old(Now()).Outcome(h, protected)
      ensures outboards == old(outboards) + if outcome.Evicted? then {h} else {}
      ensures forall x :: old(Safe(blobs, recipes, x)) <==> Safe(blobs, recipes, x)
      ensures Planner() == old(Planner()) || DropStep(old(Planner()), Planner())
      ensures outcome.Refused? ==> Planner() == old(Planner())
    {
      hide ReplayedRules, Grounded;
      ghost var before := Planner();
      if h !in blobs || blobs[h].residency != Resident || (h !in loose && h !in packed) {
        return Refused(NotResident);
      }
      if h in protected {
        return Refused(PinnedByView);
      }
      if h !in loose {
        return Refused(IsPacked);
      }
      var ok := IsEvictable(blobs, recipes, h);
      if !ok {
        var i := 0;
        while i < |recipes|
          invariant i <= |recipes|
          invariant forall j :: 0 <= j < i ==> !(recipes[j].Claims(h) && recipes[j].verify != Failed)
        {
          if recipes[i].Claims(h) && recipes[i].verify != Failed {
            return Refused(NeedsReplay);
          }
          i := i + 1;
        }
        return Refused(NotGrounded);
      }
      // The outboard is kept: recipe-served reads verify against it (D49).
      outboards := outboards + {h};
      var row := blobs[h];
      outcome := Evicted(if row.size.Some? then row.size.value else loose[h]);
      loose := loose - {h};
      if h in packed {
        assert blobs == blobs[h := row.(residency := Resident)];
        assert ResidentBlobs(blobs) <= loose.Keys + packed.Keys;
        assert Planner() == before;
      } else {
        SafeAfterDrop(blobs, recipes, h, row.(residency := EvictedCovered));
        ghost var rows := blobs;
        blobs := blobs[h := row.(residency := EvictedCovered)];
        assert ResidentBlobs(blobs) == ResidentBlobs(rows) - {h};
        assert Dropped(before, Planner(), h);
      }
    }

    /** The same as a run of at most one step. */
    method EvictStep(h: Hash, protected: set<Hash>) returns (outcome: EvictOutcome, ghost run: seq<World>)
      requires Valid()
      modifies this`blobs, this`loose, this`outboards
      ensures Valid()
      ensures Now() == old(Now()).Tried(h, protected) && outcome == old(Now()).Outcome(h, protected)
      ensures forall x :: old(Safe(blobs, recipes, x)) <==> Safe(blobs, recipes, x)
      ensures Run(run) && run != [] && OnlyDrops(run) && run[0] == old(Planner()) && run[|run| - 1] == Planner()
    {
      hide Run, OnlyDrops, DropStep, GainStep, World.Indexed, AllRowed, State.Gate, Grounded, Safe;
      ghost var w := Planner();
      PlannerIndexed();
      RunStay(w);
      outcome := EvictWith(h, protected);
      PlannerIndexed();
      run := [w];
      if Planner() != w {
        RunStep(w, Planner());
        run := [w, Planner()];
      }
    }

    /** What every eviction run keeps, relative to its start. */
    twostate predicate Kept(protected: set<Hash>)
      reads this
    {
      && Valid()
      && SameGraph(old(recipes), recipes)
      && packed == old(packed) && tags == old(tags) && snapshots == old(snapshots)
      && (forall h :: old(Safe(blobs, recipes, h)) ==> Safe(blobs, recipes, h))
      && forall h :: h in protected && h in old(loose) ==> h in loose
    }

    /**
     `evict_covered`: walk the candidates until at most `target` bytes stay
     resident; with `license` set, replay Verified routes of the remaining pool
     to license their drops. Whatever order the candidates come in, and whatever
     the replays prove or poison, drop safety never shrinks and nothing a pin
     protects is dropped. `run` is what planning sees along the way, `pass` and
     `turns` are what became of the candidates and of the pool.
     */
    method EvictCovered(residentBytes: nat, target: nat, candidates: seq<Hash>, license: bool, pool: seq<Hash>,
                        verdicts: RecipeId -> Verdict)
      returns (r: Option<EvictReport>, ghost run: seq<World>, ghost pass: Pass, ghost turns: seq<PoolTurn>)
      requires Valid()
      modifies this`compiled, this`recipes, this`blobs, this`loose, this`outboards
      ensures Valid() && SameGraph(old(recipes), recipes)
      ensures forall h :: old(Safe(blobs, recipes, h)) ==> Safe(blobs, recipes, h)
      ensures Run(run) && run[0] == old(Planner()) && run[|run| - 1] == Planner() && (!license ==> OnlyDrops(run))
      ensures |recipes| <= maxDepth && AllKeepRoutes(run) ==> StaysPlanned(old(Planner()), Planner())
      ensures |recipes| <= maxDepth && !license && StaysPlanned(old(Planner()), Planner()) ==> AllKeepRoutes(run)
      ensures forall i :: 0 <= i < |recipes| && recipes[i].verify == ReplayedLocal && old(recipes)[i].verify != ReplayedLocal ==>
                exists k :: 0 < k < |run| && ProvedIn(run[k - 1], run[k], i)
      ensures forall h :: old(Pinned(h, |tags|)) && h in old(loose) ==> h in loose
      ensures residentBytes <= target ==> r == Some(EvictReport(0, 0, [], 0)) && Now() == old(Now())
      ensures residentBytes > target && old(PinsUnread()) ==> r.None? && Now() == old(Now())
      ensures residentBytes > target && !old(PinsUnread()) ==>
        && (forall h :: h in pass.protected <==> old(Pinned(h, |tags|)))
        && PassIs(old(Now()), pass.after, candidates, pass.protected, pass.gates, pass.report)
        && GoesOn(old(Now()), candidates, pass.gates, residentBytes, target)
        && if !license || residentBytes <= target + pass.report.bytesReclaimed
           then r == Some(pass.report) && Now() == pass.after
           else PoolPass(pass.after, Now(), pool, pass.protected, verdicts, pass.report, turns, r, residentBytes, target)
    {
      r, run, pass, turns := EvictRun(residentBytes, target, candidates, license, pool, verdicts);
      hide *;
      RunPlans(run);
      LicencesOf(run);
    }

    method EvictRun(residentBytes: nat, target: nat, candidates: seq<Hash>, license: bool, pool: seq<Hash>, verdicts: RecipeId -> Verdict)
      returns (r: Option<EvictReport>, ghost run: seq<World>, ghost pass: Pass, ghost turns: seq<PoolTurn>)
      requires Valid()
      modifies this`compiled, this`recipes, this`blobs, this`loose, this`outboards
      ensures Valid() && SameGraph(old(recipes), recipes)
      ensures forall h :: old(Safe(blobs, recipes, h)) ==> Safe(blobs, recipes, h)
      ensures Run(run) && run[0] == old(Planner()) && run[|run| - 1] == Planner() && (!license ==> OnlyDrops(run))
      ensures forall h :: old(Pinned(h, |tags|)) && h in old(loose) ==> h in loose
      ensures residentBytes <= target ==> r == Some(EvictReport(0, 0, [], 0)) && Now() == old(Now())
      ensures residentBytes > target && old(PinsUnread()) ==> r.None? && Now() == old(Now())
      ensures residentBytes > target && !old(PinsUnread()) ==>
        && (forall h :: h in pass.protected <==> old(Pinned(h, |tags|)))
        && PassIs(old(Now()), pass.after, candidates, pass.protected, pass.gates, pass.report)
        && GoesOn(old(Now()), candidates, pass.gates, residentBytes, target)
        && if !license || residentBytes <= target + pass.report.bytesReclaimed
           then r == Some(pass.report) && Now() == pass.after
           else PoolPass(pass.after, Now(), pool, pass.protected, verdicts, pass.report, turns, r, residentBytes, target)
    {
      hide DropStep, GainStep, World.Indexed, PassIs, GoesOn, PoolPass, Executor.Pinned, Safe, AllRowed, Run, OnlyDrops;
      var report := EvictReport(0, 0, [], 0);
      pass, turns, run := Pass({}, [], report, Now()), [], [Planner()];
      PlannerIndexed();
      RunStay(Planner());
      if residentBytes <= target {
        return Some(report), run, pass, turns;
      }
      var protected := PinnedProtectedSet();
      if protected.None? {
        return None, run, pass, turns;
      }
      ghost var gates;
      report, run, gates := EvictLicensed(residentBytes, target, candidates, protected.value);
      pass := Pass(protected.value, gates, report, Now());
      if !license || residentBytes <= target + report.bytesReclaimed {
        return Some(report), run, pass, turns;
      }
      ghost var more;
      r, more, turns := LicenseThenEvict(residentBytes, target, pool, protected.value, verdicts, report);
      RunJoin(run, more);
      run := run + more[1..];
    }

    /** A view tag names a snapshot that is not there. */
    ghost predicate PinsUnread()
      reads this
    {
      exists t :: t in tags && t.ViewTag? && t.hash !in snapshots
    }

    /** The first pass: candidates whose routes are licensed already. */
    method EvictLicensed(residentBytes: nat, target: nat, candidates: seq<Hash>, protected: set<Hash>)
      returns (report: EvictReport, ghost run: seq<World>, ghost gates: seq<Option<Blocked>>)
      requires Valid()
      modifies this`blobs, this`loose, this`outboards
      ensures Kept(protected)
      ensures Run(run) && run != [] && OnlyDrops(run) && run[0] == old(Planner()) && run[|run| - 1] == Planner()
      ensures PassIs(old(Now()), Now(), candidates, protected, gates, report) && GoesOn(old(Now()), candidates, gates, residentBytes, target)
    {
      hide DropStep, GainStep, World.Indexed, Executor.Planner, AllRowed, Safe, Grounded, PassIs, Run, OnlyDrops;
      report, run, gates := EvictReport(0, 0, [], 0), [Planner()], [];
      ghost var before := Now();
      PlannerIndexed();
      RunStay(Planner());
      PassStarts(before, candidates, protected);
      var resident := residentBytes;
      var k := 0;
      while k < |candidates| && resident > target
        invariant k <= |candidates| && |gates| == k
        invariant Kept(protected)
        invariant Run(run) && OnlyDrops(run) && run != [] && run[0] == old(Planner()) && run[|run| - 1] == Planner()
        invariant PassIs(before, Now(), candidates, protected, gates, report)
        invariant report.bytesReclaimed == Freed(before, candidates, gates, k)
        invariant forall n :: 0 <= n < k ==> residentBytes > target + Freed(before, candidates, gates, n)
        invariant resident == if report.bytesReclaimed < residentBytes then residentBytes - report.bytesReclaimed else 0
      {
        ghost var now := Now();
        ghost var gate := now.Gate(candidates[k], protected);
        PassNext(before, now, candidates, protected, gates, report);
        FreedKeeps(before, candidates, gates, gate);
        var outcome;
        ghost var more;
        outcome, more := EvictStep(candidates[k], protected);
        RunJoin(run, more);
        run := run + more[1..];
        gates := gates + [gate];
        report := Record(report, candidates[k], outcome);
        FreedOf(before, Now(), candidates, protected, gates, report);
        resident := if outcome.Evicted? then (if outcome.bytesReclaimed < resident then resident - outcome.bytesReclaimed else 0) else resident;
        k := k + 1;
      }
    }

    /** The second pass: license each pool blob by replay, then evict it. */
    method LicenseThenEvict(residentBytes: nat, target: nat, pool: seq<Hash>, protected: set<Hash>,
                            verdicts: RecipeId -> Verdict, soFar: EvictReport)
      returns (r: Option<EvictReport>, ghost run: seq<World>, ghost turns: seq<PoolTurn>)
      requires Valid()
      modifies this`compiled, this`recipes, this`blobs, this`loose, this`outboards
      ensures Kept(protected)
      ensures Run(run) && run != [] && run[0] == old(Planner()) && run[|run| - 1] == Planner()
      ensures PoolPass(old(Now()), Now(), pool, protected, verdicts, soFar, turns, r, residentBytes, target)
    {
      hide Run, DropStep, GainStep, World.Indexed, Executor.Planner, AllRowed, Safe, Grounded, PoolTurnIs, PoolSoFar, Reported;
      PoolStarts(Now(), pool, protected, verdicts, soFar);
      var report := soFar;
      run, turns := [Planner()], [];
      PlannerIndexed();
      RunStay(Planner());
      var resident := if report.bytesReclaimed < residentBytes then residentBytes - report.bytesReclaimed else 0;
      var k := 0;
      while k < |pool| && resident > target
        invariant k <= |pool| && |turns| == k
        invariant Kept(protected)
        invariant Run(run) && run != [] && run[0] == old(Planner()) && run[|run| - 1] == Planner()
        invariant PoolSoFar(old(Now()), Now(), pool, protected, verdicts, turns) && forall j :: 0 <= j < k ==> turns[j].result.Some?
        invariant report == Reported(soFar, pool, turns, k)
        invariant forall n :: 0 <= n < k ==> residentBytes > target + Reported(soFar, pool, turns, n).bytesReclaimed
        invariant resident == if report.bytesReclaimed < residentBytes then residentBytes - report.bytesReclaimed else 0
      {
        ghost var more, turn;
        var outcome;
        ghost var now := Now();
        outcome, more, turn := LicenseAndEvict(pool[k], protected, verdicts);
        RunJoin(run, more);
        run := run + more[1..];
        PoolNext(old(Now()), now, pool, protected, verdicts, soFar, turns, turn);
        turns := turns + [turn];
        if outcome.None? {
          return None, run, turns;
        }
        ReportedOne(soFar, pool, turns);
        report := Record(report, pool[k], outcome.value.0).(replays := report.replays + outcome.value.1);
        resident := if outcome.value.0.Evicted? then (if outcome.value.0.bytesReclaimed < resident then resident - outcome.value.0.bytesReclaimed else 0) else resident;
        k := k + 1;
      }
      return Some(report), run, turns;
    }

    /** One pool blob; a licensing replay is never spent on a pinned one. */
    method LicenseAndEvict(h: Hash, protected: set<Hash>, verdicts: RecipeId -> Verdict)
      returns (r: Option<(EvictOutcome, nat)>, ghost run: seq<World>, ghost turn: PoolTurn)
      requires Valid()
      modifies this`compiled, this`recipes, this`blobs, this`loose, this`outboards
      ensures Kept(protected)
      ensures Run(run) && run != [] && run[0] == old(Planner()) && run[|run| - 1] == Planner()
      ensures turn.before == old(Now()) && turn.after == Now() && turn.result == r && PoolTurnIs(turn, h, protected, verdicts)
    {
      hide Run, DropStep, GainStep, World.Indexed, AllRowed, Grounded, Trials, Trialled, State.Tried, State.Outcome, Safe, ReplayedRules, ResidentBlobs, PoolTurnIs,
           World.Usable;
      ghost var before := Now();
      PlannerIndexed();
      RunStay(Planner());
      run, turn := [Planner()], PoolTurn([], [Planner()], before, before, Some((Refused(PinnedByView), 0)), before);
      if h in protected {
        PinnedTurn(before, Planner(), h, protected, verdicts);
        return Some((Refused(PinnedByView), 0)), run, turn;
      }
      ghost var ids;
      var licensed;
      licensed, ids, run := LicenseOne(h, verdicts);
      AllSafeMonotone(old(blobs), old(recipes), blobs, recipes);
      turn := PoolTurn(ids, run, before, Now(), None, Now());
      if licensed.Err? {
        TriedTurn(turn, h, protected, verdicts, licensed);
        return None, run, turn;
      }
      if !licensed.value {
        turn := turn.(result := Some((Refused(NeedsReplay), 0)));
        TriedTurn(turn, h, protected, verdicts, licensed);
        return Some((Refused(NeedsReplay), 0)), run, turn;
      }
      ghost var more;
      var outcome;
      outcome, more := EvictStep(h, protected);
      KeepsProtected(turn.between, h, protected);
      RunJoin(run, more);
      run := run + more[1..];
      turn := turn.(result := Some((outcome, 1)), after := Now());
      TriedTurn(turn, h, protected, verdicts, licensed);
      return Some((outcome, 1)), run, turn;
    }

    /**
     Replay the Verified routes of `h` in table order until one licenses it. A
     disproved route is poisoned and the next one tried; any other failure ends
     the run. Drop safety never shrinks, because a Verified route never counted.
     */
    method LicenseOne(h: Hash, verdicts: RecipeId -> Verdict) returns (r: Result<bool, ReplayError>, ghost ids: seq<RecipeId>, ghost run: seq<World>)
      requires Valid()
      modifies this`compiled, this`recipes, this`blobs, this`loose, this`outboards
      ensures Valid() && SameGraph(old(recipes), recipes)
      ensures ReplayedRules(old(recipes)) <= ReplayedRules(recipes)
      ensures ResidentBlobs(old(blobs)) <= ResidentBlobs(blobs)
      ensures old(loose).Keys <= loose.Keys
      ensures Run(run) && run != [] && run[0] == old(Planner()) && run[|run| - 1] == Planner()
      ensures InBounds(ids, run) && Trials(h, verdicts, ids, run) && r == Trialled(verdicts, ids, run)
      ensures r == Ok(true) ==> exists i :: 0 <= i < |recipes| && recipes[i].Claims(h) && recipes[i].verify == ReplayedLocal
      ensures r == Ok(false) ==> forall i :: 0 <= i < |recipes| && recipes[i].Claims(h) ==> recipes[i].verify != Verified
    {
      hide ReplayedRules, ResidentBlobs, AllRowed, Run, OpenRoute, World.Indexed, DisprovedSoFar, Trials, Trialled, InBounds, SameGraph, Safe, Grounded,
           Left, Hashes, Published, Stored;
      ids, run := [], [Planner()];
      PlannerIndexed();
      RunStay(Planner());
      TrialsStart(h, verdicts, Planner());
      SameStill(recipes);
      var i := 0;
      while i < |recipes|
        invariant i <= |recipes| == |old(recipes)|
        invariant Valid() && SameGraph(old(recipes), recipes)
        invariant ReplayedRules(old(recipes)) <= ReplayedRules(recipes)
        invariant blobs == old(blobs) && old(loose).Keys <= loose.Keys
        invariant forall j :: 0 <= j < i && recipes[j].Claims(h) ==> recipes[j].verify != Verified
        invariant forall j :: i <= j < |recipes| ==> recipes[j] == old(recipes)[j]
        invariant Run(run) && |run| == |ids| + 1 && run[0] == old(Planner()) && run[|ids|] == Planner()
        invariant DisprovedSoFar(h, verdicts, ids, run, i)
      {
        assert OpenRoute(run[0], h, i) <==> recipes[i].Claims(h) && recipes[i].verify == Verified by {
          OpenHere(run[0], h, i);
        }
        if recipes[i].Claims(h) && recipes[i].verify == Verified {
          ghost var rs := recipes;
          var attempt;
          attempt, ids, run := TryNext(h, i, verdicts, ids, run);
          SameThen(old(recipes), rs, recipes);
          if attempt.Ok? {
            return Ok(true), ids, run;
          }
          if attempt.error != ClaimFailure {
            return Err(attempt.error), ids, run;
          }
        } else {
          TrialsSkip(h, verdicts, ids, run, i);
        }
        i := i + 1;
      }
      TrialsEnd(h, verdicts, ids, run, i);
      return Ok(false), ids, run;
    }

    /** One trial more. */
    method TryNext(h: Hash, i: RecipeId, verdicts: RecipeId -> Verdict, ghost ids0: seq<RecipeId>, ghost run0: seq<World>)
      returns (r: Result<(), ReplayError>, ghost ids: seq<RecipeId>, ghost run: seq<World>)
      requires Valid() && i < |recipes| && recipes[i].verify == Verified
      requires Run(run0) && |run0| == |ids0| + 1 && run0[|ids0|] == Planner() && OpenRoute(run0[0], h, i) && DisprovedSoFar(h, verdicts, ids0, run0, i)
      modifies this`compiled, this`recipes, this`blobs, this`loose, this`outboards
      ensures Valid() && SameGraph(old(recipes), recipes)
      ensures ReplayedRules(old(recipes)) <= ReplayedRules(recipes) && ResidentBlobs(old(blobs)) <= ResidentBlobs(blobs)
      ensures old(loose).Keys <= loose.Keys && (r.Err? ==> blobs == old(blobs))
      ensures r.Ok? ==> recipes[i].verify == ReplayedLocal
      ensures r == Err(ClaimFailure) ==> recipes == SetVerify(old(recipes), i, Failed)
      ensures Run(run) && |run| == |ids| + 1 && run[0] == run0[0] && run[|ids|] == Planner()
      ensures r == Err(ClaimFailure) ==> DisprovedSoFar(h, verdicts, ids, run, i + 1)
      ensures r != Err(ClaimFailure) ==> Trials(h, verdicts, ids, run) && InBounds(ids, run)
      ensures r != Err(ClaimFailure) ==> InBounds(ids, run) && Trialled(verdicts, ids, run) == if r.Ok? then Ok(true) else Err(r.error)
    {
      hide ReplayedRules, ResidentBlobs, AllRowed, Run, ReplayStep, GainStep, DropStep, Answer, World.Indexed, DisprovedSoFar, Trials, Trialled, InBounds, OpenRoute,
           SameGraph;
      ghost var w := Planner();
      r := TryRoute(i, verdicts(i));
      PlannerIndexed();
      IsGain(w, i, verdicts(i), Planner());
      OneGain(run0, Planner());
      TrialsMore(h, verdicts, ids0, run0, i, Planner());
      assert [w, Planner()][1..] == [Planner()];
      ids, run := ids0 + [i], run0 + [Planner()];
    }

    /** Replay a Verified route: it ends licensed or poisoned, or nothing changes but bytes in the store. */
    method TryRoute(i: RecipeId, verdict: Verdict) returns (r: Result<(), ReplayError>)
      requires Valid() && i < |recipes| && recipes[i].verify == Verified
      modifies this`compiled, this`recipes, this`blobs, this`loose, this`outboards
      ensures Valid() && SameGraph(old(recipes), recipes)
      ensures ReplayedRules(old(recipes)) <= ReplayedRules(recipes) && ResidentBlobs(old(blobs)) <= ResidentBlobs(blobs)
      ensures old(loose).Keys <= loose.Keys && (r.Err? ==> blobs == old(blobs))
      ensures r == Answer(old(Planner()), i, verdict) && ReplayStep(old(Planner()), i, verdict, Planner())
      ensures r.Ok? ==> recipes[i].verify == ReplayedLocal
      ensures r == Err(ClaimFailure) ==> recipes == SetVerify(old(recipes), i, Failed)
      ensures r.Err? && r.error != ClaimFailure ==> recipes == old(recipes)
    {
      hide Left, Answer, RunsInside, AllRowed, Hashes, Relicensed, RowsPublished, ResidentBlobs, ReplayStep;
      ghost var w := Planner();
      r := Replay(i, verdict);
      IsReplayStep(w, i, verdict, Planner(), loose, old(loose), packed);
      PoisonKeepsReplayed(old(recipes), i);
      if r.Ok? {
        RelicensedGrows(w, i, recipes);
        RowsResident(old(blobs), blobs, old(recipes)[i].outputs);
      }
    }

    /**
     `license_covered`: license the first `limit` blobs of the pool, in order. Each is
     counted as licensed or listed as failed, by what its trials came to; no blob loses
     its safety, its bytes or a licensed route, whatever the replays disprove.
     */
    method LicenseCovered(pool: seq<Hash>, limit: nat, verdicts: RecipeId -> Verdict)
      returns (replayed: nat, failed: seq<Hash>, ghost run: seq<World>, ghost trials: seq<Trial>)
      requires Valid()
      modifies this`compiled, this`recipes, this`blobs, this`loose, this`outboards
      ensures Valid() && SameGraph(old(recipes), recipes) && old(loose).Keys <= loose.Keys
      ensures ReplayedRules(old(recipes)) <= ReplayedRules(recipes)
      ensures forall h :: old(Safe(blobs, recipes, h)) ==> Safe(blobs, recipes, h)
      ensures Run(run) && run[0] == old(Planner()) && run[|run| - 1] == Planner()
      ensures forall i :: 0 <= i < |recipes| && recipes[i].verify == ReplayedLocal && old(recipes)[i].verify != ReplayedLocal ==>
                exists k :: 0 < k < |run| && ProvedIn(run[k - 1], run[k], i)
      ensures |trials| == (if limit < |pool| then limit else |pool|) && DrainIs(old(Planner()), Planner(), pool, verdicts, trials)
      ensures failed == Unlicensed(pool, trials, |trials|) && replayed == |trials| - |failed|
    {
      replayed, failed, run, trials := DrainPool(pool, limit, verdicts);
      hide *;
      LicencesOf(run);
    }

    method DrainPool(pool: seq<Hash>, limit: nat, verdicts: RecipeId -> Verdict)
      returns (replayed: nat, failed: seq<Hash>, ghost run: seq<World>, ghost trials: seq<Trial>)
      requires Valid()
      modifies this`compiled, this`recipes, this`blobs, this`loose, this`outboards
      ensures Valid() && SameGraph(old(recipes), recipes) && old(loose).Keys <= loose.Keys
      ensures ReplayedRules(old(recipes)) <= ReplayedRules(recipes)
      ensures forall h :: old(Safe(blobs, recipes, h)) ==> Safe(blobs, recipes, h)
      ensures Run(run) && run[0] == old(Planner()) && run[|run| - 1] == Planner()
      ensures |trials| == (if limit < |pool| then limit else |pool|) && DrainIs(old(Planner()), Planner(), pool, verdicts, trials)
      ensures failed == Unlicensed(pool, trials, |trials|) && replayed == |trials| - |failed|
    {
      hide Run, GainStep, DropStep, World.Indexed, AllRowed, Trials, Trialled, InBounds, DrainIs, Unlicensed, ReplayedRules, ResidentBlobs, Safe, TrialOk,
           SameGraph, Executor.Planner;
      SameStill(recipes);
      DrainStarts(Planner(), pool, verdicts);
      replayed, failed, run, trials := 0, [], [Planner()], [];
      PlannerIndexed();
      RunStay(Planner());
      for k := 0 to if limit < |pool| then limit else |pool|
        invariant Valid() && SameGraph(old(recipes), recipes) && old(loose).Keys <= loose.Keys
        invariant ReplayedRules(old(recipes)) <= ReplayedRules(recipes) && ResidentBlobs(old(blobs)) <= ResidentBlobs(blobs)
        invariant Run(run) && run != [] && run[0] == old(Planner()) && run[|run| - 1] == Planner()
        invariant |trials| == k && DrainIs(old(Planner()), Planner(), pool, verdicts, trials)
        invariant failed == Unlicensed(pool, trials, k) && replayed + |failed| == k
      {
        ghost var ids, more;
        var licensed;
        ghost var now, rs := Planner(), recipes;
        licensed, ids, more := LicenseOne(pool[k], verdicts);
        SameThen(old(recipes), rs, recipes);
        RunJoin(run, more);
        run := run + more[1..];
        ghost var trial := Trial(ids, more, licensed);
        IsTrial(trial, pool[k], verdicts);
        DrainNext(old(Planner()), now, pool, verdicts, trials, trial);
        trials := trials + [trial];
        if licensed == Ok(true) {
          replayed := replayed + 1;
        } else {
          failed := failed + [pool[k]];
        }
      }
      AllSafeMonotone(old(blobs), old(recipes), blobs, recipes);
    }

    // ---- The piece swap ----

    /**
     Stream every absent leaf out of its planned route. A route that disproves
     itself while it is read is poisoned; nothing is published on any failure.
     */
    method StreamPieces(pieces: seq<RebuildInput>, streams: Hash -> StreamVerdict) returns (ok: bool, ghost run: seq<World>)
      requires Valid()
      modifies this`compiled, this`recipes
      ensures Valid() && SameGraph(old(recipes), recipes)
      ensures Run(run) && run != [] && run[0] == old(Planner()) && run[|run| - 1] == Planner()
      ensures ok <==> forall p :: p in pieces ==> PieceStreams(old(Planner()), p.hash, streams)
      ensures ok ==> Planner() == old(Planner())
      ensures !ok ==> exists k :: 0 <= k < |pieces| && StopsAt(old(Planner()), pieces, streams, k) && recipes == Poisons(old(Planner()), pieces[k].hash, streams)
      ensures ok || (forall h :: streams(h) != RouteDisproved) ==> recipes == old(recipes)
      ensures ok ==> forall p :: p in pieces ==> PlanBlob(Planner(), p.hash, 0, []).Ok?
    {
      hide PlanBlob, Run, AllRowed, World.Indexed, GainStep, DropStep;
      ghost var w := Planner();
      PlannerIndexed();
      RunStay(w);
      run := [w];
      var k := 0;
      while k < |pieces|
        invariant k <= |pieces|
        invariant recipes == old(recipes) && Planner() == w
        invariant forall j :: 0 <= j < k ==> PieceStreams(w, pieces[j].hash, streams)
      {
        var visiting := new Visiting();
        var plan := Plan(pieces[k].hash, 0, visiting);
        if plan.Err? {
          assert StopsAt(w, pieces, streams, k);
          return false, run;
        }
        var verdict := streams(pieces[k].hash);
        if verdict == RouteDisproved && plan.value.Op? {
          assert StopsAt(w, pieces, streams, k);
          PlanSound(w, pieces[k].hash, 0, []);
          recipes := SetVerify(recipes, plan.value.recipe, Failed);
          RowedKeeps(blobs, w.recipes, recipes);
          PlannerIndexed();
          IsPoison(w, plan.value.recipe, Planner());
          RunStep(w, Planner());
          return false, [w, Planner()];
        }
        if verdict != Streams {
          assert StopsAt(w, pieces, streams, k);
          return false, run;
        }
        k := k + 1;
      }
      return true, run;
    }

    /** Publish the sealed pack, then turn its members' rows resident: bytes first, rows second. */
    method SealPack(pieces: seq<RebuildInput>)
      requires Valid()
      requires forall p :: p in pieces ==> p.size.Some? && p.hash in blobs
      modifies this`blobs, this`packed
      ensures Valid()
      ensures packed.Keys == old(packed).Keys + Members(pieces)
      ensures ResidentBlobs(blobs) == ResidentBlobs(old(blobs)) + Members(pieces)
      ensures blobs.Keys == old(blobs).Keys && forall h :: h in blobs ==>
                blobs[h] == if h in Members(pieces) then old(blobs)[h].(residency := Resident) else old(blobs)[h]
      ensures PackStep(old(Planner()), Planner())
    {
      PublishPack(pieces);
      TurnResident(pieces);
    }

    method PublishPack(pieces: seq<RebuildInput>)
      requires forall p :: p in pieces ==> p.size.Some?
      modifies this`packed
      ensures packed.Keys == old(packed).Keys + Members(pieces)
    {
      var k := 0;
      while k < |pieces|
        invariant k <= |pieces|
        invariant packed.Keys == old(packed).Keys + Members(pieces[..k])
      {
        assert pieces[k] in pieces;
        packed := packed[pieces[k].hash := pieces[k].size.value];
        assert pieces[..k + 1] == pieces[..k] + [pieces[k]];
        assert Members(pieces[..k + 1]) == Members(pieces[..k]) + {pieces[k].hash};
        k := k + 1;
      }
      assert pieces[..k] == pieces;
    }

    method TurnResident(pieces: seq<RebuildInput>)
      requires Valid() && Members(pieces) <= packed.Keys && forall p :: p in pieces ==> p.hash in blobs
      modifies this`blobs
      ensures Valid()
      ensures ResidentBlobs(blobs) == ResidentBlobs(old(blobs)) + Members(pieces)
      ensures blobs.Keys == old(blobs).Keys && forall h :: h in blobs ==>
                blobs[h] == if h in Members(pieces) then old(blobs)[h].(residency := Resident) else old(blobs)[h]
    {
      var k := 0;
      while k < |pieces|
        invariant k <= |pieces|
        invariant blobs.Keys == old(blobs).Keys
        invariant forall h :: h in blobs ==>
                    blobs[h] == if h in Members(pieces[..k]) then old(blobs)[h].(residency := Resident) else old(blobs)[h]
        invariant ResidentBlobs(blobs) == ResidentBlobs(old(blobs)) + Members(pieces[..k])
      {
        var p := pieces[k];
        assert p in pieces;
        ghost var before := blobs;
        blobs := blobs[p.hash := blobs[p.hash].(residency := Resident)];
        assert ResidentBlobs(blobs) == ResidentBlobs(before) + {p.hash};
        assert pieces[..k + 1] == pieces[..k] + [p];
        assert Members(pieces[..k + 1]) == Members(pieces[..k]) + {p.hash};
        k := k + 1;
      }
      assert pieces[..k] == pieces;
    }

    /** Prove one route on this host, unless it is licensed already: by replay, or without materializing. */
    method EnsureLicensed(id: RecipeId, publish: bool, verdict: Verdict) returns (ok: bool, ghost run: seq<World>)
      requires Valid() && id < |recipes|
      modifies this`compiled, this`recipes, this`blobs, this`loose, this`outboards
      ensures Valid() && SameGraph(old(recipes), recipes)
      ensures ReplayedRules(old(recipes)) <= ReplayedRules(recipes)
      ensures ResidentBlobs(old(blobs)) <= ResidentBlobs(blobs)
      ensures !publish ==> blobs == old(blobs) && loose == old(loose)
      ensures ok ==> id in ReplayedRules(recipes)
      ensures Run(run) && run != [] && run[0] == old(Planner()) && run[|run| - 1] == Planner()
      ensures ok == Licenses(old(Planner()), id, verdict) && LicenceTurn(old(Planner()), id, publish, verdict, Planner())
    {
      hide Left, Answer, RunsInside, AllRowed, Run, GainStep, World.Indexed, Relicensed, RowsPublished, Hashes, ResidentBlobs, ReplayStep, LicenseStep;
      ghost var w := Planner();
      PlannerIndexed();
      RunStay(w);
      run := [w];
      if recipes[id].verify == ReplayedLocal {
        return true, run;
      }
      var r;
      if publish {
        r := Replay(id, verdict);
        IsReplayStep(w, id, verdict, Planner(), loose, old(loose), packed);
        if r.Ok? {
          RowsResident(old(blobs), blobs, old(recipes)[id].outputs);
        }
      } else {
        r := LicenseOnly(id, verdict);
        IsLicenseStep(w, id, verdict, Planner());
      }
      PlannerIndexed();
      IsGain(w, id, verdict, Planner());
      RunStep(w, Planner());
      run := [w, Planner()];
      PoisonKeepsReplayed(old(recipes), id);
      if r.Ok? {
        RelicensedGrows(w, id, recipes);
      }
      return r.Ok?, run;
    }

    /** License the intermediates' routes bottom-up without materializing them, then the rebuild route by replay; stop at the first that fails. */
    method LicenseRoutes(routes: seq<RecipeId>, rebuild: RecipeId, verdicts: RecipeId -> Verdict) returns (ok: bool, ghost run: seq<World>, ghost turns: seq<World>)
      requires Valid() && rebuild < |recipes| && forall i :: i in routes ==> i < |recipes|
      modifies this`compiled, this`recipes, this`blobs, this`loose, this`outboards
      ensures Valid() && SameGraph(old(recipes), recipes)
      ensures ReplayedRules(old(recipes)) <= ReplayedRules(recipes)
      ensures ResidentBlobs(old(blobs)) <= ResidentBlobs(blobs)
      ensures ok ==> rebuild in ReplayedRules(recipes) && forall i :: i in routes ==> i in ReplayedRules(recipes)
      ensures Run(run) && run != [] && run[0] == old(Planner()) && run[|run| - 1] == Planner()
      ensures LicenceTurns(old(Planner()), routes + [rebuild], verdicts, turns) && turns != [] && turns[0] == old(Planner()) && turns[|turns| - 1] == Planner()
      ensures ok == AllLicensed(turns, routes + [rebuild], verdicts)
    {
      hide Licenses, LicenceTurn, LicenceTurns, Run, GainStep, DropStep, World.Indexed, AllRowed, ReplayedRules, ResidentBlobs, SameGraph, AllLicensed, LicensedTo;
      TurnsStart(Planner(), routes + [rebuild], verdicts);
      SameStill(recipes);
      var all := routes + [rebuild];
      run, turns := [Planner()], [Planner()];
      PlannerIndexed();
      RunStay(Planner());
      LicensedNone(turns, all, verdicts);
      var k := 0;
      while k < |routes|
        invariant k <= |routes| && |turns| == k + 1
        invariant Valid() && SameGraph(old(recipes), recipes) && |recipes| == |old(recipes)| && blobs == old(blobs)
        invariant ReplayedRules(old(recipes)) <= ReplayedRules(recipes)
        invariant forall j :: 0 <= j < k ==> routes[j] in ReplayedRules(recipes)
        invariant Run(run) && run != [] && run[0] == old(Planner()) && run[|run| - 1] == Planner()
        invariant LicenceTurns(old(Planner()), all, verdicts, turns) && turns[0] == old(Planner()) && turns[k] == Planner()
        invariant LicensedTo(turns, all, verdicts, k)
      {
        assert routes[k] in routes && all[k] == routes[k];
        ghost var rs := recipes;
        ok, run, turns := LicenseNext(all, k, verdicts, run, turns);
        SameThen(old(recipes), rs, recipes);
        if !ok {
          return;
        }
        k := k + 1;
      }
      ghost var rs := recipes;
      ok, run, turns := LicenseNext(all, k, verdicts, run, turns);
      SameThen(old(recipes), rs, recipes);
    }

    /** One licence more: by replay for the last route, without publishing for the others. */
    method LicenseNext(ids: seq<RecipeId>, k: nat, verdicts: RecipeId -> Verdict, ghost run0: seq<World>, ghost turns0: seq<World>)
      returns (ok: bool, ghost run: seq<World>, ghost turns: seq<World>)
      requires Valid() && k < |ids| && ids[k] < |recipes|
      requires Run(run0) && run0 != [] && run0[|run0| - 1] == Planner()
      requires |turns0| == k + 1 && turns0[k] == Planner() && LicenceTurns(turns0[0], ids, verdicts, turns0)
      requires LicensedTo(turns0, ids, verdicts, k)
      modifies this`compiled, this`recipes, this`blobs, this`loose, this`outboards
      ensures Valid() && SameGraph(old(recipes), recipes)
      ensures ReplayedRules(old(recipes)) <= ReplayedRules(recipes)
      ensures ResidentBlobs(old(blobs)) <= ResidentBlobs(blobs)
      ensures k < |ids| - 1 ==> blobs == old(blobs)
      ensures ok ==> ids[k] in ReplayedRules(recipes)
      ensures ok == Licenses(turns0[k], ids[k], verdicts(ids[k]))
      ensures Run(run) && run != [] && run[0] == run0[0] && run[|run| - 1] == Planner()
      ensures |turns| == k + 2 && turns[0] == turns0[0] && turns[k + 1] == Planner() && LicenceTurns(turns0[0], ids, verdicts, turns)
      ensures if ok then LicensedTo(turns, ids, verdicts, k + 1) else !AllLicensed(turns, ids, verdicts)
      ensures ok && k == |ids| - 1 ==> AllLicensed(turns, ids, verdicts)
    {
      hide Licenses, LicenceTurn, LicenceTurns, Run, GainStep, DropStep, World.Indexed, AllRowed, ReplayedRules, ResidentBlobs, SameGraph;
      ghost var more;
      ok, more := EnsureLicensed(ids[k], k == |ids| - 1, verdicts(ids[k]));
      RunJoin(run0, more);
      run := run0 + more[1..];
      TurnsMore(turns0[0], ids, verdicts, turns0, Planner());
      turns := turns0 + [Planner()];
      LicensedMore(turns0, Planner(), ids, verdicts, k);
    }

    /** Every generated input is safe without the container. */
    ghost predicate GeneratedSafe(container: Hash)
      reads this
    {
      var ix := Index(blobs, recipes);
      forall x :: x in ix.AllInputs() && ix.Generated(x) ==>
        Grounded(recipes, ReplayedRules(recipes), ResidentBlobs(blobs) - {container}, x)
    }

    /**
     `swap_one`: collect the grounding leaves of the rebuild route, weigh the
     swap, pack the absent leaves, license every route bottom-up, and evict the
     container through the ordinary path. The leaf walk is sufficient: from a
     decomposition whose generated inputs are safe, the final eviction is never
     refused for grounding.
     */
    method SwapOne(id: RecipeId, container: Hash, reclaimMin: nat, available: Option<nat>,
                   streams: Hash -> StreamVerdict, verdicts: RecipeId -> Verdict)
      returns (r: Result<nat, SwapSkip>, ghost run: seq<World>, ghost swap: Swap)
      requires Valid() && id < |recipes| && container in blobs
      modifies this`compiled, this`recipes, this`blobs, this`loose, this`packed, this`outboards
      ensures Valid() && SameGraph(old(recipes), recipes)
      ensures (forall h :: streams(h) != RouteDisproved) ==>
                forall h :: old(Safe(blobs, recipes, h)) ==> Safe(blobs, recipes, h)
      ensures r.Ok? ==> container !in loose && Safe(blobs, recipes, container)
      ensures old(recipes[id].Claims(container) && Decomposes(Index(blobs, recipes), id, container) && GeneratedSafe(container))
              && r.Err? && r.error.EvictionBlocked? ==>
                r.error.why != NotGrounded && r.error.why != NeedsReplay
      ensures Run(run) && run != [] && run[0] == old(Planner()) && run[|run| - 1] == Planner()
      ensures forall i :: 0 <= i < |recipes| && recipes[i].verify == ReplayedLocal && old(recipes)[i].verify != ReplayedLocal ==>
                exists k :: 0 < k < |run| && ProvedIn(run[k - 1], run[k], i)
      ensures var skip := old(SwapGuard(Index(blobs, recipes), id, container, reclaimMin, available));
        skip.Some? ==> r == Err(skip.value) && Now() == old(Now()) && outboards == old(outboards)
      ensures old(SwapGuard(Index(blobs, recipes), id, container, reclaimMin, available)).None? ==>
        && Readied(old(Planner()), old(Now()), old(CollectLeaves(Index(blobs, recipes), id)), id, streams, verdicts, swap.ready, swap.turns, swap.last)
        && Ended(swap, container, old(PinsUnread()), old(tags), old(snapshots), Now(), r)
    {
      r, run, swap := SwapRun(id, container, reclaimMin, available, streams, verdicts);
      hide *;
      LicencesOf(run);
    }

    method SwapRun(id: RecipeId, container: Hash, reclaimMin: nat, available: Option<nat>,
                   streams: Hash -> StreamVerdict, verdicts: RecipeId -> Verdict)
      returns (r: Result<nat, SwapSkip>, ghost run: seq<World>, ghost swap: Swap)
      requires Valid() && id < |recipes| && container in blobs
      modifies this`compiled, this`recipes, this`blobs, this`loose, this`packed, this`outboards
      ensures Valid() && SameGraph(old(recipes), recipes)
      ensures (forall h :: streams(h) != RouteDisproved) ==>
                forall h :: old(Safe(blobs, recipes, h)) ==> Safe(blobs, recipes, h)
      ensures r.Ok? ==> container !in loose && Safe(blobs, recipes, container)
      ensures old(recipes[id].Claims(container) && Decomposes(Index(blobs, recipes), id, container) && GeneratedSafe(container))
              && r.Err? && r.error.EvictionBlocked? ==>
                r.error.why != NotGrounded && r.error.why != NeedsReplay
      ensures Run(run) && run != [] && run[0] == old(Planner()) && run[|run| - 1] == Planner()
      ensures var skip := old(SwapGuard(Index(blobs, recipes), id, container, reclaimMin, available));
        skip.Some? ==> r == Err(skip.value) && Now() == old(Now()) && outboards == old(outboards)
      ensures old(SwapGuard(Index(blobs, recipes), id, container, reclaimMin, available)).None? ==>
        && Readied(old(Planner()), old(Now()), old(CollectLeaves(Index(blobs, recipes), id)), id, streams, verdicts, swap.ready, swap.turns, swap.last)
        && Ended(swap, container, old(PinsUnread()), old(tags), old(snapshots), Now(), r)
    {
      hide Decomposes, ReplayedRules, ResidentBlobs, Safe, Grounded, AllRowed, Index.Generated, DropStep, GainStep, Run, Readied, Evicting, PinnedIn, SwapGuard,
           World.Indexed, CollectLeaves;
      run, swap := [Planner()], Swap(Ok(()), [], Now(), {});
      PlannerIndexed();
      RunStay(Planner());
      var ix := Index(blobs, recipes);
      var decided := SwapDecides(ix, id, container, reclaimMin, available);
      if decided.Err? {
        return Err(decided.error), run, swap;
      }
      var leaves := decided.value;
      CollectLeavesShape(ix, id);
      var ready;
      ready, run, swap := PackAndLicense(ix, id, leaves, streams, verdicts);
      if ready.Err? {
        return Err(ready.error), run, swap;
      }
      if old(recipes[id].Claims(container) && GeneratedSafe(container)) && Decomposes(ix, id, container) {
        SwapGrounds(ix, id, container, Index(blobs, recipes));
      }
      ghost var pins, more;
      r, pins, more := Evict(container);
      swap := swap.(protected := pins);
      RunJoin(run, more);
      run := run + more[1..];
    }

    /** The leaves to pack, or why the swap is not tried. */
    method SwapDecides(ix: Index, id: RecipeId, container: Hash, reclaimMin: nat, available: Option<nat>) returns (r: Result<Leaves, SwapSkip>)
      requires id < |ix.recipes| && container in ix.blobs
      ensures match SwapGuard(ix, id, container, reclaimMin, available)
              case Some(skip) => r == Err(skip)
              case None => r == Ok(CollectLeaves(ix, id)) && forall l :: l in CollectLeaves(ix, id).inputs ==> l.size.Some?
      ensures r.Err? ==> !r.error.EvictionBlocked?
    {
      hide Index.Generated, AbsentBytes;
      if ix.blobs[container].size.None? {
        return Err(NoSize(container));
      }
      if ix.recipes[id].inputs == [] {
        return Err(NoInputs);
      }
      var walker := new Walker();
      walker.Walk(ix, id);
      var leaves := walker.out;
      CollectLeavesShape(ix, id);
      var weight := Weigh(leaves.inputs);
      if weight.Err? {
        return Err(weight.error);
      }
      var (packable, mustPack) := weight.value;
      var size := ix.blobs[container].size.value;
      var reclaim := if mustPack < size then size - mustPack else 0;
      if packable == 0 || reclaim < reclaimMin {
        return Err(BelowThreshold);
      }
      if available.Some? && available.value < packable + SWAP_SLACK {
        return Err(NoHeadroom);
      }
      return Ok(leaves);
    }

    /** The writing half of the swap, up to the eviction: every leaf resident, every route licensed. */
    method PackAndLicense(ix: Index, id: RecipeId, leaves: Leaves, streams: Hash -> StreamVerdict, verdicts: RecipeId -> Verdict)
      returns (r: Result<(), SwapSkip>, ghost run: seq<World>, ghost swap: Swap)
      requires Valid() && id < |recipes| && ix == Index(blobs, recipes) && Shape(ix, leaves)
      requires forall l :: l in leaves.inputs ==> l.size.Some?
      modifies this`compiled, this`recipes, this`blobs, this`loose, this`packed, this`outboards
      ensures Valid() && SameGraph(old(recipes), recipes)
      ensures (forall h :: streams(h) != RouteDisproved) ==>
                forall h :: old(Safe(blobs, recipes, h)) ==> Safe(blobs, recipes, h)
      ensures r.Ok? ==>
        && ReplayedRules(ix.recipes) <= ReplayedRules(recipes)
        && ResidentBlobs(ix.blobs) <= ResidentBlobs(blobs)
        && id in ReplayedRules(recipes) && (forall i :: i in leaves.routes ==> i in ReplayedRules(recipes))
        && (forall l :: l in leaves.inputs ==> l.hash in ResidentBlobs(blobs))
      ensures Run(run) && run != [] && run[0] == old(Planner()) && run[|run| - 1] == Planner()
      ensures swap.ready == r && swap.last == Now() && Readied(old(Planner()), old(Now()), leaves, id, streams, verdicts, swap.ready, swap.turns, swap.last)
      ensures r.Err? ==> !r.error.EvictionBlocked?
    {
      hide Run, GainStep, DropStep, World.Indexed, AllRowed, LicenceTurns, Licenses, IsSealed, Safe, AllStream, ReplayedRules, ResidentBlobs;
      LeavesRowed(ix, leaves);
      var packs;
      ghost var turns;
      packs, run := PackLeaves(leaves.inputs, streams);
      if !packs {
        if recipes == old(recipes) {
          AllSafeMonotone(old(blobs), old(recipes), blobs, recipes);
        }
        return Err(PackFailed), run, Swap(Err(PackFailed), [], Now(), {});
      }
      var licensed;
      ghost var more;
      licensed, more, turns := LicenseRoutes(leaves.routes, id, verdicts);
      RunJoin(run, more);
      run := run + more[1..];
      AllSafeMonotone(old(blobs), old(recipes), blobs, recipes);
      r := if licensed then Ok(()) else Err(LicenseFailed);
      return r, run, Swap(r, turns, Now(), {});
    }

    /** Stream the leaves that are not resident into one pack. */
    method PackLeaves(leaves: seq<RebuildInput>, streams: Hash -> StreamVerdict) returns (ok: bool, ghost run: seq<World>)
      requires Valid() && forall l :: l in leaves ==> l.size.Some? && l.hash in blobs && l.residency == blobs[l.hash].residency
      modifies this`compiled, this`recipes, this`blobs, this`packed
      ensures Valid() && SameGraph(old(recipes), recipes)
      ensures Run(run) && run != [] && run[0] == old(Planner()) && run[|run| - 1] == Planner()
      ensures ok == AllStream(old(Planner()), leaves, streams)
      ensures ok || (forall h :: streams(h) != RouteDisproved) ==> recipes == old(recipes)
      ensures !ok ==> blobs == old(blobs) && packed == old(packed)
      ensures ok ==> IsSealed(old(Planner()), Planner(), leaves)
      ensures ok ==> forall l :: l in leaves ==> l.hash in ResidentBlobs(blobs)
      ensures ResidentBlobs(old(blobs)) <= ResidentBlobs(blobs)
    {
      hide Run, GainStep, DropStep, World.Indexed, PieceStreams, AllRowed, IsSealed, Safe, Poisons, StopsAt, PackStep, IsAbsentLeaf, Members, AbsentLeaves,
           ResidentBlobs, AllStream;
      var pieces := AbsentLeaves(leaves);
      PlannerIndexed();
      ghost var w := Planner();
      ghost var ix := Index(blobs, recipes);
      RunStay(w);
      run := [w];
      PiecesAre(w, leaves, streams);
      if pieces == [] {
        NoPieces(w, ix, leaves, blobs);
        return true, run;
      }
      ok, run := StreamPieces(pieces, streams);
      if !ok {
        return;
      }
      SealPack(pieces);
      PlannerIndexed();
      IsPack(w, Planner());
      OneGain(run, Planner());
      run := run + [w, Planner()][1..];
      SealedAs(w, Planner(), leaves);
      LeavesResident(ix, leaves, blobs);
    }

    // ---- Packing a chunk set ----

    /**
     `pack_one_set`: sweep leftover copies, then move the set's loose pieces into one
     pack. It is written before any loose file goes, so the stored blobs stay
     the same whatever happens, and with them everything plans and grounding rest on.
     */
    method PackOneSet(id: RecipeId, minMembers: nat, available: Option<nat>, seals: bool) returns (r: Result<seq<Hash>, SwapSkip>, swept: nat)
      requires Valid() && id < |recipes|
      modifies this`loose, this`packed
      ensures Valid() && Planner() == old(Planner())
      ensures var gone := Leftovers(blobs, old(loose), old(packed), recipes[id].inputs);
        swept == |gone| && loose.Keys == old(loose).Keys - gone - if r.Ok? then Chosen(r.value) else {}
      ensures r.Err? ==> packed == old(packed)
      ensures r.Ok? ==>
        && Chosen(r.value) == LoosePieces(blobs, old(loose), old(packed), recipes[id].inputs) && |Chosen(r.value)| == |r.value| >= minMembers
        && packed.Keys == old(packed).Keys + Chosen(r.value)
    {
      hide Leftovers, LoosePieces, Chosen, PieceBytes, ResidentBlobs;
      var members;
      InputsRowed(blobs, recipes, id);
      members, swept := GatherPieces(recipes[id].inputs);
      ghost var stored := loose.Keys + packed.Keys;
      if |members| < minMembers {
        return Err(BelowThreshold), swept;
      }
      if available.Some? && available.value < PieceBytes(blobs, members) + SWAP_SLACK {
        return Err(NoHeadroom), swept;
      }
      if !seals {
        return Err(PackFailed), swept;
      }
      MovePieces(members);
      assert loose.Keys + packed.Keys == stored;
      return Ok(members), swept;
    }

    /** The set's loose pieces, each once; leftover copies are swept on the way. */
    method GatherPieces(inputs: seq<Hash>) returns (members: seq<Hash>, swept: nat)
      requires forall h :: h in inputs ==> h in blobs
      modifies this`loose
      ensures loose.Keys == old(loose).Keys - Leftovers(blobs, old(loose), packed, inputs) && swept == |Leftovers(blobs, old(loose), packed, inputs)|
      ensures Chosen(members) == LoosePieces(blobs, old(loose), packed, inputs) && |Chosen(members)| == |members|
      ensures loose.Keys + packed.Keys == old(loose).Keys + packed.Keys
      ensures forall h :: h in members ==> IsLoosePiece(blobs, loose, packed, h)
    {
      hide *;
      ghost var was, b, p := loose, blobs, packed;
      members, swept := [], 0;
      PiecesStart(b, was, p, inputs[..0]);
      for k := 0 to |inputs|
        invariant blobs == b && packed == p && Gathered(b, was, loose, p, inputs[..k], members, swept)
      {
        ghost var now := loose;
        GatherStep(b, was, now, p, inputs, k, members, swept);
        var gone;
        members, gone := TakePiece(members, inputs[k]);
        swept := swept + if gone then 1 else 0;
        SameKeys(b, was, now - if gone then {inputs[k]} else {}, loose, p, inputs[..k + 1], members, swept);
      }
      assert inputs[..|inputs|] == inputs;
      PiecesEnd(b, was, loose, p, inputs, members, swept);
    }

    /** One input: swept if packed already, taken if loose, of known size and not taken yet. */
    method TakePiece(members: seq<Hash>, h: Hash) returns (more: seq<Hash>, gone: bool)
      requires h in blobs
      modifies this`loose
      ensures gone == IsLeftover(blobs, old(loose), packed, h) && loose.Keys == if gone then old(loose).Keys - {h} else old(loose).Keys
      ensures more == if IsLoosePiece(blobs, old(loose), packed, h) && h !in members then members + [h] else members
    {
      more, gone := members, false;
      if blobs[h].residency.Resident? {
        if h in packed {
          if h in loose {
            loose := loose - {h};
            gone := true;
          }
        } else if h in loose && blobs[h].size.Some? && h !in members {
          more := members + [h];
        }
      }
    }

    /** Seal a pack, then drop the loose files it stands for. */
    method MovePieces(members: seq<Hash>)
      requires forall h :: h in members ==> IsLoosePiece(blobs, loose, packed, h)
      modifies this`loose, this`packed
      ensures packed.Keys == old(packed).Keys + Chosen(members) && loose.Keys == old(loose).Keys - Chosen(members)
      ensures loose.Keys + packed.Keys == old(loose).Keys + old(packed).Keys
    {
      packed := packed + map h | h in members :: blobs[h].size.value;
      loose := loose - Chosen(members);
    }

    /** `evict`: one eviction under the current pins. */
    method Evict(h: Hash) returns (r: Result<nat, SwapSkip>, ghost protected: set<Hash>, ghost run: seq<World>)
      requires Valid()
      modifies this`blobs, this`loose, this`outboards
      ensures Valid()
      ensures forall x :: old(Safe(blobs, recipes, x)) <==> Safe(blobs, recipes, x)
      ensures r.Ok? ==> h !in loose && Safe(blobs, recipes, h)
      ensures old(Grounded(recipes, ReplayedRules(recipes), ResidentBlobs(blobs) - {h}, h)) && r.Err? && r.error.EvictionBlocked? ==>
                r.error.why != NotGrounded && r.error.why != NeedsReplay
      ensures Run(run) && run != [] && run[0] == old(Planner()) && run[|run| - 1] == Planner()
      ensures old(PinsUnread()) ==> r == Err(PinsUnreadable) && Now() == old(Now())
      ensures !old(PinsUnread()) ==>
                Evicting(old(Now()), Now(), h, protected, r) && forall x :: x in protected <==> PinnedIn(old(Now()), old(tags), old(snapshots), x)
    {
      hide AllRowed, Run, World.Indexed, GainStep, DropStep;
      protected, run := {}, [Planner()];
      PlannerIndexed();
      RunStay(Planner());
      var pins := PinnedProtectedSet();
      if pins.None? {
        return Err(PinsUnreadable), protected, run;
      }
      protected := pins.value;
      PinnedAs(pins.value);
      var outcome;
      outcome, run := EvictStep(h, pins.value);
      match outcome {
        case Evicted(bytes) =>
          GroundedMonotone(recipes, ReplayedRules(recipes), ResidentBlobs(old(blobs)) - {h}, ReplayedRules(recipes), ResidentBlobs(old(blobs)), h);
          return Ok(bytes), protected, run;
        case Refused(why) => return Err(EvictionBlocked(why)), protected, run;
      }
    }

    lemma PinnedAs(pins: set<Hash>)
      requires forall h :: h in pins <==> Pinned(h, |tags|)
      ensures forall h :: h in pins <==> PinnedIn(Now(), tags, snapshots, h)
    {
      forall h ensures Pinned(h, |tags|) <==> PinnedIn(Now(), tags, snapshots, h) {
        if Pinned(h, |tags|) {
          var t :| 0 <= t < |tags| && PinnedBy(tags[t], h);
          assert tags[t] in tags;
        }
      }
    }
  }

  // ---- Chunk sets ----

  /** A resident piece kept as a loose file only, of a recorded size: what a chunk pack takes in. */
  predicate IsLoosePiece(blobs: map<Hash, BlobRow>, loose: map<Hash, nat>, packed: map<Hash, nat>, h: Hash) {
    h in blobs && blobs[h].residency.Resident? && blobs[h].size.Some? && h in loose && h !in packed
  }

  /** A resident piece packed already whose loose copy an interrupted run left behind. */
  predicate IsLeftover(blobs: map<Hash, BlobRow>, loose: map<Hash, nat>, packed: map<Hash, nat>, h: Hash) {
    h in blobs && blobs[h].residency.Resident? && h in loose && h in packed
  }

  function LoosePieces(blobs: map<Hash, BlobRow>, loose: map<Hash, nat>, packed: map<Hash, nat>, inputs: seq<Hash>): set<Hash> {
    set h | h in inputs && IsLoosePiece(blobs, loose, packed, h)
  }

  function Leftovers(blobs: map<Hash, BlobRow>, loose: map<Hash, nat>, packed: map<Hash, nat>, inputs: seq<Hash>): set<Hash> {
    set h | h in inputs && IsLeftover(blobs, loose, packed, h)
  }

  function Chosen(members: seq<Hash>): set<Hash> {
    set h | h in members
  }

  lemma ChosenOne(members: seq<Hash>, h: Hash)
    ensures Chosen(members + [h]) == Chosen(members) + {h} && (h in Chosen(members) <==> h in members)
  {
  }

  lemma PiecesNext(blobs: map<Hash, BlobRow>, was: map<Hash, nat>, now: map<Hash, nat>, packed: map<Hash, nat>, inputs: seq<Hash>, k: nat)
    requires k < |inputs| && now.Keys == was.Keys - Leftovers(blobs, was, packed, inputs[..k])
    ensures Leftovers(blobs, was, packed, inputs[..k + 1])
         == Leftovers(blobs, was, packed, inputs[..k]) + if IsLeftover(blobs, now, packed, inputs[k]) then {inputs[k]} else {}
    ensures IsLeftover(blobs, now, packed, inputs[k]) ==> inputs[k] !in Leftovers(blobs, was, packed, inputs[..k])
    ensures LoosePieces(blobs, was, packed, inputs[..k + 1])
         == LoosePieces(blobs, was, packed, inputs[..k]) + if IsLoosePiece(blobs, now, packed, inputs[k]) then {inputs[k]} else {}
  {
    assert inputs[..k + 1] == inputs[..k] + [inputs[k]];
  }

  /** The inputs gone through so far: the loose ones taken once each, the leftovers swept. */
  ghost predicate Gathered(blobs: map<Hash, BlobRow>, was: map<Hash, nat>, now: map<Hash, nat>, packed: map<Hash, nat>, inputs: seq<Hash>,
                           members: seq<Hash>, swept: nat)
  {
    && now.Keys == was.Keys - Leftovers(blobs, was, packed, inputs) && swept == |Leftovers(blobs, was, packed, inputs)|
    && Chosen(members) == LoosePieces(blobs, was, packed, inputs) && |Chosen(members)| == |members|
  }

  lemma PiecesStart(blobs: map<Hash, BlobRow>, loose: map<Hash, nat>, packed: map<Hash, nat>, inputs: seq<Hash>)
    requires inputs == []
    ensures Gathered(blobs, loose, loose, packed, inputs, [], 0)
  {
    assert Leftovers(blobs, loose, packed, inputs) == {} == LoosePieces(blobs, loose, packed, inputs);
  }

  lemma GatherStep(blobs: map<Hash, BlobRow>, was: map<Hash, nat>, now: map<Hash, nat>, packed: map<Hash, nat>, inputs: seq<Hash>, k: nat,
                   members: seq<Hash>, swept: nat)
    requires k < |inputs| && Gathered(blobs, was, now, packed, inputs[..k], members, swept)
    ensures var h := inputs[k];
      var gone := IsLeftover(blobs, now, packed, h);
      Gathered(blobs, was, now - (if gone then {h} else {}), packed, inputs[..k + 1],
               if IsLoosePiece(blobs, now, packed, h) && h !in members then members + [h] else members, swept + if gone then 1 else 0)
  {
    PiecesNext(blobs, was, now, packed, inputs, k);
    hide Leftovers, LoosePieces, IsLeftover, IsLoosePiece, Chosen;
    var (h, upTo, more) := (inputs[k], inputs[..k], inputs[..k + 1]);
    var gone := IsLeftover(blobs, now, packed, h);
    SweptOne(was, now, Leftovers(blobs, was, packed, upTo), Leftovers(blobs, was, packed, more), h, gone);
    TakenOne(LoosePieces(blobs, was, packed, upTo), LoosePieces(blobs, was, packed, more), members, h, IsLoosePiece(blobs, now, packed, h));
  }

  lemma SweptOne(was: map<Hash, nat>, now: map<Hash, nat>, left: set<Hash>, more: set<Hash>, h: Hash, gone: bool)
    requires now.Keys == was.Keys - left && more == left + (if gone then {h} else {}) && (gone ==> h !in left)
    ensures (now - if gone then {h} else {}).Keys == was.Keys - more && |more| == |left| + if gone then 1 else 0
  {
  }

  lemma TakenOne(taken: set<Hash>, more: set<Hash>, members: seq<Hash>, h: Hash, piece: bool)
    requires Chosen(members) == taken && |taken| == |members| && more == taken + if piece then {h} else {}
    ensures var next := if piece && h !in members then members + [h] else members;
      Chosen(next) == more && |more| == |next|
  {
    ChosenOne(members, h);
    hide Chosen;
  }

  lemma SameKeys(blobs: map<Hash, BlobRow>, was: map<Hash, nat>, a: map<Hash, nat>, b: map<Hash, nat>, packed: map<Hash, nat>, inputs: seq<Hash>,
                 members: seq<Hash>, swept: nat)
    requires a.Keys == b.Keys && Gathered(blobs, was, a, packed, inputs, members, swept)
    ensures Gathered(blobs, was, b, packed, inputs, members, swept)
  {
  }

  lemma PiecesEnd(blobs: map<Hash, BlobRow>, was: map<Hash, nat>, now: map<Hash, nat>, packed: map<Hash, nat>, inputs: seq<Hash>, members: seq<Hash>, swept: nat)
    requires Gathered(blobs, was, now, packed, inputs, members, swept)
    ensures now.Keys == was.Keys - Leftovers(blobs, was, packed, inputs) && swept == |Leftovers(blobs, was, packed, inputs)|
    ensures Chosen(members) == LoosePieces(blobs, was, packed, inputs) && |Chosen(members)| == |members|
    ensures now.Keys + packed.Keys == was.Keys + packed.Keys
    ensures forall h :: h in members ==> IsLoosePiece(blobs, now, packed, h)
  {
    forall h | h in members ensures IsLoosePiece(blobs, now, packed, h) {
      assert h in Chosen(members);
    }
  }

  /** What the members' rows say they weigh. */
  function PieceBytes(blobs: map<Hash, BlobRow>, members: seq<Hash>): nat
    requires forall h :: h in members ==> h in blobs && blobs[h].size.Some?
  {
    if members == [] then 0
    else
      assert members[|members| - 1] in members;
      assert forall h :: h in members[..|members| - 1] ==> h in members;
      PieceBytes(blobs, members[..|members| - 1]) + blobs[members[|members| - 1]].size.value
  }

  // ---- The swap's arithmetic and its grounding argument ----

  /** Fixed margin over the packed bytes (256 MiB). */
  const SWAP_SLACK: nat := 256 * 1024 * 1024

  datatype SwapSkip =
    | NoSize(hash: Hash)
    | NoInputs
    | BelowThreshold
    | NoHeadroom
    | PackFailed
    | LicenseFailed
    | PinsUnreadable
    | EvictionBlocked(why: Blocked)

  function AbsentLeaves(leaves: seq<RebuildInput>): (r: seq<RebuildInput>)
    ensures forall l :: l in r <==> l in leaves && l.residency != Resident
    decreases |leaves|
  {
    if leaves == [] then []
    else
      assert leaves == [leaves[0]] + leaves[1..];
      (if leaves[0].residency.Resident? then [] else [leaves[0]]) + AbsentLeaves(leaves[1..])
  }

  /** The swap predicate's two sums; a leaf without a recorded size refuses the swap. */
  method Weigh(leaves: seq<RebuildInput>) returns (r: Result<(nat, nat), SwapSkip>)
    requires forall i, j :: 0 <= i < j < |leaves| ==> leaves[i].hash != leaves[j].hash
    ensures r.Err? <==> exists k: nat :: FirstUnsized(leaves, k)
    ensures r.Err? ==> forall k: nat :: FirstUnsized(leaves, k) ==> r.error == NoSize(leaves[k].hash)
    ensures r.Ok? ==> forall l :: l in leaves ==> l.size.Some?
    ensures r.Ok? ==> r.value == (AbsentBytes(leaves, false), AbsentBytes(leaves, true))
  {
    var packable, mustPack, k := 0, 0, 0;
    var seen: set<Hash> := {};
    while k < |leaves|
      invariant k <= |leaves|
      invariant forall j :: 0 <= j < k ==> leaves[j].size.Some?
      invariant forall h :: h in seen ==> exists j :: 0 <= j < k && leaves[j].hash == h
      invariant packable == AbsentBytes(leaves[..k], false) && mustPack == AbsentBytes(leaves[..k], true)
    {
      var l := leaves[k];
      if l.size.None? {
        assert FirstUnsized(leaves, k);
        assert forall j: nat :: FirstUnsized(leaves, j) ==> j == k;
        return Err(NoSize(l.hash));
      }
      assert leaves[..k + 1][..k] == leaves[..k];
      if l.hash !in seen {
        seen := seen + {l.hash};
        if l.residency != Resident {
          packable := packable + l.size.value;
          if l.coveringClaims < 2 {
            mustPack := mustPack + l.size.value;
          }
        }
      }
      k := k + 1;
    }
    assert leaves[..k] == leaves;
    return Ok((packable, mustPack));
  }

  /** A walked leaf carries the row it was read from. */
  lemma LeavesRowed(ix: Index, leaves: Leaves)
    requires Shape(ix, leaves) && AllRowed(ix.blobs, ix.recipes)
    ensures forall l :: l in leaves.inputs ==>
      l.hash in ix.blobs && l.residency == ix.blobs[l.hash].residency && l.size == ix.blobs[l.hash].size
  {
    forall l | l in leaves.inputs
      ensures l.hash in ix.blobs && l.residency == ix.blobs[l.hash].residency && l.size == ix.blobs[l.hash].size
    {
      var j :| 0 <= j < |leaves.inputs| && leaves.inputs[j] == l;
      assert l.hash in ix.AllInputs();
    }
  }

  /** After packing and licensing, the container is grounded without its own literal. */
  lemma SwapGrounds(ix: Index, id: RecipeId, container: Hash, after: Index)
    requires id < |ix.recipes| && ix.recipes[id].Claims(container) && Decomposes(ix, id, container)
    requires SameGraph(ix.recipes, after.recipes)
    requires ReplayedRules(ix.recipes) <= ReplayedRules(after.recipes)
    requires ResidentBlobs(ix.blobs) <= ResidentBlobs(after.blobs)
    requires id in ReplayedRules(after.recipes) && forall j :: j in CollectLeaves(ix, id).routes ==> j in ReplayedRules(after.recipes)
    requires forall l :: l in CollectLeaves(ix, id).inputs ==> l.hash in ResidentBlobs(after.blobs)
    requires forall x :: x in ix.AllInputs() && ix.Generated(x) ==>
               Grounded(ix.recipes, ReplayedRules(ix.recipes), ResidentBlobs(ix.blobs) - {container}, x)
    ensures Grounded(after.recipes, ReplayedRules(after.recipes), ResidentBlobs(after.blobs) - {container}, container)
  {
    var rules, resident := ReplayedRules(after.recipes), ResidentBlobs(after.blobs);
    forall x | x in ix.AllInputs() && ix.Generated(x) ensures Grounded(ix.recipes, rules, resident - {container}, x) {
      GroundedMonotone(ix.recipes, ReplayedRules(ix.recipes), ResidentBlobs(ix.blobs) - {container}, rules, resident - {container}, x);
    }
    LeavesSuffice(ix, id, container, rules, resident);
    GroundedSameGraph(ix.recipes, after.recipes, rules, resident - {container}, container);
  }

  // ---- Eviction and planning together ----

  /** Every licensed recipe's component can be loaded. */
  ghost predicate LicensedLoadable(rs: Recipes, loadable: set<Hash>) {
    forall i :: i in ReplayedRules(rs) && rs[i].component.Some? ==> rs[i].component.value in loadable
  }

  /**
   What drop safety is for: a safe blob has a route the executor will plan. The
   chain is never longer than the recipe table, so a table within the depth
   limit leaves no exception.
   */
  lemma SafePlans(w: World, h: Hash)
    requires AllRowed(w.blobs, w.recipes) && ResidentBlobs(w.blobs) <= w.stored
    requires LicensedLoadable(w.recipes, w.loadable)
    requires Safe(w.blobs, w.recipes, h) && |w.recipes| <= w.maxDepth
    ensures PlanBlob(w, h, 0, []).Ok? && Valid(w, PlanBlob(w, h, 0, []).value, 0, [])
  {
    var rules := ReplayedRules(w.recipes);
    assert rules <= w.Usable();
    RankBound(w.recipes, rules, ResidentBlobs(w.blobs), h);
    GroundedPlans(w, h, rules, ResidentBlobs(w.blobs), |w.recipes|);
    PlanSound(w, h, 0, []);
  }

  /** The world after the loose file of `x` is gone; a compiled copy of `x` may still be in the cache. */
  ghost predicate Dropped(w: World, after: World, x: Hash) {
    && after.recipes == w.recipes && after.blobs.Keys == w.blobs.Keys && after.maxDepth == w.maxDepth
    && after.stored == w.stored - {x} && (after.loadable == w.loadable || after.loadable == w.loadable - {x})
  }

  /** What plans is what the usable recipes ground in the stored bytes, when the recipe table is within the depth limit. */
  lemma PlansAreGrounded(w: World, h: Hash)
    requires w.Indexed() && |w.recipes| <= w.maxDepth
    ensures PlanBlob(w, h, 0, []).Ok? <==> Grounded(w.recipes, w.Usable(), w.stored, h)
  {
    PlanExact(w, h);
    var extra := w.Leaves() - w.stored;
    forall y | y in extra ensures Grounded(w.recipes, w.Usable(), w.stored, y) {
      var i, c :| i in w.Usable() && w.recipes[i].inputs == [] && c in w.recipes[i].outputs && c.hash == y;
      GroundedStep(w.recipes, w.Usable(), w.stored, i, y);
    }
    hide PlanBlob, Reach;
    if h in w.Within(w.maxDepth) {
      assert w.stored + extra == w.Leaves();
      assert Grounded(w.recipes, w.Usable(), w.stored + extra, h);
      GroundedSeed(w.recipes, w.Usable(), w.stored, extra, h);
    }
    if Grounded(w.recipes, w.Usable(), w.stored, h) {
      RankBound(w.recipes, w.Usable(), w.stored, h);
      GroundedPlans(w, h, w.Usable(), w.stored, |w.recipes|);
    }
  }

  /** What recipe `i` could make before is grounded by the rules left over the bytes left. */
  ghost predicate Rerouted(rs: Recipes, rules: set<RecipeId>, seed: set<Hash>, left: set<RecipeId>, kept: set<Hash>, i: RecipeId)
    requires i < |rs|
  {
    (forall y :: y in rs[i].inputs ==> Grounded(rs, rules, seed, y)) ==> forall c :: c in rs[i].outputs ==> Grounded(rs, left, kept, c.hash)
  }

  /** That is so for every rule that is not left. */
  ghost predicate AllRerouted(rs: Recipes, rules: set<RecipeId>, seed: set<Hash>, left: set<RecipeId>, kept: set<Hash>) {
    forall i :: i in rules && i !in left && i < |rs| ==> Rerouted(rs, rules, seed, left, kept, i)
  }

  /** Whatever was grounded is grounded still, by the rules left over the bytes left. */
  ghost predicate StaysGrounded(rs: Recipes, rules: set<RecipeId>, seed: set<Hash>, left: set<RecipeId>, kept: set<Hash>) {
    forall h :: Grounded(rs, rules, seed, h) ==> Grounded(rs, left, kept, h)
  }

  ghost predicate StaysPlanned(w: World, after: World)
    requires w.maxDepth == after.maxDepth
  {
    forall h :: PlanBlob(w, h, 0, []).Ok? ==> PlanBlob(after, h, 0, []).Ok?
  }

  /** Nothing grounded is lost exactly when the literals stay grounded and the lost rules are rerouted. */
  lemma StillGrounded(rs: Recipes, rules: set<RecipeId>, seed: set<Hash>, left: set<RecipeId>, kept: set<Hash>)
    ensures StaysGrounded(rs, rules, seed, left, kept) <==>
              (forall y :: y in seed ==> Grounded(rs, left, kept, y)) && AllRerouted(rs, rules, seed, left, kept)
  {
    if (forall y :: y in seed ==> Grounded(rs, left, kept, y)) && AllRerouted(rs, rules, seed, left, kept) {
      forall h | Grounded(rs, rules, seed, h) ensures Grounded(rs, left, kept, h) {
        var k: nat :| h in Reach(rs, rules, seed, k);
        ReachStays(rs, rules, seed, left, kept, k, h);
      }
    }
    if StaysGrounded(rs, rules, seed, left, kept) {
      forall y | y in seed ensures Grounded(rs, left, kept, y) {
        assert y in Reach(rs, rules, seed, 0);
      }
      forall i | i in rules && i !in left && i < |rs| ensures Rerouted(rs, rules, seed, left, kept, i) {
        if forall y :: y in rs[i].inputs ==> Grounded(rs, rules, seed, y) {
          forall c | c in rs[i].outputs ensures Grounded(rs, left, kept, c.hash) {
            GroundedStep(rs, rules, seed, i, c.hash);
          }
        }
      }
    }
  }

  lemma {:induction false} ReachStays(rs: Recipes, rules: set<RecipeId>, seed: set<Hash>, left: set<RecipeId>, kept: set<Hash>, k: nat, h: Hash)
    requires (forall y :: y in seed ==> Grounded(rs, left, kept, y)) && AllRerouted(rs, rules, seed, left, kept) && h in Reach(rs, rules, seed, k)
    ensures Grounded(rs, left, kept, h)
    decreases k
  {
    hide Grounded, AllRerouted, Round;
    if k > 0 {
      var before := Reach(rs, rules, seed, k - 1);
      assert h in Round(rs, rules, before);
      hide Reach;
      if h in before {
        ReachStays(rs, rules, seed, left, kept, k - 1, h);
      } else {
        var i := RoundWitness(rs, rules, before, h);
        forall y | y in rs[i].inputs ensures Grounded(rs, left, kept, y) && Grounded(rs, rules, seed, y) {
          ReachStays(rs, rules, seed, left, kept, k - 1, y);
          ReachedIsGrounded(rs, rules, seed, k - 1, y);
        }
        FiresStill(rs, rules, seed, left, kept, i, h);
      }
    }
  }

  lemma ReachedIsGrounded(rs: Recipes, rules: set<RecipeId>, seed: set<Hash>, k: nat, h: Hash)
    requires h in Reach(rs, rules, seed, k)
    ensures Grounded(rs, rules, seed, h)
  {
  }

  lemma FiresStill(rs: Recipes, rules: set<RecipeId>, seed: set<Hash>, left: set<RecipeId>, kept: set<Hash>, i: RecipeId, h: Hash)
    requires i in rules && i < |rs| && rs[i].Claims(h) && AllRerouted(rs, rules, seed, left, kept)
    requires forall y :: y in rs[i].inputs ==> Grounded(rs, left, kept, y) && Grounded(rs, rules, seed, y)
    ensures Grounded(rs, left, kept, h)
  {
    hide Grounded;
    if i in left {
      GroundedStep(rs, left, kept, i, h);
    } else {
      assert Rerouted(rs, rules, seed, left, kept, i);
    }
  }

  /** What a step must leave for every blob that planned to plan still: each stored blob, and whatever the recipes that became unusable could make. */
  ghost predicate KeepsRoutes(w: World, after: World) {
    && (forall y :: y in w.stored ==> Grounded(w.recipes, after.Usable(), after.stored, y))
    && AllRerouted(w.recipes, w.Usable(), w.stored, after.Usable(), after.stored)
  }

  ghost predicate SameTable(w: World, after: World) {
    SameGraph(w.recipes, after.recipes) && w.Indexed() && after.Indexed() && |w.recipes| <= w.maxDepth == after.maxDepth
  }

  /** Between any two states of one recipe table, no plan is lost exactly when the second keeps the routes of the first. */
  lemma StepKeepsPlans(w: World, after: World)
    requires SameTable(w, after)
    ensures StaysPlanned(w, after) <==> KeepsRoutes(w, after)
  {
    hide PlanBlob, Reach, Grounded, AllRerouted;
    forall h
      ensures PlanBlob(w, h, 0, []).Ok? <==> Grounded(w.recipes, w.Usable(), w.stored, h)
      ensures PlanBlob(after, h, 0, []).Ok? <==> Grounded(w.recipes, after.Usable(), after.stored, h)
    {
      PlansAreGrounded(w, h);
      PlansAreGrounded(after, h);
      GroundedEither(w.recipes, after.recipes, after.Usable(), after.stored, h);
    }
    StillGrounded(w.recipes, w.Usable(), w.stored, after.Usable(), after.stored);
  }

  lemma GroundedEither(rs: Recipes, rs': Recipes, rules: set<RecipeId>, seed: set<Hash>, h: Hash)
    requires SameGraph(rs, rs')
    ensures Grounded(rs, rules, seed, h) <==> Grounded(rs', rules, seed, h)
  {
    hide Grounded;
    if Grounded(rs, rules, seed, h) {
      GroundedSameGraph(rs, rs', rules, seed, h);
    }
    if Grounded(rs', rules, seed, h) {
      GroundedSameGraph(rs', rs, rules, seed, h);
    }
  }

  /**
   What a drop must leave for every blob that planned to plan still, components
   counted: the dropped blob itself by recipes that do not run in it, and another
   route to whatever the recipes that run in it could make.
   */
  lemma DropKeepsPlans(w: World, after: World, x: Hash)
    requires w.Indexed() && |w.recipes| <= w.maxDepth && x in w.stored && Dropped(w, after, x)
    ensures StaysPlanned(w, after) <==>
              Grounded(w.recipes, after.Usable(), after.stored, x) && AllRerouted(w.recipes, w.Usable(), w.stored, after.Usable(), after.stored)
  {
    hide PlanBlob, AllRerouted;
    StepKeepsPlans(w, after);
    forall y | y in after.stored ensures Grounded(w.recipes, after.Usable(), after.stored, y) {
      assert y in Reach(w.recipes, after.Usable(), after.stored, 0);
    }
  }

  // ---- Plans over a whole run ----

  /** Bytes and compiled components are only gained, and only verify states change. */
  ghost predicate Gains(w: World, after: World) {
    SameGraph(w.recipes, after.recipes) && w.stored <= after.stored && w.loadable <= after.loadable && w.maxDepth == after.maxDepth
  }

  /** One replay: its recipes, rows and bytes as the answer says. */
  ghost predicate ReplayStep(w: World, id: RecipeId, verdict: Verdict, after: World) {
    && id < |w.recipes| && after.maxDepth == w.maxDepth
    && after.loadable == w.loadable + (after.stored - w.stored)
    && match Answer(w, id, verdict)
       case Ok(_) =>
         Relicensed(w, id, after.recipes) && RowsPublished(w.blobs, after.blobs, w.recipes[id].outputs)
         && after.stored == w.stored + Hashes(w.recipes[id].outputs)
       case Err(e) =>
         && after.blobs == w.blobs
         && after.recipes == (if e.ClaimFailure? then w.recipes[id := w.recipes[id].(verify := Failed)] else w.recipes)
         && after.stored == w.stored + if e.ClaimFailure? || e.Environment? then Hashes(Left(w.recipes[id].outputs, verdict.handed)) else {}
  }

  /** The same proof without publishing anything. */
  ghost predicate LicenseStep(w: World, id: RecipeId, verdict: Verdict, after: World) {
    && id < |w.recipes| && after.maxDepth == w.maxDepth && after.stored == w.stored && after.loadable == w.loadable && after.blobs == w.blobs
    && match Answer(w, id, verdict)
       case Ok(_) => Relicensed(w, id, after.recipes)
       case Err(e) => after.recipes == if e.ClaimFailure? then w.recipes[id := w.recipes[id].(verify := Failed)] else w.recipes
  }

  /** A route that disproved itself while it was read. */
  ghost predicate PoisonStep(w: World, after: World) {
    exists id :: 0 <= id < |w.recipes| && after == w.(recipes := w.recipes[id := w.recipes[id].(verify := Failed)])
  }

  /** A pack sealed: bytes and resident rows. */
  ghost predicate PackStep(w: World, after: World) {
    && after.recipes == w.recipes && after.maxDepth == w.maxDepth && after.blobs.Keys == w.blobs.Keys
    && w.stored <= after.stored && after.loadable == w.loadable + (after.stored - w.stored)
  }

  ghost predicate GainStep(w: World, after: World) {
    || (exists id, verdict :: ReplayStep(w, id, verdict, after))
    || (exists id, verdict :: LicenseStep(w, id, verdict, after))
    || PoisonStep(w, after)
    || PackStep(w, after)
  }

  lemma SameStill(rs: Recipes)
    ensures SameGraph(rs, rs)
  {
  }

  lemma SameThen(a: Recipes, b: Recipes, c: Recipes)
    requires SameGraph(a, b) && SameGraph(b, c)
    ensures SameGraph(a, c) && |a| == |b| == |c| && forall i :: 0 <= i < |a| ==> a[i].outputs == b[i].outputs == c[i].outputs
  {
  }

  lemma IsReplayStep(w: World, id: RecipeId, verdict: Verdict, after: World, loose: map<Hash, nat>, was: map<Hash, nat>, packed: map<Hash, nat>)
    requires id < |w.recipes| && after.maxDepth == w.maxDepth && w.stored == was.Keys + packed.Keys && after.stored == loose.Keys + packed.Keys
    requires after.loadable == w.loadable + (after.stored - w.stored)
    requires var outs := w.recipes[id].outputs;
      match Answer(w, id, verdict)
      case Ok(_) => Relicensed(w, id, after.recipes) && RowsPublished(w.blobs, after.blobs, outs) && FilesStored(was, loose, outs)
      case Err(e) =>
        && after.blobs == w.blobs
        && after.recipes == (if e.ClaimFailure? then w.recipes[id := w.recipes[id].(verify := Failed)] else w.recipes)
        && if e.ClaimFailure? || e.Environment? then FilesStored(was, loose, Left(outs, verdict.handed)) else loose == was
    ensures ReplayStep(w, id, verdict, after)
  {
    hide Answer, Relicensed, RowsPublished, Left, Hashes;
  }

  lemma IsLicenseStep(w: World, id: RecipeId, verdict: Verdict, after: World)
    requires id < |w.recipes| && after.maxDepth == w.maxDepth && after.stored == w.stored && after.loadable == w.loadable && after.blobs == w.blobs
    requires match Answer(w, id, verdict)
      case Ok(_) => Relicensed(w, id, after.recipes)
      case Err(e) => after.recipes == if e.ClaimFailure? then w.recipes[id := w.recipes[id].(verify := Failed)] else w.recipes
    ensures LicenseStep(w, id, verdict, after)
  {
    hide Answer, Relicensed;
  }

  lemma IsGain(w: World, id: RecipeId, verdict: Verdict, after: World)
    requires ReplayStep(w, id, verdict, after) || LicenseStep(w, id, verdict, after)
    ensures GainStep(w, after)
  {
    hide ReplayStep, LicenseStep;
  }

  lemma IsPoison(w: World, id: RecipeId, after: World)
    requires id < |w.recipes| && after == w.(recipes := w.recipes[id := w.recipes[id].(verify := Failed)])
    ensures GainStep(w, after)
  {
    hide ReplayStep, LicenseStep;
  }

  lemma IsPack(w: World, after: World)
    requires PackStep(w, after)
    ensures GainStep(w, after)
  {
    hide ReplayStep, LicenseStep;
  }

  lemma GainStepGains(w: World, after: World)
    requires GainStep(w, after)
    ensures Gains(w, after)
  {
    hide Answer, RowsPublished, Left;
  }

  /** A step that proved recipe `i` on this host: by executing it, or by executing one it ran inside. */
  ghost predicate ProvedIn(w: World, after: World, i: RecipeId) {
    exists id, verdict :: Proves(w, id, verdict, after, i)
  }

  ghost predicate Proves(w: World, id: RecipeId, verdict: Verdict, after: World, i: RecipeId) {
    && (ReplayStep(w, id, verdict, after) || LicenseStep(w, id, verdict, after))
    && id < |w.recipes| && Answer(w, id, verdict).Ok? && i < |w.recipes|
    && (i == id || (w.recipes[i].verify == Verified && RunsInside(w, id, i)))
  }

  lemma LicencesInStep(w: World, after: World, i: RecipeId)
    requires (DropStep(w, after) || GainStep(w, after)) && i < |w.recipes| == |after.recipes|
    requires w.recipes[i].verify != ReplayedLocal == after.recipes[i].verify
    ensures ProvedIn(w, after, i)
  {
    hide Answer, RowsPublished, Left, RunsInside;
    if exists id, verdict :: ReplayStep(w, id, verdict, after) {
      var id, verdict :| ReplayStep(w, id, verdict, after);
      assert Proves(w, id, verdict, after, i);
    } else if exists id, verdict :: LicenseStep(w, id, verdict, after) {
      var id, verdict :| LicenseStep(w, id, verdict, after);
      assert Proves(w, id, verdict, after, i);
    }
  }

  /** Over a whole run, every recipe that became licensed was proved in one of its steps. */
  lemma {:induction false} LicencesInRun(worlds: seq<World>, n: nat, i: RecipeId)
    requires Run(worlds) && n < |worlds| && i < |worlds[0].recipes| && i < |worlds[n].recipes|
    requires worlds[0].recipes[i].verify != ReplayedLocal == worlds[n].recipes[i].verify
    ensures exists k :: 0 < k <= n && ProvedIn(worlds[k - 1], worlds[k], i)
  {
    hide World.Indexed, DropStep, GainStep, ProvedIn;
    StepsKeepCount(worlds, n - 1);
    StepsKeepCount(worlds, n);
    if worlds[n - 1].recipes[i].verify == ReplayedLocal {
      LicencesInRun(worlds, n - 1, i);
    } else {
      LicencesInStep(worlds[n - 1], worlds[n], i);
    }
  }

  lemma {:induction false} StepsKeepCount(worlds: seq<World>, n: nat)
    requires Run(worlds) && n < |worlds|
    ensures |worlds[n].recipes| == |worlds[0].recipes|
  {
    hide World.Indexed, GainStep;
    if n > 0 {
      StepsKeepCount(worlds, n - 1);
      assert DropStep(worlds[n - 1], worlds[n]) || GainStep(worlds[n - 1], worlds[n]);
      if GainStep(worlds[n - 1], worlds[n]) {
        GainStepGains(worlds[n - 1], worlds[n]);
      }
    }
  }

  ghost predicate DropStep(w: World, after: World) {
    exists x :: x in w.stored && Dropped(w, after, x)
  }

  /** The states of a run, each one step after the last: a drop, a replay, a licence, a poisoning or a pack. */
  ghost predicate Run(worlds: seq<World>) {
    && worlds != [] && (forall i :: 0 <= i < |worlds| ==> worlds[i].Indexed())
    && forall i :: 0 < i < |worlds| ==> DropStep(worlds[i - 1], worlds[i]) || GainStep(worlds[i - 1], worlds[i])
  }

  ghost predicate OnlyDrops(worlds: seq<World>) {
    forall i :: 0 < i < |worlds| ==> DropStep(worlds[i - 1], worlds[i])
  }

  ghost predicate AllKeepRoutes(worlds: seq<World>) {
    forall i :: 0 < i < |worlds| ==> KeepsRoutes(worlds[i - 1], worlds[i])
  }

  /** One run after the other. */
  lemma RunJoin(a: seq<World>, b: seq<World>)
    requires Run(a) && Run(b) && a[|a| - 1] == b[0]
    ensures Run(a + b[1..]) && (a + b[1..])[0] == a[0] && (a + b[1..])[|a + b[1..]| - 1] == b[|b| - 1]
    ensures OnlyDrops(a) && OnlyDrops(b) ==> OnlyDrops(a + b[1..])
  {
    hide DropStep, GainStep, World.Indexed;
    var c := a + b[1..];
    forall i | 0 < i < |c|
      ensures DropStep(c[i - 1], c[i]) || GainStep(c[i - 1], c[i])
      ensures OnlyDrops(a) && OnlyDrops(b) ==> DropStep(c[i - 1], c[i])
    {
      if i >= |a| {
        assert c[i] == b[i - |a| + 1] && c[i - 1] == b[i - |a|];
      }
    }
  }

  lemma OneGain(run: seq<World>, after: World)
    requires Run(run) && after.Indexed() && GainStep(run[|run| - 1], after)
    ensures var more := run + [run[|run| - 1], after][1..];
      Run(more) && more[0] == run[0] && more[|more| - 1] == after && |more| == |run| + 1 && forall k :: 0 <= k < |run| ==> more[k] == run[k]
  {
    hide DropStep, GainStep, World.Indexed;
    RunStep(run[|run| - 1], after);
    RunJoin(run, [run[|run| - 1], after]);
  }

  lemma LicencesOf(run: seq<World>)
    requires Run(run)
    ensures forall i :: (0 <= i < |run[|run| - 1].recipes| && run[|run| - 1].recipes[i].verify == ReplayedLocal
                         && i < |run[0].recipes| && run[0].recipes[i].verify != ReplayedLocal) ==>
              exists k :: 0 < k < |run| && ProvedIn(run[k - 1], run[k], i)
  {
    hide World.Indexed, DropStep, GainStep, ProvedIn;
    var n := |run| - 1;
    forall i | 0 <= i < |run[n].recipes| && run[n].recipes[i].verify == ReplayedLocal && i < |run[0].recipes| && run[0].recipes[i].verify != ReplayedLocal
      ensures exists k :: 0 < k < |run| && ProvedIn(run[k - 1], run[k], i)
    {
      LicencesInRun(run, n, i);
    }
  }

  lemma RunStay(w: World)
    requires w.Indexed()
    ensures Run([w]) && OnlyDrops([w])
  {
  }

  lemma RunStep(w: World, after: World)
    requires w.Indexed() && after.Indexed() && (DropStep(w, after) || GainStep(w, after))
    ensures Run([w, after]) && (DropStep(w, after) ==> OnlyDrops([w, after]))
  {
    hide DropStep, GainStep, World.Indexed;
  }

  lemma {:induction false} RunSameTable(worlds: seq<World>, n: nat)
    requires Run(worlds) && n < |worlds| && |worlds[0].recipes| <= worlds[0].maxDepth
    ensures SameTable(worlds[0], worlds[n])
    ensures n > 0 ==> SameTable(worlds[n - 1], worlds[n])
  {
    hide World.Indexed;
    if n > 0 {
      RunSameTable(worlds, n - 1);
      assert DropStep(worlds[n - 1], worlds[n]) || GainStep(worlds[n - 1], worlds[n]);
      if GainStep(worlds[n - 1], worlds[n]) {
        GainStepGains(worlds[n - 1], worlds[n]);
      }
      hide GainStep;
    }
  }

  /** A run whose every step keeps routes keeps everything plannable. */
  lemma {:induction false} RunKeepsPlans(worlds: seq<World>, n: nat)
    requires Run(worlds) && n < |worlds| && |worlds[0].recipes| <= worlds[0].maxDepth && AllKeepRoutes(worlds)
    ensures worlds[0].maxDepth == worlds[n].maxDepth && StaysPlanned(worlds[0], worlds[n])
  {
    hide PlanBlob, KeepsRoutes, World.Indexed, DropStep, GainStep;
    RunSameTable(worlds, n);
    if n > 0 {
      RunKeepsPlans(worlds, n - 1);
      StepKeepsPlans(worlds[n - 1], worlds[n]);
    }
  }

  /** A blob that does not plan does not plan after a drop either. */
  lemma DropGainsNone(w: World, after: World)
    requires SameTable(w, after) && DropStep(w, after)
    ensures StaysPlanned(after, w)
  {
    var x :| x in w.stored && Dropped(w, after, x);
    assert after.Usable() <= w.Usable();
    hide PlanBlob, Grounded;
    forall h | PlanBlob(after, h, 0, []).Ok? ensures PlanBlob(w, h, 0, []).Ok? {
      PlansAreGrounded(w, h);
      PlansAreGrounded(after, h);
      GroundedMonotone(w.recipes, after.Usable(), after.stored, w.Usable(), w.stored, h);
    }
  }

  lemma {:induction false} DropsGainNone(worlds: seq<World>, m: nat, n: nat)
    requires Run(worlds) && OnlyDrops(worlds) && m <= n < |worlds| && |worlds[0].recipes| <= worlds[0].maxDepth
    ensures worlds[m].maxDepth == worlds[n].maxDepth && StaysPlanned(worlds[n], worlds[m])
    decreases n - m
  {
    hide PlanBlob, World.Indexed, DropStep, GainStep;
    RunSameTable(worlds, m);
    RunSameTable(worlds, n);
    if m < n {
      DropsGainNone(worlds, m, n - 1);
      DropGainsNone(worlds[n - 1], worlds[n]);
    }
  }

  /** Both for a run from one end to the other. */
  lemma RunPlans(worlds: seq<World>)
    requires Run(worlds)
    ensures var (first, last) := (worlds[0], worlds[|worlds| - 1]);
      && first.maxDepth == last.maxDepth
      && (|first.recipes| <= first.maxDepth && AllKeepRoutes(worlds) ==> StaysPlanned(first, last))
      && (|first.recipes| <= first.maxDepth && OnlyDrops(worlds) && StaysPlanned(first, last) ==> AllKeepRoutes(worlds))
  {
    hide StaysPlanned, AllKeepRoutes, OnlyDrops;
    var n := |worlds| - 1;
    SameDepth(worlds, n);
    if |worlds[0].recipes| <= worlds[0].maxDepth {
      if AllKeepRoutes(worlds) {
        RunKeepsPlans(worlds, n);
      }
      if OnlyDrops(worlds) {
        DropsKeepPlansExactly(worlds);
      }
    }
  }

  lemma {:induction false} SameDepth(worlds: seq<World>, n: nat)
    requires Run(worlds) && n < |worlds|
    ensures worlds[0].maxDepth == worlds[n].maxDepth
  {
    if n > 0 {
      SameDepth(worlds, n - 1);
      assert DropStep(worlds[n - 1], worlds[n]) || GainStep(worlds[n - 1], worlds[n]);
      if GainStep(worlds[n - 1], worlds[n]) {
        GainStepGains(worlds[n - 1], worlds[n]);
      }
      hide GainStep;
    }
  }

  /** Of drops alone, exactly such a run does. */
  lemma DropsKeepPlansExactly(worlds: seq<World>)
    requires Run(worlds) && OnlyDrops(worlds) && |worlds[0].recipes| <= worlds[0].maxDepth
    ensures worlds[0].maxDepth == worlds[|worlds| - 1].maxDepth
    ensures StaysPlanned(worlds[0], worlds[|worlds| - 1]) <==> AllKeepRoutes(worlds)
  {
    hide PlanBlob, KeepsRoutes, World.Indexed, DropStep, GainStep;
    var last := |worlds| - 1;
    RunSameTable(worlds, last);
    if AllKeepRoutes(worlds) {
      RunKeepsPlans(worlds, last);
    }
    if StaysPlanned(worlds[0], worlds[last]) {
      forall i | 0 < i < |worlds| ensures KeepsRoutes(worlds[i - 1], worlds[i]) {
        RunSameTable(worlds, i);
        DropsGainNone(worlds, 0, i - 1);
        DropsGainNone(worlds, i, last);
        StepKeepsPlans(worlds[i - 1], worlds[i]);
      }
    }
  }

  /** Blob 1 is rebuilt from blob 2 by a recipe that runs in component 3, itself rebuilt from blob 2. */
  function ComponentGraph(): Recipes {
    [Recipe(ReplayedLocal, Some(3), [2], [Claim(1, 10)]), Recipe(ReplayedLocal, None, [2], [Claim(3, 10)])]
  }

  function ComponentRows(third: Residency): map<Hash, BlobRow> {
    map[1 := BlobRow(Some(10), EvictedCovered), 2 := BlobRow(Some(10), Resident), 3 := BlobRow(Some(10), third)]
  }

  lemma ComponentDropAllowed()
    ensures var rs := ComponentGraph();
            && Grounded(rs, ReplayedRules(rs), ResidentBlobs(ComponentRows(Resident)) - {3}, 3)
            && Safe(ComponentRows(Resident), rs, 1)
            && Safe(ComponentRows(EvictedCovered), rs, 1)
  {
    var rs := ComponentGraph();
    assert ReplayedRules(rs) == {0, 1};
    assert rs[0].outputs[0] == Claim(1, 10) && rs[1].outputs[0] == Claim(3, 10);
    assert ResidentBlobs(ComponentRows(Resident)) - {3} == {2} == ResidentBlobs(ComponentRows(EvictedCovered));
    assert rs[0].Claims(1) && rs[1].Claims(3);
    RoundHas(rs, {0, 1}, {2}, 0, 1);
    RoundHas(rs, {0, 1}, {2}, 1, 3);
    assert Reach(rs, {0, 1}, {2}, 0) == {2};
    assert 1 in Reach(rs, {0, 1}, {2}, 1) && 3 in Reach(rs, {0, 1}, {2}, 1);
    DropKeepsGrounded(rs, {0, 1}, ResidentBlobs(ComponentRows(Resident)), 3);
  }

  /**
   Drop safety alone does not keep blobs plannable: the rules allow dropping the
   component, blob 1 stays safe, and yet blob 1 planned before and fails after.
   */
  lemma ComponentDropStrands()
    ensures var rs := ComponentGraph();
            && Grounded(rs, ReplayedRules(rs), ResidentBlobs(ComponentRows(Resident)) - {3}, 3)
            && Safe(ComponentRows(EvictedCovered), rs, 1)
            && PlanBlob(World(ComponentRows(Resident), rs, {2, 3}, {2, 3}, 1024), 1, 0, []).Ok?
            && PlanBlob(World(ComponentRows(EvictedCovered), rs, {2}, {2}, 1024), 1, 0, []) == Err(NoRoute(3))
  {
    ComponentDropAllowed();
    BeforeComponentDrop();
    AfterComponentDrop();
    hide *;
  }

  lemma ComponentRowed()
    ensures var rs := ComponentGraph();
            && AllRowed(ComponentRows(Resident), rs) && ResidentBlobs(ComponentRows(Resident)) <= {2, 3} && LicensedLoadable(rs, {2, 3}) && |rs| <= 1024
  {
    var rs := ComponentGraph();
    assert rs[0].outputs == [Claim(1, 10)] && rs[1].outputs == [Claim(3, 10)];
    assert ReplayedRules(rs) == {0, 1};
  }

  lemma BeforeComponentDrop()
    ensures PlanBlob(World(ComponentRows(Resident), ComponentGraph(), {2, 3}, {2, 3}, 1024), 1, 0, []).Ok?
  {
    var rs := ComponentGraph();
    hide PlanBlob, Safe, Reach, Grounded;
    ComponentDropAllowed();
    var before := World(ComponentRows(Resident), rs, {2, 3}, {2, 3}, 1024);
    ComponentRowed();
    hide ReplayedRules, ResidentBlobs, AllRowed, ComponentRows, ComponentGraph;
    SafePlans(before, 1);
  }

  lemma AfterComponentDrop()
    ensures PlanBlob(World(ComponentRows(EvictedCovered), ComponentGraph(), {2}, {2}, 1024), 1, 0, []) == Err(NoRoute(3))
  {
    var after := World(ComponentRows(EvictedCovered), ComponentGraph(), {2}, {2}, 1024);
    assert !after.Resolves(after.recipes[0]) && !after.recipes[1].Claims(1);
    assert PlanRecipe(after, 1, 0, [1], 0) == Err(NoRoute(3));
    assert after.recipes[0].outputs[0] == Claim(1, 10);
    assert after.recipes[0].Claims(1);
    assert PlanRoutes(after, 1, 0, [1], 2, NoRoute(3)) == Err(NoRoute(3));
    assert PlanRoutes(after, 1, 0, [1], 1, NoRoute(3)) == Err(NoRoute(3));
    assert PlanRoutes(after, 1, 0, [1], 0, NoRoute(1)) == Err(NoRoute(3));
  }

  ghost predicate AllRowed(blobs: map<Hash, BlobRow>, rs: Recipes) {
    forall i :: 0 <= i < |rs| ==>
      && (forall x :: x in rs[i].inputs ==> x in blobs)
      && forall c :: c in rs[i].outputs ==> c.hash in blobs
  }
}
