/**
 The bulk blessing pass (`bless_loop`): one coordinator that pages and triages
 candidates, a pool of workers that run jobs, and the channels between them, in
 every interleaving of the two.
 */
module Bless {
  import opened Wrappers

  const GROUP_BYTES: nat := 16384
  const TREE_BUDGET_PER_WORKER: nat := 0x400_0000
  const QUEUE_CAP: nat := 256
  const PAGE: nat := 4096

  /** Tree bytes for a blob: one 64-byte node per group past the first. */
  function OutboardSize(len: nat): nat {
    if len <= GROUP_BYTES then 0 else ((len + GROUP_BYTES - 1) / GROUP_BYTES - 1) * 64
  }

  /** A tree over `groups + 1` groups of 16 KiB has 64 bytes for each group but one. */
  lemma OutboardSizeIs(len: nat, groups: nat)
    requires 16384 * groups < len <= 16384 * (groups + 1)
    ensures OutboardSize(len) == 64 * groups
  {
  }

  /** The smallest size worth a blessing. */
  function Floor(minSize: nat): nat {
    if minSize > GROUP_BYTES + 1 then minSize else GROUP_BYTES + 1
  }

  datatype Job = Job(seqNo: nat, len: nat, weight: nat)

  /** What triage says of a candidate: a counted skip, a route that refuses to plan, or a job. */
  datatype Triage = Reconciled | HasTree | NoRoute | PlanError | CarvedOut | Selected

  /** A worker's answer. */
  datatype Verdict = Blessed | AlreadyThere | NoRoom | Refused(claimFailure: bool)

  datatype Options = Options(workers: nat, materialize: bool, minSize: nat, dryRun: bool, limit: nat)

  datatype Row = Row(id: nat, len: nat)

  /**
   What index and workers would say of the candidates, by number: triage, the verdict
   on a job, whether its row could be written, whether its route could be poisoned.
   */
  datatype Answers = Answers(triage: nat -> Triage, verdict: nat -> Verdict, recorded: nat -> bool, poisoned: nat -> bool)

  // ---- The candidates ----

  /** The rows of at least `floor` bytes. */
  ghost function Large(table: seq<Row>, floor: nat): seq<Row> {
    if table == [] then []
    else
      var last := table[|table| - 1];
      Large(table[..|table| - 1], floor) + if last.len >= floor then [last] else []
  }

  ghost predicate InIdOrder(rows: seq<Row>) {
    (forall i :: 0 <= i < |rows| ==> rows[i].id > 0) && forall i, j :: 0 <= i < j < |rows| ==> rows[i].id < rows[j].id
  }

  /** The ids up to `k` are at most `cursor`, the others are past it. */
  ghost predicate Splits(rows: seq<Row>, k: nat, cursor: nat) {
    && k <= |rows|
    && (forall i :: 0 <= i < k ==> rows[i].id <= cursor)
    && (forall i :: k <= i < |rows| ==> rows[i].id > cursor)
  }

  /** The keyset query answers with the first rows past the cursor, `limit` of them at most. */
  ghost predicate Pages(fetch: (nat, nat, nat) -> seq<Row>, table: seq<Row>) {
    forall cursor: nat, floor: nat, limit: nat, k: nat :: Splits(Large(table, floor), k, cursor) ==>
      fetch(cursor, floor, limit) == Large(table, floor)[k..if k + limit <= |Large(table, floor)| then k + limit else |Large(table, floor)|]
  }

  /** The candidates of a run are the table's rows of more than one group and of the asked size, in id order. */
  lemma {:induction false} CandidatesAre(table: seq<Row>, minSize: nat)
    requires InIdOrder(table)
    ensures InIdOrder(Large(table, Floor(minSize)))
    ensures forall x :: x in Large(table, Floor(minSize)) <==> x in table && x.len >= minSize && x.len > 16384
  {
    if table != [] {
      var init := table[..|table| - 1];
      assert forall i :: 0 <= i < |init| ==> init[i] == table[i];
      CandidatesAre(init, minSize);
      assert table == init + [table[|table| - 1]];
      assert forall x :: x in init ==> x.id < table[|table| - 1].id;
      var before := Large(init, Floor(minSize));
      assert forall i :: 0 <= i < |before| ==> before[i] in init;
    }
  }

  /** There are as many of them as the count over the same condition says. */
  lemma CandidatesCounted(table: seq<Row>, minSize: nat)
    requires InIdOrder(table)
    ensures |Large(table, Floor(minSize))| == |set x | x in table && x.len >= minSize && x.len > 16384|
  {
    CandidatesAre(table, minSize);
    var rows := Large(table, Floor(minSize));
    assert (set x | x in table && x.len >= minSize && x.len > 16384) == set x | x in rows;
    CountOnce(rows);
  }

  lemma {:induction false} CountOnce(rows: seq<Row>)
    requires InIdOrder(rows)
    ensures |set x | x in rows| == |rows|
  {
    if rows != [] {
      var init, last := rows[..|rows| - 1], rows[|rows| - 1];
      assert forall i :: 0 <= i < |init| ==> init[i] == rows[i];
      CountOnce(init);
      assert rows == init + [last];
      assert (set x | x in rows) == (set x | x in init) + {last};
      assert forall x :: x in init ==> x.id < last.id;
    }
  }

  /** The first `n` rows that were selected, as jobs: each with its number, its size and the size of its tree. */
  ghost function JobsOf(rows: seq<Row>, a: Answers, n: nat): seq<Job>
    requires n <= |rows|
  {
    if n == 0 then []
    else JobsOf(rows, a, n - 1) + if a.triage(n - 1) == Selected then [Job(n - 1, rows[n - 1].len, OutboardSize(rows[n - 1].len))] else []
  }

  /** A job of its row: selected, with the row's length and tree. */
  ghost predicate IsJob(rows: seq<Row>, a: Answers, j: Job) {
    j.seqNo < |rows| && a.triage(j.seqNo) == Selected && j.len == rows[j.seqNo].len && j.weight == OutboardSize(j.len) && j.weight > 0
  }

  ghost predicate AllLarge(rows: seq<Row>) {
    forall i :: 0 <= i < |rows| ==> rows[i].len > 16384
  }

  lemma {:induction false} JobsAre(rows: seq<Row>, a: Answers, n: nat)
    requires n <= |rows| && AllLarge(rows)
    ensures Ascending(JobsOf(rows, a, n)) && forall j :: j in JobsOf(rows, a, n) ==> IsJob(rows, a, j) && j.seqNo < n
    ensures forall k :: 0 <= k < n && a.triage(k) == Selected ==> Job(k, rows[k].len, OutboardSize(rows[k].len)) in JobsOf(rows, a, n)
  {
    if n > 0 {
      JobsAre(rows, a, n - 1);
      var before := JobsOf(rows, a, n - 1);
      assert forall i :: 0 <= i < |before| ==> before[i] in before;
      assert rows[n - 1].len > 16384;
    }
  }

  // ---- In-flight jobs ----

  function Weight(jobs: seq<Job>): nat {
    if jobs == [] then 0 else Weight(jobs[..|jobs| - 1]) + jobs[|jobs| - 1].weight
  }

  function Remove<T>(s: seq<T>, i: nat): seq<T>
    requires i < |s|
  {
    s[..i] + s[i + 1..]
  }

  lemma RemoveMultiset<T>(s: seq<T>, i: nat)
    requires i < |s|
    ensures multiset(s) == multiset(Remove(s, i)) + multiset{s[i]}
  {
    assert s == s[..i] + [s[i]] + s[i + 1..];
  }

  lemma {:induction false} RemoveWeight(jobs: seq<Job>, i: nat)
    requires i < |jobs|
    ensures Weight(jobs) == Weight(Remove(jobs, i)) + jobs[i].weight
  {
    var n := |jobs| - 1;
    if i == n {
      assert Remove(jobs, i) == jobs[..n];
    } else {
      RemoveWeight(jobs[..n], i);
      assert Remove(jobs, i)[..n - 1] == Remove(jobs[..n], i);
    }
  }

  lemma {:induction false} WeightBounds(jobs: seq<Job>)
    requires forall i :: 0 <= i < |jobs| ==> jobs[i].weight > 0
    ensures Weight(jobs) >= |jobs|
  {
    if jobs != [] {
      WeightBounds(jobs[..|jobs| - 1]);
    }
  }

  /** Whether the tree budget has room; an empty budget admits anything. */
  predicate Admits(inflight: nat, cap: nat, weight: nat) {
    inflight == 0 || inflight + weight <= cap
  }

  lemma CancelOne(a: multiset<Job>, b: multiset<Job>, x: Job)
    requires a + multiset{x} == b + multiset{x}
    ensures a == b
  {
    assert a == (a + multiset{x}) - multiset{x};
  }

  // ---- The pool ----

  /** The scheduler's choice: either. */
  method Choose() returns (b: bool)
  {
    if * {
      b := true;
    } else {
      b := false;
    }
  }

  /** Workers and channels: jobs waiting, jobs being run (at most one per worker), results not yet received. */
  class Pool {
    const workers: nat
    var waiting: seq<Job>
    var busy: seq<Job>
    var finished: seq<Job>

    ghost predicate Holds(owed: seq<Job>)
      reads this
    {
      workers > 0 && |busy| <= workers && multiset(waiting) + multiset(busy) + multiset(finished) == multiset(owed)
    }

    constructor (workers: nat)
      requires workers > 0
      ensures this.workers == workers && Holds([])
    {
      this.workers, waiting, busy, finished := workers, [], [], [];
    }

    /** An idle worker takes the next job. */
    method Take(ghost owed: seq<Job>)
      requires Holds(owed) && waiting != [] && |busy| < workers
      modifies this
      ensures Holds(owed) && |waiting| == old(|waiting|) - 1 && |busy| == old(|busy|) + 1 && finished == old(finished)
    {
      assert waiting == [waiting[0]] + waiting[1..];
      busy := busy + [waiting[0]];
      waiting := waiting[1..];
    }

    /** Any busy worker finishes, whichever took its job first. */
    method Finish(ghost owed: seq<Job>)
      requires Holds(owed) && busy != []
      modifies this
      ensures Holds(owed) && waiting == old(waiting) && |busy| == old(|busy|) - 1 && finished != []
    {
      var i :| 0 <= i < |busy|;
      RemoveMultiset(busy, i);
      finished := finished + [busy[i]];
      busy := Remove(busy, i);
    }

    /** Any number of worker steps. */
    method Run(ghost owed: seq<Job>)
      requires Holds(owed)
      modifies this
      ensures Holds(owed)
    {
      while *
        invariant Holds(owed)
        decreases 2 * |waiting| + |busy|
      {
        var take := waiting != [] && |busy| < workers;
        if take && busy != [] {
          take := Choose();
        }
        if take {
          Take(owed);
        } else if busy != [] {
          Finish(owed);
        } else {
          break;
        }
      }
    }

    /** Send a job to the workers. */
    method Send(job: Job, ghost owed: seq<Job>)
      requires Holds(owed)
      modifies this
      ensures Holds(owed + [job])
    {
      Run(owed);
      waiting := waiting + [job];
    }

    /** Block until some worker has answered; which one is up to the pool. */
    method Receive(ghost owed: seq<Job>) returns (job: Job, ghost i: nat)
      requires Holds(owed) && owed != []
      modifies this
      ensures i < |owed| && owed[i] == job && Holds(Remove(owed, i))
    {
      assert owed[0] in multiset(owed);
      Run(owed);
      while finished == []
        invariant Holds(owed)
        decreases 2 * |waiting| + |busy|
      {
        var take := waiting != [] && |busy| < workers;
        if take && busy != [] {
          take := Choose();
        }
        if take {
          Take(owed);
        } else {
          assert busy != [] by {
            assert owed[0] in multiset(waiting) + multiset(busy);
          }
          Finish(owed);
        }
      }
      job := finished[0];
      assert finished == [job] + finished[1..];
      assert job in multiset(finished) && job in multiset(owed);
      i :| 0 <= i < |owed| && owed[i] == job;
      RemoveMultiset(owed, i);
      finished := finished[1..];
      CancelOne(multiset(waiting) + multiset(busy) + multiset(finished), multiset(Remove(owed, i)), job);
    }
  }

  // ---- The report ----

  datatype Report = Report(
    examined: nat, alreadyBlessed: nat, reconciled: nat, carvedOut: nat, noRoute: nat, selected: nat, selectedBytes: nat,
    blessed: nat, bytes: nat, materialized: nat, unrecorded: nat, outOfRoom: bool, poisoned: nat, failures: seq<nat>)

  const EMPTY_REPORT: Report := Report(0, 0, 0, 0, 0, 0, 0, 0, 0, 0, 0, false, 0, [])

  ghost predicate Distinct(s: seq<nat>) {
    forall i, j :: 0 <= i < j < |s| ==> s[i] != s[j]
  }

  /** The candidates below `n` of which triage says `t`. */
  ghost function Seen(a: Answers, n: nat, t: Triage): set<nat> {
    set k: nat | k < n && a.triage(k) == t
  }

  /** Those of which the verdict is `v`. */
  ghost function Did(a: Answers, done: set<nat>, v: Verdict): set<nat> {
    set k | k in done && a.verdict(k) == v
  }

  /** The blessed ones whose row was written, or was not. */
  ghost function Written(a: Answers, done: set<nat>, recorded: bool): set<nat> {
    set k | k in done && a.verdict(k) == Blessed && a.recorded(k) == recorded
  }

  /** Those that disproved their route and had it poisoned. */
  ghost function Disproved(a: Answers, done: set<nat>): set<nat> {
    set k | k in done && a.verdict(k) == Refused(true) && a.poisoned(k)
  }

  ghost function BytesOf(rows: seq<Row>, which: set<nat>): nat {
    if rows == [] then 0
    else BytesOf(rows[..|rows| - 1], which) + if |rows| - 1 in which then rows[|rows| - 1].len else 0
  }

  /**
   The report says how many of the first `n` candidates triage put where, and of the
   jobs `done` how many came back how, with the sizes of those rows. `full` is the one
   failure for lack of room that is listed.
   */
  ghost predicate Tells(o: Options, rows: seq<Row>, a: Answers, n: nat, done: set<nat>, full: Option<nat>, r: Report) {
    && Triaged(rows, a, n, r) && Worked(o, rows, a, done, r)
    && r.alreadyBlessed == |Seen(a, n, HasTree)| + |Did(a, done, AlreadyThere)|
    && Fails(o, a, n, done, full, r)
  }

  ghost predicate Triaged(rows: seq<Row>, a: Answers, n: nat, r: Report) {
    && r.examined == n && r.reconciled == |Seen(a, n, Reconciled)| && r.noRoute == |Seen(a, n, NoRoute)| && r.carvedOut == |Seen(a, n, CarvedOut)|
    && r.selected == |Seen(a, n, Selected)| && r.selectedBytes == BytesOf(rows, Seen(a, n, Selected))
  }

  ghost predicate Worked(o: Options, rows: seq<Row>, a: Answers, done: set<nat>, r: Report) {
    && r.blessed == |Did(a, done, Blessed)| + |Did(a, done, AlreadyThere)| && r.bytes == BytesOf(rows, Did(a, done, Blessed))
    && r.materialized == (if o.materialize then |Written(a, done, true)| else 0)
    && r.unrecorded == (if o.materialize then |Written(a, done, false)| else 0)
    && r.poisoned == |Disproved(a, done)|
  }

  /** Exactly these fail, each listed once: no plan, refused, not written, and the first that found no room. */
  ghost predicate Fails(o: Options, a: Answers, n: nat, done: set<nat>, full: Option<nat>, r: Report) {
    && Distinct(r.failures)
    && (forall k: nat :: k in r.failures <==>
          || (k < n && a.triage(k) == PlanError)
          || (k in done && (a.verdict(k).Refused? || (a.verdict(k) == Blessed && o.materialize && !a.recorded(k))))
          || full == Some(k))
    && (full.Some? ==> full.value in done && a.verdict(full.value) == NoRoom)
    && (r.outOfRoom <==> Did(a, done, NoRoom) != {}) && (r.outOfRoom <==> full.Some?)
  }

  function Skipped(t: Triage, seqNo: nat, r: Report): Report
    requires t != Selected
  {
    var e := r.(examined := r.examined + 1);
    match t
    case Reconciled => e.(reconciled := e.reconciled + 1)
    case HasTree => e.(alreadyBlessed := e.alreadyBlessed + 1)
    case NoRoute => e.(noRoute := e.noRoute + 1)
    case PlanError => e.(failures := e.failures + [seqNo])
    case CarvedOut => e.(carvedOut := e.carvedOut + 1)
  }

  /** What retiring a job does to the report. `recorded` is whether its row could be written, `poisoned` whether its route was. */
  function Retired(o: Options, v: Verdict, recorded: bool, poisoned: bool, job: Job, r: Report): Report {
    match v
    case Blessed =>
      var b := r.(blessed := r.blessed + 1, bytes := r.bytes + job.len);
      if !o.materialize then b
      else if recorded then b.(materialized := b.materialized + 1)
      else b.(unrecorded := b.unrecorded + 1, failures := b.failures + [job.seqNo])
    case AlreadyThere => r.(blessed := r.blessed + 1, alreadyBlessed := r.alreadyBlessed + 1)
    case NoRoom => if r.outOfRoom then r else r.(outOfRoom := true, failures := r.failures + [job.seqNo])
    case Refused(claimFailure) =>
      var p := if claimFailure && poisoned then r.(poisoned := r.poisoned + 1) else r;
      p.(failures := p.failures + [job.seqNo])
  }

  /** Whether a verdict stops the walk. */
  predicate Stops(o: Options, v: Verdict, recorded: bool) {
    v.NoRoom? || (v.Blessed? && o.materialize && !recorded)
  }

  /** One more, or the same. */
  lemma OneMore(s: set<nat>, t: set<nat>, k: nat, more: bool)
    requires k !in s && forall x :: x in t <==> x in s || (more && x == k)
    ensures t == if more then s + {k} else s
    ensures |t| == |s| + if more then 1 else 0
  {
    if more {
      assert t == s + {k};
    } else {
      assert t == s;
    }
  }

  lemma SeenNext(a: Answers, n: nat, t: Triage)
    ensures a.triage(n) == t ==> Seen(a, n + 1, t) == Seen(a, n, t) + {n} && |Seen(a, n + 1, t)| == |Seen(a, n, t)| + 1
    ensures a.triage(n) != t ==> Seen(a, n + 1, t) == Seen(a, n, t)
    ensures n !in Seen(a, n, t)
  {
    SeenMore(a, n, t);
    hide Seen;
    OneMore(Seen(a, n, t), Seen(a, n + 1, t), n, a.triage(n) == t);
  }

  lemma SeenMore(a: Answers, n: nat, t: Triage)
    ensures n !in Seen(a, n, t) && forall x :: x in Seen(a, n + 1, t) <==> x in Seen(a, n, t) || (a.triage(n) == t && x == n)
  {
  }

  lemma DidNext(a: Answers, done: set<nat>, k: nat, v: Verdict)
    requires k !in done
    ensures a.verdict(k) == v ==> Did(a, done + {k}, v) == Did(a, done, v) + {k} && |Did(a, done + {k}, v)| == |Did(a, done, v)| + 1
    ensures a.verdict(k) != v ==> Did(a, done + {k}, v) == Did(a, done, v)
  {
    assert forall x :: x in Did(a, done + {k}, v) <==> x in Did(a, done, v) || (a.verdict(k) == v && x == k);
    OneMore(Did(a, done, v), Did(a, done + {k}, v), k, a.verdict(k) == v);
  }

  lemma WrittenNext(a: Answers, done: set<nat>, k: nat, recorded: bool)
    requires k !in done
    ensures |Written(a, done + {k}, recorded)| == |Written(a, done, recorded)| + if a.verdict(k) == Blessed && a.recorded(k) == recorded then 1 else 0
  {
    if a.verdict(k) == Blessed && a.recorded(k) == recorded {
      assert Written(a, done + {k}, recorded) == Written(a, done, recorded) + {k};
    } else {
      assert Written(a, done + {k}, recorded) == Written(a, done, recorded);
    }
  }

  lemma DisprovedNext(a: Answers, done: set<nat>, k: nat)
    requires k !in done
    ensures |Disproved(a, done + {k})| == |Disproved(a, done)| + if a.verdict(k) == Refused(true) && a.poisoned(k) then 1 else 0
  {
    if a.verdict(k) == Refused(true) && a.poisoned(k) {
      assert Disproved(a, done + {k}) == Disproved(a, done) + {k};
    } else {
      assert Disproved(a, done + {k}) == Disproved(a, done);
    }
  }

  lemma {:induction false} BytesNext(rows: seq<Row>, which: set<nat>, k: nat)
    requires k !in which
    ensures BytesOf(rows, which + {k}) == BytesOf(rows, which) + if k < |rows| then rows[k].len else 0
  {
    if rows != [] {
      BytesNext(rows[..|rows| - 1], which, k);
    }
  }

  lemma BytesOfNone(rows: seq<Row>)
    ensures BytesOf(rows, {}) == 0
  {
  }

  lemma StartsTold(o: Options, rows: seq<Row>, a: Answers)
    ensures Tells(o, rows, a, 0, {}, None, EMPTY_REPORT)
  {
    assert forall t :: Seen(a, 0, t) == {};
    assert forall v :: Did(a, {}, v) == {};
    assert forall b :: Written(a, {}, b) == {};
    assert Disproved(a, {}) == {};
    BytesOfNone(rows);
  }

  lemma SkipTells(o: Options, rows: seq<Row>, a: Answers, n: nat, done: set<nat>, full: Option<nat>, r: Report)
    requires Tells(o, rows, a, n, done, full, r) && a.triage(n) != Selected && forall k :: k in done ==> k < n
    ensures Tells(o, rows, a, n + 1, done, full, Skipped(a.triage(n), n, r))
  {
    hide Triaged, Worked, Fails, Seen, Did;
    SkipTriaged(rows, a, n, r);
    SkipWorked(o, rows, a, done, r, a.triage(n), n);
    SeenNext(a, n, HasTree);
    SkipFails(o, a, n, done, full, r);
  }

  lemma SkipTriaged(rows: seq<Row>, a: Answers, n: nat, r: Report)
    requires Triaged(rows, a, n, r) && a.triage(n) != Selected
    ensures Triaged(rows, a, n + 1, Skipped(a.triage(n), n, r))
  {
    hide Seen, BytesOf;
    SeenNext(a, n, Reconciled);
    SeenNext(a, n, NoRoute);
    SeenNext(a, n, CarvedOut);
    SeenNext(a, n, Selected);
  }

  lemma SkipWorked(o: Options, rows: seq<Row>, a: Answers, done: set<nat>, r: Report, t: Triage, n: nat)
    requires Worked(o, rows, a, done, r) && t != Selected
    ensures Worked(o, rows, a, done, Skipped(t, n, r))
  {
    hide Did, Written, Disproved, BytesOf;
  }

  lemma SkipFails(o: Options, a: Answers, n: nat, done: set<nat>, full: Option<nat>, r: Report)
    requires Fails(o, a, n, done, full, r) && a.triage(n) != Selected && forall k :: k in done ==> k < n
    ensures Fails(o, a, n + 1, done, full, Skipped(a.triage(n), n, r))
  {
    assert n !in r.failures;
    var after := Skipped(a.triage(n), n, r);
    assert forall k :: k in after.failures <==> k in r.failures || (k == n && a.triage(n) == PlanError);
  }

  lemma SelectTells(o: Options, rows: seq<Row>, a: Answers, n: nat, done: set<nat>, full: Option<nat>, r: Report)
    requires Tells(o, rows, a, n, done, full, r) && a.triage(n) == Selected && n < |rows|
    ensures Tells(o, rows, a, n + 1, done, full, r.(examined := r.examined + 1, selected := r.selected + 1, selectedBytes := r.selectedBytes + rows[n].len))
  {
    hide Triaged, Worked, Fails, Seen, Did;
    var after := r.(examined := r.examined + 1, selected := r.selected + 1, selectedBytes := r.selectedBytes + rows[n].len);
    SelectTriaged(rows, a, n, r);
    SeenNext(a, n, HasTree);
    SelectRest(o, rows, a, n, done, full, r, after);
  }

  lemma SelectTriaged(rows: seq<Row>, a: Answers, n: nat, r: Report)
    requires Triaged(rows, a, n, r) && a.triage(n) == Selected && n < |rows|
    ensures Triaged(rows, a, n + 1, r.(examined := r.examined + 1, selected := r.selected + 1, selectedBytes := r.selectedBytes + rows[n].len))
  {
    hide Seen, BytesOf;
    SeenNext(a, n, Reconciled);
    SeenNext(a, n, NoRoute);
    SeenNext(a, n, CarvedOut);
    SeenNext(a, n, Selected);
    BytesNext(rows, Seen(a, n, Selected), n);
  }

  lemma SelectRest(o: Options, rows: seq<Row>, a: Answers, n: nat, done: set<nat>, full: Option<nat>, r: Report, after: Report)
    requires Worked(o, rows, a, done, r) && Fails(o, a, n, done, full, r) && a.triage(n) == Selected
    requires after == r.(examined := after.examined, selected := after.selected, selectedBytes := after.selectedBytes)
    ensures Worked(o, rows, a, done, after) && Fails(o, a, n + 1, done, full, after)
  {
    hide Did, Written, Disproved, BytesOf, Distinct;
  }

  lemma RetireTells(o: Options, rows: seq<Row>, a: Answers, n: nat, done: set<nat>, full: Option<nat>, r: Report, job: Job)
    requires Tells(o, rows, a, n, done, full, r) && IsJob(rows, a, job) && job.seqNo !in done
    ensures Tells(o, rows, a, n, done + {job.seqNo}, FullAfter(a, full, job.seqNo),
                  Retired(o, a.verdict(job.seqNo), a.recorded(job.seqNo), a.poisoned(job.seqNo), job, r))
  {
    hide Triaged, Worked, Fails, Seen, Did, FullAfter, IsJob;
    var k := job.seqNo;
    RetireTriaged(rows, a, n, r, o, job);
    RetireWorked(o, rows, a, done, r, job);
    DidNext(a, done, k, AlreadyThere);
    RetireFails(o, rows, a, n, done, full, r, job);
  }

  lemma RetireTriaged(rows: seq<Row>, a: Answers, n: nat, r: Report, o: Options, job: Job)
    requires Triaged(rows, a, n, r)
    ensures Triaged(rows, a, n, Retired(o, a.verdict(job.seqNo), a.recorded(job.seqNo), a.poisoned(job.seqNo), job, r))
  {
    hide Seen, BytesOf;
  }

  lemma RetireWorked(o: Options, rows: seq<Row>, a: Answers, done: set<nat>, r: Report, job: Job)
    requires Worked(o, rows, a, done, r) && IsJob(rows, a, job) && job.seqNo !in done
    ensures Worked(o, rows, a, done + {job.seqNo}, Retired(o, a.verdict(job.seqNo), a.recorded(job.seqNo), a.poisoned(job.seqNo), job, r))
  {
    var k := job.seqNo;
    RetireBytes(o, rows, a, done, r, job);
    RetireWrites(o, a, done, r, job);
    hide Did, Written, Disproved, BytesOf;
    DidNext(a, done, k, Blessed);
    DidNext(a, done, k, AlreadyThere);
    DisprovedNext(a, done, k);
  }

  lemma RetireWrites(o: Options, a: Answers, done: set<nat>, r: Report, job: Job)
    requires job.seqNo !in done
    requires r.materialized == (if o.materialize then |Written(a, done, true)| else 0)
    requires r.unrecorded == (if o.materialize then |Written(a, done, false)| else 0)
    ensures var k, after := job.seqNo, Retired(o, a.verdict(job.seqNo), a.recorded(job.seqNo), a.poisoned(job.seqNo), job, r);
            && after.materialized == (if o.materialize then |Written(a, done + {k}, true)| else 0)
            && after.unrecorded == (if o.materialize then |Written(a, done + {k}, false)| else 0)
  {
    WrittenNext(a, done, job.seqNo, true);
    WrittenNext(a, done, job.seqNo, false);
    hide Written;
  }

  lemma RetireBytes(o: Options, rows: seq<Row>, a: Answers, done: set<nat>, r: Report, job: Job)
    requires r.bytes == BytesOf(rows, Did(a, done, Blessed)) && IsJob(rows, a, job) && job.seqNo !in done
    ensures Retired(o, a.verdict(job.seqNo), a.recorded(job.seqNo), a.poisoned(job.seqNo), job, r).bytes == BytesOf(rows, Did(a, done + {job.seqNo}, Blessed))
  {
    var k := job.seqNo;
    assert k !in Did(a, done, Blessed);
    hide Did, BytesOf;
    DidNext(a, done, k, Blessed);
    BytesNext(rows, Did(a, done, Blessed), k);
  }

  /** The first that finds no room is the one listed. */
  ghost function FullAfter(a: Answers, full: Option<nat>, k: nat): Option<nat> {
    if full.None? && a.verdict(k) == NoRoom then Some(k) else full
  }

  /** Whether a job that comes back is listed as a failure. */
  ghost predicate IsListed(o: Options, a: Answers, outOfRoom: bool, k: nat) {
    a.verdict(k).Refused? || (a.verdict(k) == Blessed && o.materialize && !a.recorded(k)) || (a.verdict(k) == NoRoom && !outOfRoom)
  }

  lemma RetireFails(o: Options, rows: seq<Row>, a: Answers, n: nat, done: set<nat>, full: Option<nat>, r: Report, job: Job)
    requires Fails(o, a, n, done, full, r) && IsJob(rows, a, job) && job.seqNo !in done
    ensures Fails(o, a, n, done + {job.seqNo}, FullAfter(a, full, job.seqNo),
                  Retired(o, a.verdict(job.seqNo), a.recorded(job.seqNo), a.poisoned(job.seqNo), job, r))
  {
    var k := job.seqNo;
    assert k !in r.failures;
    RetiredLists(o, a, job, r);
    ListOne(r.failures, k);
    DidNext(a, done, k, NoRoom);
    hide Did, Retired, Distinct, IsJob, IsListed;
    var after := Retired(o, a.verdict(k), a.recorded(k), a.poisoned(k), job, r);
    FailsMore(o, a, n, done, full, r, after, k);
  }

  lemma FailsMore(o: Options, a: Answers, n: nat, done: set<nat>, full: Option<nat>, r: Report, after: Report, k: nat)
    requires Fails(o, a, n, done, full, r) && k !in done && Distinct(after.failures)
    requires forall x :: x in after.failures <==> x in r.failures || (x == k && IsListed(o, a, r.outOfRoom, k))
    requires after.outOfRoom == (r.outOfRoom || a.verdict(k) == NoRoom)
    requires Did(a, done + {k}, NoRoom) == if a.verdict(k) == NoRoom then Did(a, done, NoRoom) + {k} else Did(a, done, NoRoom)
    ensures Fails(o, a, n, done + {k}, FullAfter(a, full, k), after)
  {
    hide Did, Distinct;
  }

  /** What a job that comes back adds to the failures. */
  lemma RetiredLists(o: Options, a: Answers, job: Job, r: Report)
    ensures var k, after := job.seqNo, Retired(o, a.verdict(job.seqNo), a.recorded(job.seqNo), a.poisoned(job.seqNo), job, r);
            && after.failures == (if IsListed(o, a, r.outOfRoom, k) then r.failures + [k] else r.failures)
            && after.outOfRoom == (r.outOfRoom || a.verdict(k) == NoRoom)
  {
  }

  lemma ListOne(s: seq<nat>, k: nat)
    requires Distinct(s) && k !in s
    ensures Distinct(s + [k]) && (forall x :: x in s + [k] <==> x in s || x == k)
  {
  }

  // ---- The coordinator ----

  /** What happened, for the proof: jobs out, sent, back and let go, and the first that found no room. */
  datatype Log = Log(owed: seq<Job>, sent: seq<Job>, retired: seq<Job>, dropped: seq<Job>, full: Option<nat>)

  ghost predicate Ascending(jobs: seq<Job>) {
    forall i, j :: 0 <= i < j < |jobs| ==> jobs[i].seqNo < jobs[j].seqNo
  }

  ghost function Numbers(jobs: seq<Job>): set<nat> {
    set j | j in jobs :: j.seqNo
  }

  ghost function Opt(held: Option<Job>): seq<Job> {
    if held.Some? then [held.value] else []
  }

  /** The in-flight accounting: exact charge and count, the budget exceeded by a lone job only, the queue bounded. */
  ghost predicate Accounts(cap: nat, inflight: nat, outstanding: nat, held: Option<Job>, log: Log) {
    && inflight == Weight(log.owed) && outstanding == |log.owed| && outstanding <= 256
    && (inflight <= cap || outstanding == 1)
    && (held.Some? ==> outstanding < 256)
  }

  /**
   The selected candidates among the first `n` were sent in order, but for the one
   that is held or was let go; what was sent is out or back, and no job is both.
   */
  ghost predicate Orderly(o: Options, rows: seq<Row>, a: Answers, n: nat, held: Option<Job>, log: Log) {
    && n <= |rows| && log.sent + Opt(held) + log.dropped == (if o.dryRun then [] else JobsOf(rows, a, n))
    && multiset(log.sent) == multiset(log.retired) + multiset(log.owed)
    && Ascending(log.owed) && Numbers(log.retired) !! Numbers(log.owed)
  }

  /** Some verdict so far stops the walk: no room, or a row that could not be written. */
  ghost predicate Stopped(o: Options, a: Answers, done: set<nat>) {
    exists k :: k in done && (a.verdict(k) == NoRoom || (a.verdict(k) == Blessed && o.materialize && !a.recorded(k)))
  }

  /** The walk stands behind the first `n` rows and goes on until the rows end, the limit is reached or a verdict stops it. */
  ghost predicate Staging(o: Options, rows: seq<Row>, a: Answers, n: nat, page: seq<Row>, cursor: nat, walking: bool, held: Option<Job>, log: Log) {
    && n <= |rows| && n + |page| <= |rows| && page == rows[n..n + |page|] && (walking ==> Splits(rows, n + |page|, cursor))
    && (!walking ==> page == [] && (Stopped(o, a, Numbers(log.retired)) || n == |rows| || AtLimit(o, a, n)))
    && (walking ==> !AtLimit(o, a, n)) && WithinLimit(o, a, n)
    && (Stopped(o, a, Numbers(log.retired)) ==> !walking && held.None?)
    && |log.dropped| <= 1 && (log.dropped != [] ==> Stopped(o, a, Numbers(log.retired)))
    && (o.dryRun ==> held.None?)
  }

  ghost predicate AtLimit(o: Options, a: Answers, n: nat) {
    o.limit != 0 && |Seen(a, n, Selected)| == o.limit
  }

  /** No more are selected than the limit, and the row that reaches it is the last one examined. */
  ghost predicate WithinLimit(o: Options, a: Answers, n: nat) {
    o.limit != 0 ==> |Seen(a, n, Selected)| <= o.limit && (AtLimit(o, a, n) ==> n > 0 && a.triage(n - 1) == Selected)
  }

  /** The invariant of the coordinator, over the rows it has to go through. */
  ghost predicate Consistent(o: Options, rows: seq<Row>, a: Answers, cap: nat, inflight: nat, outstanding: nat, held: Option<Job>, n: nat, r: Report, log: Log) {
    && Accounts(cap, inflight, outstanding, held, log) && Orderly(o, rows, a, n, held, log)
    && Tells(o, rows, a, n, Numbers(log.retired), log.full, r)
  }

  /** All that is out, back or held is a job of its row, in the order of the rows. */
  lemma SentAre(o: Options, rows: seq<Row>, a: Answers, n: nat, held: Option<Job>, log: Log)
    requires Orderly(o, rows, a, n, held, log) && AllLarge(rows)
    ensures Ascending(log.sent) && forall j :: j in log.sent ==> IsJob(rows, a, j) && j.seqNo < n
    ensures forall j :: j in log.owed || j in log.retired ==> j in log.sent
    ensures held.Some? ==> IsJob(rows, a, held.value) && held.value.seqNo < n && forall j :: j in log.sent ==> j.seqNo < held.value.seqNo
    ensures forall k :: k in Numbers(log.retired) ==> k < n
  {
    JobsAre(rows, a, n);
    var all := if o.dryRun then [] else JobsOf(rows, a, n);
    hide JobsOf, IsJob;
    assert forall i :: 0 <= i < |log.sent| ==> log.sent[i] == all[i];
    assert held.Some? ==> held.value == all[|log.sent|];
    forall j | j in log.owed || j in log.retired ensures j in log.sent {
      assert j in multiset(log.retired) + multiset(log.owed);
    }
  }

  /** What is sent is now owed, and nothing else changes. */
  ghost function SentLog(job: Job, log: Log): Log {
    log.(owed := log.owed + [job], sent := log.sent + [job])
  }

  /** Sending a job that is admitted keeps the accounts. */
  lemma SendKeeps(o: Options, rows: seq<Row>, a: Answers, cap: nat, inflight: nat, outstanding: nat, job: Job, n: nat, r: Report, log: Log)
    requires Consistent(o, rows, a, cap, inflight, outstanding, Some(job), n, r, log) && AllLarge(rows) && Admits(inflight, cap, job.weight)
    ensures Consistent(o, rows, a, cap, inflight + job.weight, outstanding + 1, None, n, r, SentLog(job, log))
  {
    SentAre(o, rows, a, n, Some(job), log);
    SendAccounts(rows, a, cap, inflight, outstanding, job, log);
    SendOrder(o, rows, a, n, job, log);
    hide Accounts, Orderly, Tells, IsJob, Ascending, Numbers;
  }

  lemma SendAccounts(rows: seq<Row>, a: Answers, cap: nat, inflight: nat, outstanding: nat, job: Job, log: Log)
    requires Accounts(cap, inflight, outstanding, Some(job), log) && Admits(inflight, cap, job.weight)
    requires forall j :: j in log.owed ==> IsJob(rows, a, j)
    ensures Accounts(cap, inflight + job.weight, outstanding + 1, None, SentLog(job, log))
  {
    assert forall i :: 0 <= i < |log.owed| ==> log.owed[i] in log.owed;
    WeightBounds(log.owed);
    assert (log.owed + [job])[..|log.owed|] == log.owed;
  }

  lemma SendOrder(o: Options, rows: seq<Row>, a: Answers, n: nat, job: Job, log: Log)
    requires Orderly(o, rows, a, n, Some(job), log) && forall j :: j in log.sent ==> j.seqNo < job.seqNo
    requires forall j :: j in log.owed || j in log.retired ==> j in log.sent
    ensures Orderly(o, rows, a, n, None, SentLog(job, log))
  {
    assert log.sent + [job] + [] + log.dropped == log.sent + Opt(Some(job)) + log.dropped;
    assert multiset(log.sent + [job]) == multiset(log.sent) + multiset{job};
    assert multiset(log.owed + [job]) == multiset(log.owed) + multiset{job};
    hide JobsOf;
  }

  /** A skipped candidate is counted, a selected one counted and held, or on a dry run counted alone. */
  lemma SkipKeeps(o: Options, rows: seq<Row>, a: Answers, cap: nat, inflight: nat, outstanding: nat, n: nat, r: Report, log: Log)
    requires Consistent(o, rows, a, cap, inflight, outstanding, None, n, r, log) && AllLarge(rows) && n < |rows| && a.triage(n) != Selected
    ensures Consistent(o, rows, a, cap, inflight, outstanding, None, n + 1, Skipped(a.triage(n), n, r), log)
  {
    SentAre(o, rows, a, n, None, log);
    SkipTells(o, rows, a, n, Numbers(log.retired), log.full, r);
    hide Tells, Skipped, Numbers;
    assert Opt(None) == [];
  }

  lemma SelectKeeps(o: Options, rows: seq<Row>, a: Answers, cap: nat, inflight: nat, outstanding: nat, n: nat, r: Report, log: Log)
    requires Consistent(o, rows, a, cap, inflight, outstanding, None, n, r, log) && n < |rows| && a.triage(n) == Selected
    requires outstanding < 256 && log.dropped == []
    ensures Consistent(o, rows, a, cap, inflight, outstanding, if o.dryRun then None else Some(Job(n, rows[n].len, OutboardSize(rows[n].len))), n + 1,
                       r.(examined := r.examined + 1, selected := r.selected + 1, selectedBytes := r.selectedBytes + rows[n].len), log)
  {
    SelectTells(o, rows, a, n, Numbers(log.retired), log.full, r);
    hide Tells, Numbers;
    assert log.sent + [] + [] == log.sent;
  }

  /** The held job is let go. */
  ghost function DroppedLog(held: Option<Job>, log: Log): Log {
    log.(dropped := Opt(held) + log.dropped)
  }

  lemma DropKeeps(o: Options, rows: seq<Row>, a: Answers, cap: nat, inflight: nat, outstanding: nat, held: Option<Job>, n: nat, r: Report, log: Log)
    requires Consistent(o, rows, a, cap, inflight, outstanding, held, n, r, log)
    ensures Consistent(o, rows, a, cap, inflight, outstanding, None, n, r, DroppedLog(held, log))
  {
    hide Tells, Numbers, JobsOf;
    assert log.sent + [] + (Opt(held) + log.dropped) == log.sent + Opt(held) + log.dropped;
  }

  ghost function RetiredLog(a: Answers, i: nat, log: Log): Log
    requires i < |log.owed|
  {
    log.(owed := Remove(log.owed, i), retired := log.retired + [log.owed[i]], full := FullAfter(a, log.full, log.owed[i].seqNo))
  }

  /** A job that comes back is charged no longer, and the report says how it went. */
  lemma RetireKeeps(o: Options, rows: seq<Row>, a: Answers, cap: nat, inflight: nat, outstanding: nat, held: Option<Job>, n: nat, r: Report, log: Log, i: nat)
    requires Consistent(o, rows, a, cap, inflight, outstanding, held, n, r, log) && AllLarge(rows) && i < |log.owed|
    ensures log.owed[i].weight <= inflight && log.owed[i].seqNo !in Numbers(log.retired)
    ensures Numbers(RetiredLog(a, i, log).retired) == Numbers(log.retired) + {log.owed[i].seqNo}
    ensures Consistent(o, rows, a, cap, inflight - log.owed[i].weight, outstanding - 1, held, n,
                       Retired(o, a.verdict(log.owed[i].seqNo), a.recorded(log.owed[i].seqNo), a.poisoned(log.owed[i].seqNo), log.owed[i], r), RetiredLog(a, i, log))
  {
    var k := log.owed[i].seqNo;
    SentAre(o, rows, a, n, held, log);
    RetireAccounts(cap, inflight, outstanding, held, a, log, i);
    RetireOrder(o, rows, a, n, held, log, i);
    NumbersNext(log.retired, log.owed[i]);
    OwedNotBack(log, i);
    assert IsJob(rows, a, log.owed[i]);
    RetireTells(o, rows, a, n, Numbers(log.retired), log.full, r, log.owed[i]);
    hide Accounts, Orderly, Tells, Retired, Remove, Numbers, IsJob, FullAfter, Ascending;
  }

  lemma OwedNotBack(log: Log, i: nat)
    requires Numbers(log.retired) !! Numbers(log.owed) && i < |log.owed|
    ensures log.owed[i].seqNo !in Numbers(log.retired)
  {
    assert log.owed[i].seqNo in Numbers(log.owed);
  }

  lemma NumbersNext(jobs: seq<Job>, job: Job)
    ensures Numbers(jobs + [job]) == Numbers(jobs) + {job.seqNo}
  {
  }

  lemma RetireAccounts(cap: nat, inflight: nat, outstanding: nat, held: Option<Job>, a: Answers, log: Log, i: nat)
    requires Accounts(cap, inflight, outstanding, held, log) && i < |log.owed|
    ensures log.owed[i].weight <= inflight
    ensures Accounts(cap, inflight - log.owed[i].weight, outstanding - 1, held, RetiredLog(a, i, log))
  {
    RemoveWeight(log.owed, i);
    LoneJob(log.owed, i);
  }

  lemma RetireOrder(o: Options, rows: seq<Row>, a: Answers, n: nat, held: Option<Job>, log: Log, i: nat)
    requires Orderly(o, rows, a, n, held, log) && i < |log.owed|
    ensures Orderly(o, rows, a, n, held, RetiredLog(a, i, log))
  {
    hide JobsOf, Numbers, Remove, FullAfter, Ascending;
    RemoveMultiset(log.owed, i);
    RemoveAscends(log.owed, i);
    assert multiset(log.retired + [log.owed[i]]) == multiset(log.retired) + multiset{log.owed[i]};
    NumbersNext(log.retired, log.owed[i]);
  }

  lemma RemoveAscends(jobs: seq<Job>, i: nat)
    requires Ascending(jobs) && i < |jobs|
    ensures Ascending(Remove(jobs, i)) && Numbers(Remove(jobs, i)) == Numbers(jobs) - {jobs[i].seqNo}
  {
    RemoveAt(jobs, i);
    RemoveNumbers(jobs, i);
    hide Remove, Numbers;
  }

  lemma RemoveNumbers(jobs: seq<Job>, i: nat)
    requires Ascending(jobs) && i < |jobs|
    ensures Numbers(Remove(jobs, i)) == Numbers(jobs) - {jobs[i].seqNo}
  {
    RemoveAt(jobs, i);
    hide Remove;
    var rest := Remove(jobs, i);
    forall x | 0 <= x < |jobs| && x != i ensures jobs[x] in rest && jobs[x].seqNo != jobs[i].seqNo {
      assert jobs[x] == rest[if x < i then x else x - 1];
    }
    forall j | j in rest ensures j in jobs && j.seqNo != jobs[i].seqNo {
      var x :| 0 <= x < |rest| && rest[x] == j;
    }
  }

  lemma RemoveAt(jobs: seq<Job>, i: nat)
    requires i < |jobs|
    ensures |Remove(jobs, i)| == |jobs| - 1 && forall x :: 0 <= x < |jobs| - 1 ==> Remove(jobs, i)[x] == jobs[if x < i then x else x + 1]
  {
  }

  lemma LoneJob(owed: seq<Job>, i: nat)
    requires i < |owed|
    ensures |owed| == 1 ==> Weight(Remove(owed, i)) == 0
  {
    assert |owed| == 1 ==> Remove(owed, i) == [];
  }

  lemma StartsConsistent(o: Options, rows: seq<Row>, a: Answers, cap: nat, log: Log)
    requires log == Log([], [], [], [], None) && InIdOrder(rows)
    ensures Consistent(o, rows, a, cap, 0, 0, None, 0, EMPTY_REPORT, log)
    ensures Staging(o, rows, a, 0, [], 0, true, None, log)
  {
    StartsTold(o, rows, a);
    assert Numbers(log.retired) == {} && Seen(a, 0, Selected) == {};
    hide Tells;
    assert log.sent + Opt(None) + log.dropped == [];
  }

  // ---- Staging ----

  /** A fetched page is the next rows, and there is none exactly behind the last row. */
  lemma TurnPage(o: Options, rows: seq<Row>, a: Answers, n: nat, cursor: nat, held: Option<Job>, log: Log, table: seq<Row>, fetch: (nat, nat, nat) -> seq<Row>)
    requires Staging(o, rows, a, n, [], cursor, true, held, log) && InIdOrder(rows)
    requires Pages(fetch, table) && rows == Large(table, Floor(o.minSize))
    ensures var page := fetch(cursor, Floor(o.minSize), PAGE);
            if n == |rows| then page == [] && Staging(o, rows, a, n, [], cursor, false, held, log)
            else page != [] && Staging(o, rows, a, n, page, page[|page| - 1].id, true, held, log)
  {
    hide Stopped, AtLimit, WithinLimit, Large;
    assert Splits(Large(table, Floor(o.minSize)), n, cursor);
    var page := fetch(cursor, Floor(o.minSize), PAGE);
    assert page == rows[n..if n + PAGE <= |rows| then n + PAGE else |rows|];
    if n < |rows| {
      assert page[|page| - 1] == rows[n + |page| - 1];
    }
  }

  lemma SkipStages(o: Options, rows: seq<Row>, a: Answers, n: nat, page: seq<Row>, cursor: nat, log: Log)
    requires Staging(o, rows, a, n, page, cursor, true, None, log) && page != [] && a.triage(n) != Selected
    ensures page[0] == rows[n] && Staging(o, rows, a, n + 1, page[1..], cursor, true, None, log)
  {
    SeenNext(a, n, Selected);
    hide Stopped, Seen;
  }

  /** The row that reaches the limit ends the walk. */
  lemma SelectStages(o: Options, rows: seq<Row>, a: Answers, n: nat, page: seq<Row>, cursor: nat, held: Option<Job>, log: Log, selected: nat)
    requires Staging(o, rows, a, n, page, cursor, true, None, log) && page != [] && a.triage(n) == Selected
    requires selected == |Seen(a, n, Selected)| + 1 && (o.dryRun ==> held.None?)
    ensures page[0] == rows[n] && log.dropped == []
    ensures if o.limit != 0 && selected >= o.limit then Staging(o, rows, a, n + 1, [], cursor, false, held, log)
            else Staging(o, rows, a, n + 1, page[1..], cursor, true, held, log)
  {
    SeenNext(a, n, Selected);
    hide Stopped, Seen;
  }

  lemma OfferStages(o: Options, rows: seq<Row>, a: Answers, n: nat, page: seq<Row>, cursor: nat, walking: bool, job: Job, log: Log)
    requires Staging(o, rows, a, n, page, cursor, walking, Some(job), log)
    ensures Staging(o, rows, a, n, page, cursor, walking, None, SentLog(job, log))
  {
    hide Stopped, AtLimit, WithinLimit, Splits;
  }

  /** A verdict that stops the walk takes the page and the held job with it; another one changes nothing about the walk. */
  lemma RetireStages(o: Options, rows: seq<Row>, a: Answers, n: nat, page: seq<Row>, cursor: nat, walking: bool, held: Option<Job>, log: Log, i: nat)
    requires Staging(o, rows, a, n, page, cursor, walking, held, log) && i < |log.owed|
    requires Numbers(RetiredLog(a, i, log).retired) == Numbers(log.retired) + {log.owed[i].seqNo}
    ensures var k := log.owed[i].seqNo;
            if Stops(o, a.verdict(k), a.recorded(k)) then Staging(o, rows, a, n, [], cursor, false, None, DroppedLog(held, RetiredLog(a, i, log)))
            else Staging(o, rows, a, n, page, cursor, walking, held, RetiredLog(a, i, log))
  {
    var k, done := log.owed[i].seqNo, Numbers(log.retired);
    StoppedNext(o, a, done, k);
    hide AtLimit, WithinLimit, Splits, Stopped, Numbers, FullAfter;
  }

  lemma StoppedNext(o: Options, a: Answers, done: set<nat>, k: nat)
    ensures Stopped(o, a, done + {k}) <==> Stopped(o, a, done) || Stops(o, a.verdict(k), a.recorded(k))
  {
    if Stops(o, a.verdict(k), a.recorded(k)) {
      assert k in done + {k};
    }
    if Stopped(o, a, done) {
      var x :| x in done && (a.verdict(x) == NoRoom || (a.verdict(x) == Blessed && o.materialize && !a.recorded(x)));
      assert x in done + {k};
    }
  }

  /** The coordinator. Index and workers are given: `fetch` pages the table, `answers` are theirs. */
  class Coordinator {
    const o: Options
    const cap: nat
    const fetch: (nat, nat, nat) -> seq<Row>
    const answers: Answers
    const pool: Pool
    ghost const table: seq<Row>
    /** The candidates, in the order of their numbers. */
    ghost const rows: seq<Row>
    var inflight: nat
    var outstanding: nat
    var held: Option<Job>
    var page: seq<Row>
    var cursor: nat
    var walking: bool
    var nextSeq: nat
    var report: Report
    ghost var log: Log

    ghost predicate Given() {
      && InIdOrder(table) && Pages(fetch, table) && rows == Large(table, Floor(o.minSize)) && InIdOrder(rows) && AllLarge(rows)
      && cap == o.workers * 0x400_0000
    }

    ghost predicate Valid()
      reads this, pool
    {
      && Given() && pool.Holds(log.owed)
      && Consistent(o, rows, answers, cap, inflight, outstanding, held, nextSeq, report, log)
      && Staging(o, rows, answers, nextSeq, page, cursor, walking, held, log)
    }

    /** Steps left: each turn of the loop takes at least one. */
    ghost function Measure(): nat
      reads this
    {
      4 * Ahead(walking, nextSeq, |rows|) + (if held.Some? then 2 else 0) + outstanding
    }

    constructor (o: Options, ghost table: seq<Row>, fetch: (nat, nat, nat) -> seq<Row>, answers: Answers)
      requires o.workers > 0 && InIdOrder(table) && Pages(fetch, table)
      ensures Valid() && fresh(pool) && report == EMPTY_REPORT && log.sent == []
      ensures this.o == o && this.table == table && this.answers == answers && this.fetch == fetch
    {
      hide Consistent, Pages, Staging, InIdOrder;
      var large := Floor(o.minSize);
      this.o, cap, this.fetch, this.answers := o, o.workers * TREE_BUDGET_PER_WORKER, fetch, answers;
      this.table, rows := table, Large(table, large);
      pool := new Pool(o.workers);
      inflight, outstanding, held, page, cursor, walking, nextSeq := 0, 0, None, [], 0, true, 0;
      report := EMPTY_REPORT;
      log := Log([], [], [], [], None);
      CandidatesAre(table, o.minSize);
      StartsConsistent(o, Large(table, large), answers, o.workers * TREE_BUDGET_PER_WORKER, Log([], [], [], [], None));
    }

    /** Send the held job if the budget admits it. */
    method Offer()
      requires Valid() && held.Some?
      modifies this, pool
      ensures Valid() && walking == old(walking) && cursor == old(cursor) && page == old(page) && nextSeq == old(nextSeq) && report == old(report)
      ensures Measure() <= old(Measure()) && (held.None? ==> Measure() < old(Measure()))
      ensures if old(inflight) == 0 || old(inflight) + old(held).value.weight <= cap
              then held.None? && log == SentLog(old(held).value, old(log))
              else held == old(held) && inflight == old(inflight) && outstanding == old(outstanding) && log == old(log)
    {
      hide Pool.Holds, Consistent, Given, Staging, Ahead;
      var job := held.value;
      if Admits(inflight, cap, job.weight) {
        LargeRows();
        SendKeeps(o, rows, answers, cap, inflight, outstanding, job, nextSeq, report, log);
        OfferStages(o, rows, answers, nextSeq, page, cursor, walking, job, log);
        pool.Send(job, log.owed);
        inflight, outstanding, held := inflight + job.weight, outstanding + 1, None;
        log := SentLog(job, log);
      }
    }

    lemma LargeRows()
      requires Given()
      ensures AllLarge(rows)
    {
    }

    /** Triage the next candidate: a counted skip, or a job sent or held. */
    method Stage()
      requires Valid() && held.None? && walking && outstanding < 256 && page != []
      modifies this, pool
      ensures Valid() && Measure() < old(Measure()) && nextSeq == old(nextSeq) + 1 && log.retired == old(log.retired)
      ensures held.Some? ==> outstanding > 0 && inflight > 0 && inflight + held.value.weight > cap
    {
      hide Consistent, Given, Staging, Ahead, Skipped;
      NextShrinks();
      if answers.triage(nextSeq) != Selected {
        LargeRows();
        SkipStages(o, rows, answers, nextSeq, page, cursor, log);
        NextRow();
        SkipKeeps(o, rows, answers, cap, inflight, outstanding, nextSeq, report, log);
        report := Skipped(answers.triage(nextSeq), nextSeq, report);
        page := page[1..];
        nextSeq := nextSeq + 1;
        return;
      }
      Select();
      if held.Some? {
        Offer();
        HeldMeansOwed();
      }
    }

    lemma NextRow()
      requires Valid() && page != []
      ensures nextSeq < |rows| && page[0] == rows[nextSeq]
    {
    }

    lemma NextShrinks()
      requires Valid() && page != [] && walking
      ensures Ahead(true, nextSeq + 1, |rows|) == Ahead(true, nextSeq, |rows|) - 1 && Ahead(false, nextSeq + 1, |rows|) < Ahead(true, nextSeq, |rows|)
    {
      NextRow();
    }

    /** Count a selected candidate and make it the held job, or only count it on a dry run. */
    method Select()
      requires Valid() && held.None? && walking && outstanding < 256 && page != [] && answers.triage(nextSeq) == Selected
      modifies this
      ensures Valid() && Measure() < old(Measure()) && inflight == old(inflight) && outstanding == old(outstanding) && log == old(log)
      ensures nextSeq == old(nextSeq) + 1
      ensures held == if o.dryRun then None else Some(Job(old(nextSeq), rows[old(nextSeq)].len, OutboardSize(rows[old(nextSeq)].len)))
    {
      hide Pool.Holds, Consistent, Given, Staging, Ahead, OutboardSize, Seen, Large, Opt, Splits, InIdOrder, AllLarge;
      var row := page[0];
      NextRow();
      NextShrinks();
      SelectedSoFar();
      var job := if o.dryRun then None else Some(Job(nextSeq, row.len, OutboardSize(row.len)));
      SelectStages(o, rows, answers, nextSeq, page, cursor, job, log, report.selected + 1);
      SelectKeeps(o, rows, answers, cap, inflight, outstanding, nextSeq, report, log);
      page := page[1..];
      held := job;
      nextSeq := nextSeq + 1;
      report := report.(examined := report.examined + 1, selected := report.selected + 1, selectedBytes := report.selectedBytes + row.len);
      if o.limit != 0 && report.selected >= o.limit {
        walking, page := false, [];
      }
    }

    lemma SelectedSoFar()
      requires Valid()
      ensures report.selected == |Seen(answers, nextSeq, Selected)|
    {
    }

    /** Take candidates until a job is held, the walk ends, or the queue is full. */
    method Walk()
      requires Valid()
      modifies this, pool
      ensures Valid() && Measure() <= old(Measure()) && log.retired == old(log.retired) && old(nextSeq) <= nextSeq
      ensures held.Some? || !walking || outstanding >= 256
      ensures old(held).Some? ==> held == old(held) && outstanding == old(outstanding)
      ensures old(held).None? && held.Some? ==> outstanding > 0 && inflight > 0 && inflight + held.value.weight > cap
    {
      hide Consistent, Ahead, Staging, Given, Admits;
      while held.None? && walking && outstanding < QUEUE_CAP
        invariant Valid() && Measure() <= old(Measure()) && log.retired == old(log.retired) && old(nextSeq) <= nextSeq
        invariant old(held).Some? ==> held == old(held) && outstanding == old(outstanding)
        invariant old(held).None? && held.Some? ==> outstanding > 0 && inflight > 0 && inflight + held.value.weight > cap
        decreases Measure()
      {
        if page == [] {
          var more := fetch(cursor, Floor(o.minSize), PAGE);
          RowsAreLarge();
          TurnPage(o, rows, answers, nextSeq, cursor, held, log, table, fetch);
          if more == [] {
            WalkEnds(nextSeq, |rows|);
            walking := false;
            break;
          }
          page := more;
          cursor := more[|more| - 1].id;
        }
        Stage();
      }
    }

    lemma RowsAreLarge()
      requires Given()
      ensures Pages(fetch, table) && rows == Large(table, Floor(o.minSize)) && InIdOrder(rows)
    {
    }

    lemma HeldMeansOwed()
      requires Valid()
      ensures held.Some? && inflight > 0 ==> outstanding > 0
    {
    }

    /** Retire one answer, whichever comes; some stop the walk and let the held job go. */
    method Retire() returns (ghost job: Job)
      requires Valid() && outstanding > 0
      modifies this, pool
      ensures Valid() && Measure() < old(Measure()) && nextSeq == old(nextSeq) && log.sent == old(log).sent
      ensures job in old(log).owed && log.retired == old(log).retired + [job]
    {
      hide Pool.Holds, Given, Consistent, Ahead, Retired, Staging, Remove, Stops, FullAfter, Numbers, Weight, Opt, AllLarge;
      LargeRows();
      OwedSome();
      var back, i := pool.Receive(log.owed);
      job := back;
      var k := back.seqNo;
      RetireKeeps(o, rows, answers, cap, inflight, outstanding, held, nextSeq, report, log, i);
      RetireStages(o, rows, answers, nextSeq, page, cursor, walking, held, log, i);
      outstanding := outstanding - 1;
      inflight := inflight - back.weight;
      report := Retired(o, answers.verdict(k), answers.recorded(k), answers.poisoned(k), back, report);
      log := RetiredLog(answers, i, log);
      if Stops(o, answers.verdict(k), answers.recorded(k)) {
        DropKeeps(o, rows, answers, cap, inflight, outstanding, held, nextSeq, report, log);
        StopShrinks(walking, nextSeq, |rows|);
        log := DroppedLog(held, log);
        walking, page, held := false, [], None;
      }
    }

    lemma OwedSome()
      requires Valid()
      ensures outstanding == |log.owed|
    {
    }

    /**
     `bless_loop`: in every interleaving it ends, with nothing out. Every row has been
     examined, in order, unless the limit was reached, and then by the last one, or a
     verdict stopped the walk. Every selected row went out as its job once, but for one
     that a stop may have let go, and came back once, and the report says how.
     */
    method Loop()
      requires Valid()
      modifies this, pool
      ensures Valid() && Finished()
      ensures |rows| == |set x | x in table && x.len >= o.minSize && x.len > 16384|
      ensures report.examined == |rows| || AtLimit(o, answers, report.examined) || Stopped(o, answers, Numbers(log.sent))
      ensures report.examined <= |rows| && WithinLimit(o, answers, report.examined)
      ensures log.sent + log.dropped == if o.dryRun then [] else JobsOf(rows, answers, report.examined)
      ensures multiset(log.retired) == multiset(log.sent) && |log.dropped| <= 1 && (log.dropped != [] ==> Stopped(o, answers, Numbers(log.sent)))
      ensures Tells(o, rows, answers, report.examined, Numbers(log.sent), log.full, report)
    {
      hide Given, Consistent, Staging, Ahead, Numbers, Stopped, Tells, AtLimit, WithinLimit, JobsOf, Large, InIdOrder;
      while true
        invariant Valid()
        decreases Measure()
      {
        if held.Some? {
          Offer();
        }
        HeldMeansOwed();
        Walk();
        OwedSome();
        if outstanding == 0 {
          AllHome();
          CountTwin();
          return;
        }
        var _ := Retire();
      }
    }

    ghost predicate Finished()
      reads this
    {
      !walking && held.None? && log.owed == []
    }

    lemma CountTwin()
      requires Valid()
      ensures |rows| == |set x | x in table && x.len >= o.minSize && x.len > 16384|
    {
      CandidatesCounted(table, o.minSize);
    }

    lemma AllHome()
      requires Valid() && Finished()
      ensures report.examined == |rows| || AtLimit(o, answers, report.examined) || Stopped(o, answers, Numbers(log.sent))
      ensures report.examined <= |rows| && WithinLimit(o, answers, report.examined)
      ensures log.sent + log.dropped == if o.dryRun then [] else JobsOf(rows, answers, report.examined)
      ensures multiset(log.retired) == multiset(log.sent) && |log.dropped| <= 1 && (log.dropped != [] ==> Stopped(o, answers, Numbers(log.sent)))
      ensures Tells(o, rows, answers, report.examined, Numbers(log.sent), log.full, report)
    {
      assert report.examined == nextSeq;
      SameNumbers(log.retired, log.sent);
      hide Stopped, AtLimit, WithinLimit, JobsOf, Tells;
      assert log.sent + [] + log.dropped == log.sent + log.dropped;
    }
  }

  lemma SameNumbers(a: seq<Job>, b: seq<Job>)
    requires multiset(a) == multiset(b)
    ensures Numbers(a) == Numbers(b)
  {
    assert forall j :: j in a <==> j in multiset(a);
    assert forall j :: j in b <==> j in multiset(b);
  }

  /** What is left of the walk. */
  function Ahead(walking: bool, n: nat, total: nat): nat {
    if walking && n <= total then 1 + total - n else 0
  }

  lemma WalkEnds(n: nat, total: nat)
    requires n <= total
    ensures Ahead(false, n, total) < Ahead(true, n, total)
  {
  }

  lemma StopShrinks(walking: bool, n: nat, total: nat)
    ensures Ahead(false, n, total) <= Ahead(walking, n, total)
  {
  }

  /**
   At every point of every run: the budget is charged exactly what is out, it is
   exceeded by a lone job only, and the queue is bounded, the held job included.
   */
  lemma BudgetKept(c: Coordinator)
    requires c.Valid()
    ensures c.cap == c.o.workers * 0x400_0000
    ensures c.inflight == Weight(c.log.owed) && c.outstanding == |c.log.owed|
    ensures c.inflight > c.cap ==> |c.log.owed| == 1
    ensures c.outstanding + (if c.held.Some? then 1 else 0) <= 256
    ensures multiset(c.log.sent) == multiset(c.log.retired) + multiset(c.log.owed) && Ascending(c.log.sent)
  {
    SentAre(c.o, c.rows, c.answers, c.nextSeq, c.held, c.log);
  }

  // ---- A whole run ----

  /** Of the selected rows none finds no room, and each one blessed is written if it has to be. */
  ghost predicate NothingStops(c: Coordinator)
    reads c
  {
    forall k :: 0 <= k < |c.rows| && c.answers.triage(k) == Selected ==>
      c.answers.verdict(k) != NoRoom && (c.answers.verdict(k) == Blessed && c.o.materialize ==> c.answers.recorded(k))
  }

  /** The selected rows among those examined. */
  ghost function Due(c: Coordinator): set<nat>
    reads c
  {
    if c.o.dryRun then {} else Seen(c.answers, c.report.examined, Selected)
  }

  /** After a run, the jobs that came back are those of the selected rows, but for one let go. */
  lemma RunDoes(c: Coordinator)
    requires c.Valid() && c.Finished()
    ensures Numbers(c.log.sent) + Numbers(c.log.dropped) == Due(c) && Numbers(c.log.sent) !! Numbers(c.log.dropped)
    ensures multiset(c.log.retired) == multiset(c.log.sent)
  {
    hide JobsOf, Tells, Numbers, Seen, Consistent, Staging, Stopped, AtLimit, WithinLimit;
    c.AllHome();
    c.RowsAreLarge();
    if c.o.dryRun {
      NumbersJoin(c.log.sent, c.log.dropped);
      NumbersNone();
    } else {
      JobNumbers(c.rows, c.answers, c.report.examined);
      NumbersJoin(c.log.sent, c.log.dropped);
    }
  }

  lemma NumbersNone()
    ensures Numbers([]) == {}
  {
  }

  lemma NumbersJoin(a: seq<Job>, b: seq<Job>)
    ensures Numbers(a + b) == Numbers(a) + Numbers(b)
    ensures Ascending(a + b) ==> Numbers(a) !! Numbers(b)
  {
    if Ascending(a + b) {
      forall x, y | x in a && y in b ensures x.seqNo != y.seqNo {
        var i, k :| 0 <= i < |a| && a[i] == x && 0 <= k < |b| && b[k] == y;
        assert (a + b)[i] == x && (a + b)[|a| + k] == y;
      }
    }
  }

  /** The numbers of the jobs are those of the selected rows. */
  lemma JobNumbers(rows: seq<Row>, a: Answers, n: nat)
    requires n <= |rows| && AllLarge(rows)
    ensures Numbers(JobsOf(rows, a, n)) == Seen(a, n, Selected) && Ascending(JobsOf(rows, a, n))
  {
    JobsAre(rows, a, n);
    hide JobsOf, Ascending;
    forall k | k in Seen(a, n, Selected) ensures k in Numbers(JobsOf(rows, a, n)) {
      var j := Job(k, rows[k].len, OutboardSize(rows[k].len));
      assert j in JobsOf(rows, a, n);
    }
  }

  /**
   A run that no verdict stops examines every row once, or up to the one that makes the
   limit full; it does every selected one of them, and its counts are theirs.
   */
  lemma WholeRun(c: Coordinator)
    requires c.Valid() && c.Finished() && NothingStops(c)
    ensures c.report.examined == |c.rows| || (c.o.limit != 0 && |Seen(c.answers, c.report.examined, Selected)| == c.o.limit)
    ensures c.o.limit == 0 ==> c.report.examined == |set x | x in c.table && x.len >= c.o.minSize && x.len > 16384|
    ensures c.log.dropped == [] && Tells(c.o, c.rows, c.answers, c.report.examined, Due(c), c.log.full, c.report)
  {
    NoStop(c);
    NumbersNone();
    hide Seen, Numbers, Stopped, Tells, Consistent, Staging, Due, NothingStops;
    c.AllHome();
    RunDoes(c);
    c.CountTwin();
  }

  lemma NoStop(c: Coordinator)
    requires c.Valid() && c.Finished() && NothingStops(c)
    ensures !Stopped(c.o, c.answers, Numbers(c.log.sent)) && c.report.examined <= |c.rows|
  {
    RunDoes(c);
    assert c.report.examined == c.nextSeq;
    hide Numbers, Consistent, Tells;
    assert forall k :: k in Numbers(c.log.sent) ==> k in Due(c);
  }

  function Owed(r: Report): nat {
    if r.selected > r.blessed then r.selected - r.blessed else 0
  }

  /** The report's own claim that everything it was given is done. */
  predicate Complete(r: Report, population: nat) {
    r.failures == [] && Owed(r) == 0 && r.examined == population && r.unrecorded == 0
  }

  /** The candidate needs nothing more: skipped, or blessed by this run or another, and written where that is asked. */
  ghost predicate IsSettled(c: Coordinator, k: nat)
    reads c
  {
    && c.answers.triage(k) != PlanError
    && (c.answers.triage(k) == Selected ==>
          k in Numbers(c.log.sent) && (c.answers.verdict(k) == AlreadyThere || (c.answers.verdict(k) == Blessed && (c.o.materialize ==> c.answers.recorded(k)))))
  }

  /** A finished run calls itself complete exactly when it examined as many as there should be, and each of them is settled. */
  lemma CompleteMeansDone(c: Coordinator, population: nat)
    requires c.Valid() && c.Finished()
    ensures Owed(c.report) + c.report.blessed == c.report.selected
    ensures Complete(c.report, population) <==> c.report.examined == population && forall k :: 0 <= k < population ==> IsSettled(c, k)
  {
    c.AllHome();
    RunDoes(c);
    CompleteExactly(c.o, c.rows, c.answers, c.report.examined, Numbers(c.log.sent), c.log.full, c.report);
    hide Seen, Numbers, Tells, Consistent, Staging, Stopped, AtLimit, WithinLimit, JobsOf;
    assert c.report.examined == population ==> forall k :: 0 <= k < population ==>
      (IsSettled(c, k) <==> Settles(c.o, c.answers, Numbers(c.log.sent), k));
  }

  ghost predicate Settles(o: Options, a: Answers, done: set<nat>, k: nat) {
    && a.triage(k) != PlanError
    && (a.triage(k) == Selected ==> k in done && (a.verdict(k) == AlreadyThere || (a.verdict(k) == Blessed && (o.materialize ==> a.recorded(k)))))
  }

  lemma CompleteExactly(o: Options, rows: seq<Row>, a: Answers, n: nat, done: set<nat>, full: Option<nat>, r: Report)
    requires Tells(o, rows, a, n, done, full, r) && done <= Seen(a, n, Selected)
    ensures Owed(r) + r.blessed == r.selected
    ensures Complete(r, n) <==> forall k :: 0 <= k < n ==> Settles(o, a, done, k)
  {
    var good, due := Did(a, done, Blessed) + Did(a, done, AlreadyThere), Seen(a, n, Selected);
    assert Did(a, done, Blessed) !! Did(a, done, AlreadyThere);
    assert good <= done <= due;
    SubsetSame(good, due);
    if Complete(r, n) {
      forall k | 0 <= k < n ensures Settles(o, a, done, k) {
        assert k !in r.failures;
        assert k in due ==> k in good;
      }
    }
    if forall k :: 0 <= k < n ==> Settles(o, a, done, k) {
      NoFailures(o, a, n, done, full, r);
      forall k | k in due ensures k in good {
        assert Settles(o, a, done, k);
      }
      forall k | k in Written(a, done, false) ensures !o.materialize {
        assert Settles(o, a, done, k);
      }
    }
  }

  lemma NoFailures(o: Options, a: Answers, n: nat, done: set<nat>, full: Option<nat>, r: Report)
    requires Fails(o, a, n, done, full, r) && done <= Seen(a, n, Selected) && forall k :: 0 <= k < n ==> Settles(o, a, done, k)
    ensures r.failures == []
  {
    forall k: nat ensures k !in r.failures {
      SettledDoesNotFail(o, a, n, done, full, r, k);
    }
    if r.failures != [] {
      HasFirst(r.failures);
    }
  }

  lemma HasFirst(s: seq<nat>)
    requires s != []
    ensures exists k: nat :: k in s
  {
    assert s[0] in s;
  }

  lemma SettledDoesNotFail(o: Options, a: Answers, n: nat, done: set<nat>, full: Option<nat>, r: Report, k: nat)
    requires Fails(o, a, n, done, full, r) && done <= Seen(a, n, Selected) && (k < n ==> Settles(o, a, done, k))
    ensures k !in r.failures
  {
    assert k in done ==> k in Seen(a, n, Selected);
  }

  lemma SubsetSame(a: set<nat>, b: set<nat>)
    requires a <= b
    ensures |a| <= |b| && (|a| == |b| <==> a == b)
  {
    assert b == a + (b - a);
  }
}
