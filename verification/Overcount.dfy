/** What the `new_nodes` that unsynchronised workers report adds up to. */
module Overcount {
  import opened Core
  import opened GraphModel
  import opened Snapshot
  import opened Ingest
  import opened Stores
  import opened Deltas
  import opened Protocol

  // ----- Counting reports ------------------------------------------------------------------------

  /** How many of the sets hold `k`. */
  function Count(sets: seq<set<Key>>, k: Key): nat {
    if sets == [] then 0 else Count(sets[..|sets| - 1], k) + if k in sets[|sets| - 1] then 1 else 0
  }

  function TotalSize(sets: seq<set<Key>>): nat {
    if sets == [] then 0 else TotalSize(sets[..|sets| - 1]) + |sets[|sets| - 1]|
  }

  /** The sum over `ks` of the number of sets that hold the key. */
  ghost function SumOfCounts(ks: set<Key>, sets: seq<set<Key>>): nat {
    if ks == {} then 0
    else
      var k :| k in ks;
      Count(sets, k) + SumOfCounts(ks - {k}, sets)
  }

  /** The sum over `ks` of that number minus one. */
  ghost function SumOfRepeats(ks: set<Key>, sets: seq<set<Key>>): int {
    if ks == {} then 0
    else
      var k :| k in ks;
      Count(sets, k) - 1 + SumOfRepeats(ks - {k}, sets)
  }

  lemma {:induction false} SumWithout(ks: set<Key>, sets: seq<set<Key>>, k: Key)
    requires k in ks
    ensures SumOfCounts(ks, sets) == Count(sets, k) + SumOfCounts(ks - {k}, sets)
  {
    var j :| j in ks && SumOfCounts(ks, sets) == Count(sets, j) + SumOfCounts(ks - {j}, sets);
    if j != k {
      SumWithout(ks - {j}, sets, k);
      SumWithout(ks - {k}, sets, j);
      assert ks - {j} - {k} == ks - {k} - {j};
    }
  }

  lemma {:induction false} SumOfUnion(xs: set<Key>, ys: set<Key>, sets: seq<set<Key>>)
    requires xs !! ys
    ensures SumOfCounts(xs + ys, sets) == SumOfCounts(xs, sets) + SumOfCounts(ys, sets)
  {
    if xs == {} {
      assert xs + ys == ys;
    } else {
      var k :| k in xs;
      SumWithout(xs, sets, k);
      SumWithout(xs + ys, sets, k);
      assert xs + ys - {k} == (xs - {k}) + ys;
      SumOfUnion(xs - {k}, ys, sets);
    }
  }

  lemma {:induction false} RepeatsAreCounts(ks: set<Key>, sets: seq<set<Key>>)
    ensures SumOfRepeats(ks, sets) == SumOfCounts(ks, sets) - |ks|
  {
    if ks != {} {
      var k :| k in ks && SumOfRepeats(ks, sets) == Count(sets, k) - 1 + SumOfRepeats(ks - {k}, sets);
      SumWithout(ks, sets, k);
      RepeatsAreCounts(ks - {k}, sets);
    }
  }

  lemma {:induction false} SumOneMoreSet(ks: set<Key>, sets: seq<set<Key>>, x: set<Key>)
    ensures SumOfCounts(ks, sets + [x]) == SumOfCounts(ks, sets) + |ks * x|
  {
    hide Count, SumOfCounts;
    SumOfNothing(sets);
    SumOfNothing(sets + [x]);
    if ks == {} {
      assert ks * x == {};
    } else {
      var k :| k in ks;
      CountSnoc(sets, x, k);
      SumWithout(ks, sets, k);
      SumWithout(ks, sets + [x], k);
      SumOneMoreSet(ks - {k}, sets, x);
      OneLess(ks, x, k);
    }
  }

  lemma OneLess(ks: set<Key>, x: set<Key>, k: Key)
    requires k in ks
    ensures |ks * x| == |(ks - {k}) * x| + if k in x then 1 else 0
  {
    assert ks * x == (ks - {k}) * x + if k in x then {k} else {};
  }

  lemma SumOfNothing(sets: seq<set<Key>>)
    ensures SumOfCounts({}, sets) == 0
  {
  }

  lemma CountSnoc(sets: seq<set<Key>>, x: set<Key>, k: Key)
    ensures Count(sets + [x], k) == Count(sets, k) + if k in x then 1 else 0
  {
    assert (sets + [x])[..|sets|] == sets;
  }

  lemma {:induction false} SumOfNoSets(ks: set<Key>)
    ensures SumOfCounts(ks, []) == 0
  {
    if ks != {} {
      var k :| k in ks;
      SumWithout(ks, [], k);
      SumOfNoSets(ks - {k});
    }
  }

  /** Counted key by key or set by set, the total is the same. */
  lemma {:induction false} TotalIsSum(ks: set<Key>, sets: seq<set<Key>>)
    requires forall x | x in sets :: x <= ks
    ensures TotalSize(sets) == SumOfCounts(ks, sets)
  {
    if sets == [] {
      SumOfNoSets(ks);
    } else {
      var init, x := sets[..|sets| - 1], sets[|sets| - 1];
      assert sets == init + [x];
      TotalIsSum(ks, init);
      SumOneMoreSet(ks, init, x);
      assert x in sets && ks * x == x;
    }
  }

  lemma {:induction false} CountIsNone(sets: seq<set<Key>>, k: Key)
    ensures Count(sets, k) == 0 <==> forall x | x in sets :: k !in x
  {
    if sets != [] {
      var init, x := sets[..|sets| - 1], sets[|sets| - 1];
      assert sets == init + [x];
      CountIsNone(init, k);
    }
  }

  lemma {:induction false} SumIsNone(ks: set<Key>, sets: seq<set<Key>>)
    ensures SumOfCounts(ks, sets) == 0 <==> forall k | k in ks :: Count(sets, k) == 0
  {
    if ks != {} {
      var j :| j in ks;
      SumWithout(ks, sets, j);
      SumIsNone(ks - {j}, sets);
      assert forall k | k in ks :: k == j || k in ks - {j};
    }
  }

  lemma {:induction false} RepeatsAreNone(ks: set<Key>, sets: seq<set<Key>>)
    requires forall k | k in ks :: Count(sets, k) >= 1
    ensures SumOfRepeats(ks, sets) >= 0
    ensures SumOfRepeats(ks, sets) == 0 <==> forall k | k in ks :: Count(sets, k) == 1
  {
    if ks != {} {
      var j :| j in ks && SumOfRepeats(ks, sets) == Count(sets, j) - 1 + SumOfRepeats(ks - {j}, sets);
      RepeatsAreNone(ks - {j}, sets);
      assert forall k | k in ks :: k == j || k in ks - {j};
    }
  }

  /** Sets within `all` that between them hold every key of `all` not in `known`. */
  lemma Tally(known: set<Key>, all: set<Key>, sets: seq<set<Key>>)
    requires known <= all && (forall x | x in sets :: x <= all)
    requires forall k | k in all - known :: Count(sets, k) >= 1
    ensures TotalSize(sets) == |all - known| + SumOfCounts(known, sets) + SumOfRepeats(all - known, sets)
    ensures SumOfRepeats(all - known, sets) >= 0
    ensures SumOfCounts(known, sets) + SumOfRepeats(all - known, sets) == 0 <==>
              (forall k | k in known :: Count(sets, k) == 0) && forall k | k in all - known :: Count(sets, k) == 1
  {
    hide Count, SumOfCounts, SumOfRepeats, TotalSize;
    TotalIsSum(all, sets);
    assert all == known + (all - known);
    SumOfUnion(known, all - known, sets);
    RepeatsAreCounts(all - known, sets);
    SumIsNone(known, sets);
    RepeatsAreNone(all - known, sets);
  }

  // ----- What each worker reports ----------------------------------------------------------------

  /** The keys a worker takes for new, from the load it made. */
  function ReportedBy(w: Worker): set<Key> {
    if w.WritingNodes? || w.WritingEdges? then RecordKeys(w.created) else {}
  }

  function Reports(ws: seq<Worker>): seq<set<Key>> {
    seq(|ws|, i requires 0 <= i < |ws| => ReportedBy(ws[i]))
  }

  /** The sum of the `new_nodes` of the workers. */
  function NewNodes(ws: seq<Worker>): nat {
    if ws == [] then 0
    else
      var w := ws[|ws| - 1];
      NewNodes(ws[..|ws| - 1]) + if w.WritingNodes? || w.WritingEdges? then |w.created| else 0
  }

  ghost predicate Accounted(base: Store, ws: seq<Worker>, k: Key) {
    k in Keys(base.nodes) || exists i :: 0 <= i < |ws| && k in ReportedBy(ws[i])
  }

  ghost predicate AllAccounted(base: Store, ws: seq<Worker>, ks: set<Key>) {
    forall k | k in ks :: Accounted(base, ws, k)
  }

  /** What a worker has read or is to write is accounted for: the first to put a key that the base
      lacked cannot have loaded it, so it reports it. */
  ghost predicate WorkerCounts(names: Naming, base: Store, ws: seq<Worker>, job: Job, w: Worker) {
    match w
    case Reading(seen) => AllAccounted(base, ws, Keys(seen))
    case Idle => true
    case Refused => true
    case _ =>
      && FactsOnly(names, w.created) && DistinctIds(w.created)
      && ReportedBy(w) <= JobKeys(job.items) && AllAccounted(base, ws, JobKeys(job.items))
  }

  ghost predicate CountInv(names: Naming, jobs: seq<Job>, base: Store, c: Cluster) {
    && |c.workers| == |jobs|
    && AllAccounted(base, c.workers, Keys(c.store.nodes))
    && forall i | 0 <= i < |jobs| :: WorkerCounts(names, base, c.workers, jobs[i], c.workers[i])
  }

  lemma StillAccounted(base: Store, ws: seq<Worker>, i: nat, w: Worker, ks: set<Key>)
    requires i < |ws| && ReportedBy(ws[i]) <= ReportedBy(w) && AllAccounted(base, ws, ks)
    ensures AllAccounted(base, ws[i := w], ks)
  {
    forall k | k in ks ensures Accounted(base, ws[i := w], k) {
      assert Accounted(base, ws, k);
      if k !in Keys(base.nodes) {
        var j :| 0 <= j < |ws| && k in ReportedBy(ws[j]);
        assert k in ReportedBy(ws[i := w][j]);
      }
    }
  }

  /** One worker moves on, reporting no less; what it and the store now hold is accounted for. */
  lemma CountsAfterMove(names: Naming, jobs: seq<Job>, base: Store, c: Cluster, i: nat, store: Store, w: Worker)
    requires CountInv(names, jobs, base, c) && i < |jobs| && ReportedBy(c.workers[i]) <= ReportedBy(w)
    requires AllAccounted(base, c.workers[i := w], Keys(store.nodes))
    requires WorkerCounts(names, base, c.workers[i := w], jobs[i], w)
    ensures CountInv(names, jobs, base, Cluster(store, c.workers[i := w]))
  {
    hide AllAccounted, ReportedBy, Keys, JobKeys, FactsOnly, DistinctIds;
    var ws := c.workers[i := w];
    forall j | 0 <= j < |jobs| ensures WorkerCounts(names, base, ws, jobs[j], ws[j]) {
      var v := c.workers[j];
      assert WorkerCounts(names, base, c.workers, jobs[j], v);
      if j != i && v.Reading? {
        StillAccounted(base, c.workers, i, w, Keys(v.seen));
      } else if j != i && !v.Idle? && !v.Refused? {
        StillAccounted(base, c.workers, i, w, JobKeys(jobs[j].items));
      }
    }
  }

  lemma RestrictedKeys(nodes: map<NodeId, Record>, ids: set<NodeId>)
    ensures Keys(Restrict(nodes, ids)) <= Keys(nodes)
  {
    var part := Restrict(nodes, ids);
    forall k | k in Keys(part) ensures k in Keys(nodes) {
      var id :| id in part && part[id].FactRecord? && KeyOf(part[id]) == k;
    }
  }

  function LoadedWorker(b: Built): Worker {
    WritingNodes(b.nodes, b.edges, b.created, 0)
  }

  /** The load of a worker: what it then reports is what it did not see. */
  lemma BuiltCounts(names: Naming, base: Store, ws: seq<Worker>, job: Job, i: nat, seen: Store)
    requires JobOk(names, job) && NamedTable(names, seen.nodes) && i < |ws| && ws[i].Reading?
    requires AllAccounted(base, ws, Keys(seen.nodes)) && Build(LoadState(seen), job).error.None?
    ensures var w := LoadedWorker(Build(LoadState(seen), job)); WorkerCounts(names, base, ws[i := w], job, w)
  {
    var w := LoadedWorker(Build(LoadState(seen), job));
    LoadIsWellIndexed(names, seen);
    BuiltReports(names, LoadState(seen), job);
    LoadedKeys(seen);
    hide Build, LoadState, JobOk, NamedTable, WellIndexed, JobKeys, Keys, FactsOnly, DistinctIds;
    StillAccounted(base, ws, i, w, Keys(seen.nodes));
    forall k | k in JobKeys(job.items) ensures Accounted(base, ws[i := w], k) {
      assert k in Keys(seen.nodes) || k in ReportedBy(ws[i := w][i]);
    }
  }

  lemma LoadedKeys(s: Store)
    ensures LoadState(s).byKey.Keys == Keys(s.nodes)
  {
  }

  lemma BuiltReports(names: Naming, g: GraphState, job: Job)
    requires WellIndexed(names, g) && JobOk(names, job) && Build(g, job).error.None?
    ensures var created := Build(g, job).created;
            FactsOnly(names, created) && DistinctIds(created) &&
                RecordKeys(created) == JobKeys(job.items) - g.byKey.Keys
  {
    WholeJob(names, g, job);
  }

  /** The record a worker puts next is one of its job's. */
  lemma NextKey(names: Naming, job: Job, nodes: map<NodeId, Record>, w: Worker)
    requires WorkerOk(names, job, w) && w.WritingNodes? && w.done < |w.nodes|
    ensures var r := w.nodes[w.done]; Keys(nodes[r.Id() := r]) <= Keys(nodes) + JobKeys(job.items)
  {
    var r := w.nodes[w.done];
    assert Erase(r) in Erased(w.nodes);
    forall k | k in Keys(nodes[r.Id() := r]) ensures k in Keys(nodes) + JobKeys(job.items) {
      var id :| id in nodes[r.Id() := r] && nodes[r.Id() := r][id].FactRecord? && KeyOf(nodes[r.Id() := r][id]) == k;
      if id != r.Id() {
        assert id in nodes;
      }
    }
  }

  lemma StepKeepsCount(names: Naming, jobs: seq<Job>, base: Store, c: Cluster, s: Step)
    requires FreshJobs(names, base, jobs) && Inv(names, jobs, base, c) && CountInv(names, jobs, base, c)
    ensures CountInv(names, jobs, base, Do(jobs, c, s))
  {
    if s.i < |jobs| {
      var (store, w) := Move(jobs[s.i], c.store, c.workers[s.i], s);
      MoveCounts(names, jobs, base, c, s.i, s);
      hide CountInv, Move, Inv, FreshJobs;
      assert Do(jobs, c, s) == Cluster(store, c.workers[s.i := w]);
    }
  }

  lemma MoveCounts(names: Naming, jobs: seq<Job>, base: Store, c: Cluster, i: nat, s: Step)
    requires FreshJobs(names, base, jobs) && Inv(names, jobs, base, c) && CountInv(names, jobs, base, c) && i < |jobs|
    ensures var (store, w) := Move(jobs[i], c.store, c.workers[i], s);
            CountInv(names, jobs, base, Cluster(store, c.workers[i := w]))
  {
    hide AllAccounted, Keys, JobKeys, FactsOnly, DistinctIds, Build, LoadState, NamedStore, EdgesMerged, RecordKeys;
    var was, ws := c.workers[i], c.workers;
    var (store, w) := Move(jobs[i], c.store, was, s);
    assert WorkerOk(names, jobs[i], was) && WorkerCounts(names, base, ws, jobs[i], was);
    if was.Idle? && s.ReadNodes? {
      RestrictedKeys(c.store.nodes, s.keep);
      SubsetAccounted(base, ws, Keys(w.seen), Keys(c.store.nodes));
      StillAccounted(base, ws, i, w, Keys(w.seen));
    } else if was.Reading? && s.ReadEdges? && w.WritingNodes? {
      BuiltCounts(names, base, ws, jobs[i], i, Store(was.seen, Restrict(c.store.edges, s.keepEdges)));
    } else if was.Reading? {
      StillAccounted(base, ws, i, w, Keys(was.seen));
    } else if was.WritingNodes? || was.WritingEdges? {
      StillAccounted(base, ws, i, w, JobKeys(jobs[i].items));
    }
    StillAccounted(base, ws, i, w, Keys(c.store.nodes));
    if was.WritingNodes? && s.Put? && was.done < |was.nodes| {
      NextKey(names, jobs[i], c.store.nodes, was);
      UnionAccounted(base, ws[i := w], Keys(c.store.nodes), JobKeys(jobs[i].items), Keys(store.nodes));
    }
    CountsAfterMove(names, jobs, base, c, i, store, w);
  }

  lemma SubsetAccounted(base: Store, ws: seq<Worker>, xs: set<Key>, ys: set<Key>)
    requires AllAccounted(base, ws, ys) && xs <= ys
    ensures AllAccounted(base, ws, xs)
  {
  }

  lemma UnionAccounted(base: Store, ws: seq<Worker>, xs: set<Key>, ys: set<Key>, zs: set<Key>)
    requires AllAccounted(base, ws, xs) && AllAccounted(base, ws, ys) && zs <= xs + ys
    ensures AllAccounted(base, ws, zs)
  {
  }

  lemma {:induction false} AlwaysCounts(names: Naming, jobs: seq<Job>, base: Store, steps: seq<Step>)
    requires FreshJobs(names, base, jobs)
    ensures CountInv(names, jobs, base, After(jobs, base, steps))
  {
    if steps != [] {
      var before := steps[..|steps| - 1];
      AlwaysCounts(names, jobs, base, before);
      AlwaysInv(names, jobs, base, before);
      StepKeepsCount(names, jobs, base, After(jobs, base, before), steps[|steps| - 1]);
    }
  }
}
