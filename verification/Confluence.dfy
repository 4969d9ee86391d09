/** Concurrent workers against one another and against every serial order of the same jobs. */
module Confluence {
  import opened Core
  import opened GraphModel
  import opened Scans
  import opened Provenance
  import opened Snapshot
  import opened Ingest
  import opened Stores
  import opened Deltas
  import opened Protocol
  import opened Serial

  /** This worker has put its whole delta. */
  predicate HasFinished(w: Worker) {
    w.WritingEdges? && w.done == |w.edges|
  }

  predicate IsOver(w: Worker) {
    w.Refused? || HasFinished(w)
  }

  /** Every worker has either put its whole delta or refused its job. */
  predicate Settled(c: Cluster) {
    forall i | 0 <= i < |c.workers| :: IsOver(c.workers[i])
  }

  /** What a job adds: nothing if it fails. */
  ghost function PartOf(job: Job): set<Record> {
    if JobError(job.items).Some? then {} else JobRecords(job)
  }

  ghost function TableOf(job: Job): map<EdgeId, FactEdge> {
    if JobError(job.items).Some? then map[] else JobTable(job)
  }

  ghost function JobParts(jobs: seq<Job>): seq<set<Record>> {
    seq(|jobs|, i requires 0 <= i < |jobs| => PartOf(jobs[i]))
  }

  ghost function JobTables(jobs: seq<Job>): seq<map<EdgeId, FactEdge>> {
    seq(|jobs|, i requires 0 <= i < |jobs| => TableOf(jobs[i]))
  }

  /** `s` is `base` with the deltas of all jobs that do not fail: no more and no less, up to the
      text shown for a fact. */
  ghost predicate IsMerge(s: Store, base: Store, jobs: seq<Job>) {
    && ErasedOf(s.nodes) == ErasedOf(base.nodes) + UnionAll(JobParts(jobs))
    && EdgesMerged(s.edges, base.edges, JobTables(jobs))
  }

  // ----- Safety in every reachable state -------------------------------------------------------

  /** At every instant of every run, wherever workers stopped, each stored edge has its event and
      its fact stored, and every record sits under the id its contents determine. */
  lemma AlwaysIntegral(names: Naming, jobs: seq<Job>, base: Store, steps: seq<Step>)
    requires FreshJobs(names, base, jobs)
    ensures NamedStore(names, After(jobs, base, steps).store)
  {
    AlwaysInv(names, jobs, base, steps);
  }

  /** At every instant the store holds the original contents and what has been put, and every
      record that was put comes from the job of the worker that put it: nothing is lost, nothing
      is made up. */
  lemma NothingLost(names: Naming, jobs: seq<Job>, base: Store, steps: seq<Step>)
    requires FreshJobs(names, base, jobs)
    ensures var c := After(jobs, base, steps);
            && ErasedOf(c.store.nodes) == ErasedOf(base.nodes) + UnionAll(Parts(c.workers))
            && EdgesMerged(c.store.edges, base.edges, Tables(c.workers))
            && |c.workers| == |jobs|
            && forall i | 0 <= i < |jobs| :: Written(c.workers[i]) <= JobRecords(jobs[i])
  {
    AlwaysInv(names, jobs, base, steps);
    var c := After(jobs, base, steps);
    forall i | 0 <= i < |jobs| ensures Written(c.workers[i]) <= JobRecords(jobs[i]) {
      WrittenIsOfJob(names, jobs[i], c.workers[i]);
    }
  }

  // ----- Settled runs --------------------------------------------------------------------------

  /** A settled run has merged all jobs, whatever the interleaving and whatever each worker saw. */
  lemma SettledIsMerge(names: Naming, jobs: seq<Job>, base: Store, steps: seq<Step>)
    requires FreshJobs(names, base, jobs) && Settled(After(jobs, base, steps))
    ensures IsMerge(After(jobs, base, steps).store, base, jobs)
  {
    AlwaysInv(names, jobs, base, steps);
    var c := After(jobs, base, steps);
    forall i | 0 <= i < |jobs|
      ensures Parts(c.workers)[i] == JobParts(jobs)[i] && Tables(c.workers)[i] == JobTables(jobs)[i]
    {
      assert WorkerOk(names, jobs[i], c.workers[i]);
      if c.workers[i].WritingEdges? {
        assert c.workers[i].edges[..c.workers[i].done] == c.workers[i].edges;
      }
    }
    assert Parts(c.workers) == JobParts(jobs);
    assert Tables(c.workers) == JobTables(jobs);
  }

  lemma MergedTablesAgree(x: map<EdgeId, FactEdge>, y: map<EdgeId, FactEdge>, base: map<EdgeId, FactEdge>,
                          ts: seq<map<EdgeId, FactEdge>>)
    requires EdgesMerged(x, base, ts) && EdgesMerged(y, base, ts)
    ensures x == y
  {
  }

  lemma MergesAgree(s: Store, t: Store, base: Store, jobs: seq<Job>)
    requires IsMerge(s, base, jobs) && IsMerge(t, base, jobs)
    ensures ErasedOf(s.nodes) == ErasedOf(t.nodes) && s.edges == t.edges
  {
    MergedTablesAgree(s.edges, t.edges, base.edges, JobTables(jobs));
  }

  lemma TablesReorder(edges: map<EdgeId, FactEdge>, base: map<EdgeId, FactEdge>, ts: seq<map<EdgeId, FactEdge>>,
                      us: seq<map<EdgeId, FactEdge>>)
    requires EdgesMerged(edges, base, ts) && forall t :: t in ts <==> t in us
    ensures EdgesMerged(edges, base, us)
  {
    forall k | k in edges && k !in base ensures exists j :: 0 <= j < |us| && k in us[j] {
      var i :| 0 <= i < |ts| && k in ts[i];
      assert ts[i] in us;
    }
    forall j, k | 0 <= j < |us| && k in us[j] ensures k in edges && edges[k] == us[j][k] {
      assert us[j] in ts;
      var i :| 0 <= i < |ts| && ts[i] == us[j];
    }
  }

  /** The merge does not depend on the order in which the jobs are listed. */
  lemma MergeIgnoresOrder(s: Store, base: Store, jobs: seq<Job>, order: seq<Job>)
    requires forall job :: job in jobs <==> job in order
    requires IsMerge(s, base, jobs)
    ensures IsMerge(s, base, order)
  {
    SameParts(jobs, order);
    SameParts(order, jobs);
    SameTables(jobs, order);
    SameTables(order, jobs);
    TablesReorder(s.edges, base.edges, JobTables(jobs), JobTables(order));
  }

  lemma SameTables(jobs: seq<Job>, order: seq<Job>)
    requires forall job :: job in jobs ==> job in order
    ensures forall t :: t in JobTables(jobs) ==> t in JobTables(order)
  {
    forall t | t in JobTables(jobs) ensures t in JobTables(order) {
      var i :| 0 <= i < |jobs| && t == JobTables(jobs)[i];
      assert jobs[i] in order;
      var j :| 0 <= j < |order| && order[j] == jobs[i];
      assert JobTables(order)[j] == t;
    }
  }

  lemma SameParts(jobs: seq<Job>, order: seq<Job>)
    requires forall job :: job in jobs ==> job in order
    ensures UnionAll(JobParts(jobs)) <= UnionAll(JobParts(order))
  {
    forall r | r in UnionAll(JobParts(jobs)) ensures r in UnionAll(JobParts(order)) {
      var i :| 0 <= i < |jobs| && r in JobParts(jobs)[i];
      assert jobs[i] in order;
      var j :| 0 <= j < |order| && order[j] == jobs[i];
      assert r in JobParts(order)[j];
    }
  }

  // ----- When this holds ------------------------------------------------------------------------

  /** The keys of the facts in the store and of everything the jobs sight. */
  function KeysInPlay(base: Store, jobs: seq<Job>): set<Key> {
    Keys(base.nodes) + set i, k | 0 <= i < |jobs| && k in JobKeys(jobs[i].items) :: k
  }

  lemma {:induction false} JobKeysNamed(names: Naming, items: seq<Item>)
    ensures JobNamed(names, items) <==> NamesAll(names, JobKeys(items))
  {
    if items != [] {
      var init, it := items[..|items| - 1], items[|items| - 1];
      assert items == init + [it];
      JobKeysNamed(names, init);
      assert JobNamed(names, items) <==> JobNamed(names, init) && SightingsNamed(names, Sightings(it));
      assert SightingsNamed(names, Sightings(it)) <==> NamesAll(names, KeysSeen(Sightings(it))) by {
        forall s | s in Sightings(it) ensures s.key in KeysSeen(Sightings(it)) {
        }
      }
    }
  }

  lemma NamesInPlay(names: Naming, base: Store, jobs: seq<Job>)
    requires StoreInv(base) && FreshEvents(base, jobs)
    ensures FreshJobs(names, base, jobs) <==> NamesAll(names, KeysInPlay(base, jobs))
  {
    forall i | 0 <= i < |jobs| ensures JobNamed(names, jobs[i].items) <==> NamesAll(names, JobKeys(jobs[i].items)) {
      JobKeysNamed(names, jobs[i].items);
    }
    assert NamedTable(names, base.nodes) <==> NamesAll(names, Keys(base.nodes)) by {
      forall id | id in base.nodes && base.nodes[id].FactRecord? ensures KeyOf(base.nodes[id]) in Keys(base.nodes) {
      }
    }
    var play := KeysInPlay(base, jobs);
    assert Keys(base.nodes) <= play && forall i | 0 <= i < |jobs| :: JobKeys(jobs[i].items) <= play;
  }

  /** What the theorems ask of a store and of jobs, besides fresh event ids, is exactly that no two
      keys in play share a fact id. */
  lemma FreshJobsIff(base: Store, jobs: seq<Job>)
    requires StoreInv(base) && FreshEvents(base, jobs)
    ensures (exists names :: FreshJobs(names, base, jobs)) <==> Apart(KeysInPlay(base, jobs))
  {
    hide FreshJobs, FreshEvents, StoreInv, NamesAll;
    NamingExistsIff(KeysInPlay(base, jobs));
    forall names: Naming ensures FreshJobs(names, base, jobs) <==> NamesAll(names, KeysInPlay(base, jobs)) {
      NamesInPlay(names, base, jobs);
    }
  }

  /** Each record sits under its id. */
  ghost predicate KeyedById(nodes: map<NodeId, Record>) {
    forall id | id in nodes :: nodes[id].Id() == id
  }

  /** Whatever the jobs are: a put goes to the id of its record. */
  lemma {:induction false} AlwaysKeyed(jobs: seq<Job>, base: Store, steps: seq<Step>)
    requires KeyedById(base.nodes)
    ensures KeyedById(After(jobs, base, steps).store.nodes)
  {
    if steps != [] {
      hide Build, LoadState;
      AlwaysKeyed(jobs, base, steps[..|steps| - 1]);
    }
  }

  /** A table of records under their ids that has merged the jobs has one fact per key in play, so
      none of these keys share an id. */
  lemma MergeMeansApart(s: Store, base: Store, jobs: seq<Job>)
    requires KeyedById(s.nodes) && Honest(base.nodes) && IsMerge(s, base, jobs)
    requires forall i | 0 <= i < |jobs| :: JobError(jobs[i].items).None?
    ensures Apart(KeysInPlay(base, jobs))
  {
    forall k | k in KeysInPlay(base, jobs)
      ensures FactNodeId(k) in s.nodes && Erase(s.nodes[FactNodeId(k)]) == FactOf(k)
    {
      if k in Keys(base.nodes) {
        var id :| id in base.nodes && base.nodes[id].FactRecord? && KeyOf(base.nodes[id]) == k;
        assert FactOf(k) == Erase(base.nodes[id]);
      } else {
        var i :| 0 <= i < |jobs| && k in JobKeys(jobs[i].items);
        assert FactOf(k) in JobParts(jobs)[i];
        assert FactOf(k) in UnionAll(JobParts(jobs));
      }
      assert FactOf(k) in ErasedOf(s.nodes);
      var id :| id in s.nodes && Erase(s.nodes[id]) == FactOf(k);
      assert s.nodes[id].Id() == FactOf(k).Id();
    }
    assert forall k :: FactOf(k).nodeType == k.nodeType && FactOf(k).canonical == k.canonical;
  }

  /** Jobs that succeed, with fresh event ids, on a well-formed store: a settled run leaves the union
      of their deltas if and only if no two keys in play share a fact id. */
  lemma SettledIsMergeIff(jobs: seq<Job>, base: Store, steps: seq<Step>)
    requires StoreInv(base) && FreshEvents(base, jobs) && Settled(After(jobs, base, steps))
    requires forall i | 0 <= i < |jobs| :: JobError(jobs[i].items).None?
    ensures IsMerge(After(jobs, base, steps).store, base, jobs) <==> Apart(KeysInPlay(base, jobs))
  {
    FreshJobsIff(base, jobs);
    assert KeyedById(base.nodes);
    hide IsMerge, FreshEvents, After, Settled, Apart;
    var s := After(jobs, base, steps).store;
    if Apart(KeysInPlay(base, jobs)) {
      var names :| FreshJobs(names, base, jobs);
      SettledIsMerge(names, jobs, base, steps);
    }
    if IsMerge(s, base, jobs) {
      AlwaysKeyed(jobs, base, steps);
      MergeMeansApart(s, base, jobs);
    }
  }

  // ----- Serial runs ---------------------------------------------------------------------------

  lemma FreshPrefix(names: Naming, base: Store, jobs: seq<Job>, n: nat)
    requires FreshJobs(names, base, jobs) && n <= |jobs|
    ensures FreshJobs(names, base, jobs[..n])
  {
  }

  lemma UnionSnoc(ps: seq<set<Record>>, p: set<Record>)
    ensures UnionAll(ps + [p]) == UnionAll(ps) + p
  {
    var ps' := ps + [p];
    forall r | r in UnionAll(ps) + p ensures r in UnionAll(ps') {
      if r in p {
        assert r in ps'[|ps|];
      } else {
        var i :| 0 <= i < |ps| && r in ps[i];
        assert r in ps'[i];
      }
    }
    forall r | r in UnionAll(ps') ensures r in UnionAll(ps) + p {
      var i :| 0 <= i < |ps'| && r in ps'[i];
      assert i < |ps| ==> r in ps[i];
    }
  }

  lemma MergeSnoc(edges: map<EdgeId, FactEdge>, base: map<EdgeId, FactEdge>, ts: seq<map<EdgeId, FactEdge>>,
                  t: map<EdgeId, FactEdge>)
    requires EdgesMerged(edges, base, ts) && t.Keys !! edges.Keys
    ensures EdgesMerged(edges + t, base, ts + [t])
  {
    var ts' := ts + [t];
    forall k | k in edges + t && k !in base ensures exists i :: 0 <= i < |ts'| && k in ts'[i] {
      if k in t {
        assert k in ts'[|ts|];
      } else {
        var i :| 0 <= i < |ts| && k in ts[i];
        assert k in ts'[i];
      }
    }
  }

  lemma JobListsSnoc(init: seq<Job>, job: Job)
    ensures JobParts(init + [job]) == JobParts(init) + [PartOf(job)]
    ensures JobTables(init + [job]) == JobTables(init) + [TableOf(job)]
  {
  }

  /** A store that has taken in one more job has merged one more job. */
  lemma MergeOneMore(s: Store, t: Store, base: Store, init: seq<Job>, job: Job)
    requires IsMerge(s, base, init)
    requires ErasedOf(t.nodes) == ErasedOf(s.nodes) + PartOf(job)
    requires t.edges == s.edges + TableOf(job) && TableOf(job).Keys !! s.edges.Keys
    ensures IsMerge(t, base, init + [job])
  {
    JobListsSnoc(init, job);
    UnionSnoc(JobParts(init), PartOf(job));
    MergeSnoc(s.edges, base.edges, JobTables(init), TableOf(job));
  }

  lemma IngestTakesIn(names: Naming, s: Store, job: Job)
    requires NamedStore(names, s) && JobOk(names, job) && FreshFor(s, job)
    ensures var t := Ingested(s, job);
            && NamedStore(names, t) && ErasedOf(t.nodes) == ErasedOf(s.nodes) + PartOf(job)
            && t.edges == s.edges + TableOf(job) && TableOf(job).Keys !! s.edges.Keys
  {
    hide NamedStore, Ingested, FreshFor, JobOk, JobRecords, JobTable;
    IngestAdds(names, s, job);
    assert s.edges + map[] == s.edges;
  }

  /** A serial run merges its jobs too, and keeps the store well formed. */
  lemma {:induction false} SerialIsMerge(names: Naming, base: Store, jobs: seq<Job>)
    requires FreshJobs(names, base, jobs)
    ensures NamedStore(names, SerialStore(base, jobs)) && IsMerge(SerialStore(base, jobs), base, jobs)
  {
    if jobs == [] {
      assert UnionAll(JobParts(jobs)) == {};
    } else {
      var n := |jobs| - 1;
      var init, job := jobs[..n], jobs[n];
      assert jobs == init + [job];
      FreshPrefix(names, base, jobs, n);
      SerialIsMerge(names, base, init);
      SerialFresh(names, base, init, SerialStore(base, init), job, jobs);
      IngestTakesIn(names, SerialStore(base, init), job);
      MergeOneMore(SerialStore(base, init), SerialStore(base, jobs), base, init, job);
    }
  }

  lemma SerialFresh(names: Naming, base: Store, init: seq<Job>, s: Store, job: Job, jobs: seq<Job>)
    requires FreshJobs(names, base, jobs) && jobs == init + [job] && Honest(s.nodes) && IsMerge(s, base, init)
    ensures FreshFor(s, job)
  {
    assert jobs[|init|] == job;
    forall id | id in s.nodes && s.nodes[id].EventRecord? ensures s.nodes[id].uuid !in EventsOf(job) {
      var x := s.nodes[id];
      assert x in ErasedOf(s.nodes);
      if x in ErasedOf(base.nodes) {
        var j :| j in base.nodes && Erase(base.nodes[j]) == x;
        assert base.nodes[j].Id() == j;
      } else {
        var i :| 0 <= i < |init| && x in JobParts(init)[i];
        JobEventIds(init[i], x);
        assert jobs[i] == init[i];
      }
    }
  }

  // ----- What loads make of stores that agree --------------------------------------------------

  /** Equal graphs, but for the text shown for each fact. */
  function Blank(n: Node): Node {
    if n.Fact? then n.(value := "") else n
  }

  ghost predicate SameUpToText(g: GraphState, h: GraphState) {
    && g.edges == h.edges && g.byKey == h.byKey && g.byType == h.byType
    && g.nodes.Keys == h.nodes.Keys && forall id | id in g.nodes :: Blank(g.nodes[id]) == Blank(h.nodes[id])
  }

  lemma AgreeingRecords(s: Store, t: Store)
    requires Honest(s.nodes) && Honest(t.nodes) && ErasedOf(s.nodes) == ErasedOf(t.nodes)
    ensures s.nodes.Keys == t.nodes.Keys && forall id | id in s.nodes :: Erase(s.nodes[id]) == Erase(t.nodes[id])
  {
    HalfAgree(s, t);
    HalfAgree(t, s);
  }

  lemma HalfAgree(s: Store, t: Store)
    requires Honest(s.nodes) && Honest(t.nodes) && ErasedOf(s.nodes) == ErasedOf(t.nodes)
    ensures forall id | id in s.nodes :: id in t.nodes && Erase(s.nodes[id]) == Erase(t.nodes[id])
  {
    forall id | id in s.nodes ensures id in t.nodes && Erase(s.nodes[id]) == Erase(t.nodes[id]) {
      assert Erase(s.nodes[id]) in ErasedOf(t.nodes);
      var j :| j in t.nodes && Erase(t.nodes[j]) == Erase(s.nodes[id]);
      assert Erase(s.nodes[id]).Id() == id && Erase(t.nodes[j]).Id() == j;
    }
  }

  lemma AgreeingLoads(s: Store, t: Store)
    requires Honest(s.nodes) && Honest(t.nodes) && ErasedOf(s.nodes) == ErasedOf(t.nodes) && s.edges == t.edges
    ensures SameUpToText(LoadState(s), LoadState(t))
  {
    AgreeingRecords(s, t);
    AgreeingIndices(s, t);
    var g, h := Frame(s), Frame(t);
    AgreeingSeeds(s, t);
    forall id | id in g.nodes ensures Blank(Filled(g, id)) == Blank(Filled(h, id)) {
      AgreeingProvenance(g, h, id);
    }
  }

  lemma AgreeingSeeds(s: Store, t: Store)
    requires s.nodes.Keys == t.nodes.Keys && s.edges == t.edges
    requires forall id | id in s.nodes :: Erase(s.nodes[id]) == Erase(t.nodes[id])
    ensures SeedNodes(s).Keys == SeedNodes(t).Keys
    ensures forall id | id in SeedNodes(s) :: Blank(SeedNodes(s)[id]) == Blank(SeedNodes(t)[id])
  {
  }

  lemma AgreeingIndices(s: Store, t: Store)
    requires s.nodes.Keys == t.nodes.Keys && forall id | id in s.nodes :: Erase(s.nodes[id]) == Erase(t.nodes[id])
    ensures KeyIndex(s.nodes) == KeyIndex(t.nodes) && TypeIndex(s.nodes) == TypeIndex(t.nodes)
  {
    forall id | id in s.nodes
      ensures TypeOf(s.nodes[id]) == TypeOf(t.nodes[id]) && s.nodes[id].FactRecord? == t.nodes[id].FactRecord?
      ensures s.nodes[id].FactRecord? ==> KeyOf(s.nodes[id]) == KeyOf(t.nodes[id])
    {
      assert Erase(s.nodes[id]) == Erase(t.nodes[id]);
    }
    assert Keys(s.nodes) == Keys(t.nodes);
    assert Types(s.nodes) == Types(t.nodes);
    forall ty | ty in Types(s.nodes) ensures OfType(s.nodes, ty) == OfType(t.nodes, ty) {
    }
  }

  lemma AgreeingProvenance(g: GraphState, h: GraphState, id: NodeId)
    requires g.edges == h.edges && g.nodes.Keys == h.nodes.Keys && id in g.nodes
    requires forall i | i in g.nodes :: Blank(g.nodes[i]) == Blank(h.nodes[i])
    ensures Blank(Filled(g, id)) == Blank(Filled(h, id))
  {
    assert forall e :: IsEvent(g.nodes, e) <==> IsEvent(h.nodes, e);
    assert forall e :: At(g.nodes, e) == At(h.nodes, e) && ToolOf(g.nodes, e) == ToolOf(h.nodes, e);
    var evs := Sources(g, id);
    assert evs == Sources(h, id);
    var p, q := Chronology(g.nodes, evs), Chronology(h.nodes, evs);
    assert Lists(h.nodes, p, evs);
    ListingIsUnique(h.nodes, p, q, evs);
    assert Tools(g.nodes, evs) == Tools(h.nodes, evs);
  }

  // ----- The theorem ---------------------------------------------------------------------------

  /** Whatever the interleaving, the store that results from a settled run equals the store of the
      jobs run one after the other, in any order, up to the text shown for a fact; and so do the
      graphs loaded from the two, with the same provenance down to its order. */
  lemma ConcurrentEqualsSerial(names: Naming, jobs: seq<Job>, base: Store, steps: seq<Step>, order: seq<Job>)
    requires FreshJobs(names, base, jobs) && Settled(After(jobs, base, steps))
    requires FreshJobs(names, base, order) && forall job :: job in jobs <==> job in order
    ensures var s, t := After(jobs, base, steps).store, SerialStore(base, order);
            && ErasedOf(s.nodes) == ErasedOf(t.nodes) && s.edges == t.edges
            && SameUpToText(LoadState(s), LoadState(t))
  {
    var s, t := After(jobs, base, steps).store, SerialStore(base, order);
    SettledIsMerge(names, jobs, base, steps);
    AlwaysIntegral(names, jobs, base, steps);
    MergeIgnoresOrder(s, base, jobs, order);
    SerialIsMerge(names, base, order);
    MergesAgree(s, t, base, order);
    AgreeingLoads(s, t);
  }

  /** No worker ever loses another's links: from the moment a worker has put its delta, in every
      state reachable from there, whatever the others are doing and wherever they stopped, every
      occurrence it extracted has its event among the source events of its fact, when the store is
      loaded, and its tool among the source tools. */
  lemma LinksSurvive(names: Naming, jobs: seq<Job>, base: Store, steps: seq<Step>, i: nat, a: nat, s: Sighting)
    requires FreshJobs(names, base, jobs) && i < |jobs|
    requires HasFinished(After(jobs, base, steps).workers[i]) && a < |jobs[i].items| && s in Sightings(jobs[i].items[a])
    ensures var g, id := LoadState(After(jobs, base, steps).store), FactNodeId(s.key);
            && id in g.nodes && g.nodes[id].Fact?
            && jobs[i].items[a].event in g.nodes[id].sourceEvents
            && jobs[i].tool in g.nodes[id].sourceTools
  {
    var job, it, c := jobs[i], jobs[i].items[a], After(jobs, base, steps);
    var e, x := EdgeFor(s, it.event), EventRecordOf(job.tool, it);
    AlwaysInv(names, jobs, base, steps);
    hide After, FreshJobs;
    SightingInJob(job.items, a, s);
    FinishedHolds(names, jobs, base, c, i, x, e);
    LinkIsLoaded(c.store, e.Id(), x);
  }

  /** The store holds every event record and every edge of a worker that has finished. */
  lemma FinishedHolds(names: Naming, jobs: seq<Job>, base: Store, c: Cluster, i: nat, x: Record, e: FactEdge)
    requires Inv(names, jobs, base, c) && i < |jobs| && HasFinished(c.workers[i])
    requires x.EventRecord? && x in JobRecords(jobs[i]) && e in JobEdges(jobs[i].items)
    ensures x.Id() in c.store.nodes && c.store.nodes[x.Id()] == x && e.Id() in c.store.edges
  {
    hide StoreInv, EdgesMerged, UnionAll, JobRecords, JobEdges, ErasedOf, PutEdges;
    var w := c.workers[i];
    assert WorkerOk(names, jobs[i], w);
    assert w.edges[..w.done] == w.edges;
    TableKeys(w.edges, e.Id());
    assert e.Id() in Tables(c.workers)[i];
    MergedIsThere(c.store.edges, base.edges, Tables(c.workers), i, e.Id());
    WrittenIsStored(names, jobs, base, c, i, x);
  }

  lemma MergedIsThere(edges: map<EdgeId, FactEdge>, base: map<EdgeId, FactEdge>, ts: seq<map<EdgeId, FactEdge>>,
                      i: nat, k: EdgeId)
    requires EdgesMerged(edges, base, ts) && i < |ts| && k in ts[i]
    ensures k in edges
  {
  }

  /** A stored edge gives its fact, when loaded, its event and the event's tool. */
  lemma LinkIsLoaded(s: Store, k: EdgeId, x: Record)
    requires StoreInv(s) && k in s.edges && x.EventRecord? && x.uuid == k.event && s.nodes[x.Id()] == x
    ensures var g := LoadState(s);
            && k.target in g.nodes && g.nodes[k.target].Fact?
            && k.event in g.nodes[k.target].sourceEvents && x.tool in g.nodes[k.target].sourceTools
  {
    var g := Frame(s);
    assert IsEvent(g.nodes, k.event) && ToolOf(g.nodes, k.event) == x.tool;
    assert k.event in Sources(g, k.target);
    assert k.event in Chronology(g.nodes, Sources(g, k.target));
  }

  lemma {:induction false} SightingInJob(items: seq<Item>, a: nat, s: Sighting)
    requires a < |items| && s in Sightings(items[a])
    ensures EdgeFor(s, items[a].event) in JobEdges(items)
  {
    var n := |items| - 1;
    if a < n {
      SightingInJob(items[..n], a, s);
    } else {
      var ss := Sightings(items[n]);
      var j :| 0 <= j < |ss| && ss[j] == s;
      assert EdgesFor(ss, items[n].event)[j] == EdgeFor(s, items[a].event);
    }
  }
}
