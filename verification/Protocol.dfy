/** Any number of workers sharing one session's store with no lock between them. A worker reads the
    nodes, then the edges, builds its delta, and puts one key at a time; any step of any worker may
    come next, and a worker may stop for good at any point. */
module Protocol {
  import opened Core
  import opened GraphModel
  import opened Ingest
  import opened Stores
  import opened Deltas

  datatype Worker =
    | Idle
    | Reading(seen: map<NodeId, Record>)                                     // nodes read, edges not yet
    | WritingNodes(nodes: seq<Record>, edges: seq<FactEdge>, created: seq<Record>, done: nat)
    | WritingEdges(nodes: seq<Record>, edges: seq<FactEdge>, created: seq<Record>, done: nat)
    | Refused                                                                // the ingest raised

  datatype Cluster = Cluster(store: Store, workers: seq<Worker>)

  /** A search may return any part of what is stored (it is cut at the scan limit), and the edges
      are read later than the nodes. */
  datatype Step =
    | ReadNodes(i: nat, keep: set<NodeId>)
    | ReadEdges(i: nat, keepEdges: set<EdgeId>)
    | Put(i: nat)

  function Restrict<K, V>(m: map<K, V>, ks: set<K>): map<K, V> {
    map k | k in m && k in ks :: m[k]
  }

  /** The worker's next state and the store's. A step that does not apply changes nothing. */
  ghost function Move(job: Job, store: Store, w: Worker, s: Step): (Store, Worker) {
    match w
    case Idle => (store, if s.ReadNodes? then Reading(Restrict(store.nodes, s.keep)) else w)
    case Reading(seen) =>
      if !s.ReadEdges? then (store, w)
      else
        var b := Build(LoadState(Store(seen, Restrict(store.edges, s.keepEdges))), job);
        (store, if b.error.Some? then Refused else WritingNodes(b.nodes, b.edges, b.created, 0))
    case WritingNodes(ns, es, created, done) =>
      if !s.Put? then (store, w)
      else if done < |ns| then (store.(nodes := store.nodes[ns[done].Id() := ns[done]]),
          WritingNodes(ns, es, created, done + 1))
      else (store, WritingEdges(ns, es, created, 0))
    case WritingEdges(ns, es, created, done) =>
      if !s.Put? || done >= |es| then (store, w)
      else (store.(edges := store.edges[es[done].Id() := es[done]]), WritingEdges(ns, es, created, done + 1))
    case Refused => (store, w)
  }

  ghost function Do(jobs: seq<Job>, c: Cluster, s: Step): Cluster {
    if s.i >= |jobs| || s.i >= |c.workers| then c
    else
      var (store, w) := Move(jobs[s.i], c.store, c.workers[s.i], s);
      Cluster(store, c.workers[s.i := w])
  }

  /** The state after any sequence of steps from the store `base`. */
  ghost function After(jobs: seq<Job>, base: Store, steps: seq<Step>): (c: Cluster)
    ensures |c.workers| == |jobs|
  {
    if steps == [] then Cluster(base, seq(|jobs|, _ => Idle))
    else Do(jobs, After(jobs, base, steps[..|steps| - 1]), steps[|steps| - 1])
  }

  // ----- What is assumed of the jobs -----------------------------------------------------------

  ghost function EventsOf(job: Job): set<EventId> {
    set i | 0 <= i < |job.items| :: job.items[i].event
  }

  ghost predicate JobOk(names: Naming, job: Job) {
    JobNamed(names, job.items) && DistinctEvents(job.items)
  }

  /** Event ids are fresh: used once among the jobs, and unknown to the store. */
  ghost predicate FreshEvents(base: Store, jobs: seq<Job>) {
    && (forall i | 0 <= i < |jobs| :: DistinctEvents(jobs[i].items))
    && (forall i, j | 0 <= i < j < |jobs| :: EventsOf(jobs[i]) !! EventsOf(jobs[j]))
    && (forall i, e | 0 <= i < |jobs| && e in EventsOf(jobs[i]) :: EventUuid(e) !in base.nodes)
  }

  /** Fresh events, and the keys of the store and of the jobs are those that `names` names. */
  ghost predicate FreshJobs(names: Naming, base: Store, jobs: seq<Job>) {
    && NamedStore(names, base)
    && (forall i | 0 <= i < |jobs| :: JobOk(names, jobs[i]))
    && FreshEvents(base, jobs)
  }

  // ----- The invariant -------------------------------------------------------------------------

  function ErasedOf(nodes: map<NodeId, Record>): set<Record> {
    set id | id in nodes :: Erase(nodes[id])
  }

  function Written(w: Worker): set<Record> {
    match w
    case WritingNodes(ns, _, _, done) => if done <= |ns| then Erased(ns[..done]) else {}
    case WritingEdges(ns, _, _, _) => Erased(ns)
    case _ => {}
  }

  function WrittenEdges(w: Worker): map<EdgeId, FactEdge> {
    if w.WritingEdges? && w.done <= |w.edges| then PutEdges(map[], w.edges[..w.done]) else map[]
  }

  /** What each worker has put so far. */
  function Parts(ws: seq<Worker>): seq<set<Record>> {
    seq(|ws|, i requires 0 <= i < |ws| => Written(ws[i]))
  }

  function Tables(ws: seq<Worker>): seq<map<EdgeId, FactEdge>> {
    seq(|ws|, i requires 0 <= i < |ws| => WrittenEdges(ws[i]))
  }

  function UnionAll(ps: seq<set<Record>>): set<Record> {
    set i, r | 0 <= i < |ps| && r in ps[i] :: r
  }

  ghost predicate RightDelta(names: Naming, job: Job, ns: seq<Record>, es: seq<FactEdge>) {
    && JobError(job.items).None? && Erased(ns) == JobRecords(job) && es == JobEdges(job.items)
    && forall r | r in ns :: NamedRecord(names, r)
  }

  ghost predicate WorkerOk(names: Naming, job: Job, w: Worker) {
    match w
    case Idle => true
    case Reading(seen) => NamedTable(names, seen)
    case WritingNodes(ns, es, _, done) => done <= |ns| && RightDelta(names, job, ns, es)
    case WritingEdges(ns, es, _, done) => done <= |es| && RightDelta(names, job, ns, es)
    case Refused => JobError(job.items).Some?
  }

  ghost predicate WorkersOk(names: Naming, jobs: seq<Job>, ws: seq<Worker>) {
    |ws| == |jobs| && forall i | 0 <= i < |jobs| :: WorkerOk(names, jobs[i], ws[i])
  }

  /** The edge table is what was there and what the workers wrote. */
  ghost predicate EdgesMerged(edges: map<EdgeId, FactEdge>, base: map<EdgeId, FactEdge>,
                              ts: seq<map<EdgeId, FactEdge>>) {
    && (forall k | k in edges :: k in base || exists i :: 0 <= i < |ts| && k in ts[i])
    && (forall k | k in base :: k in edges && edges[k] == base[k])
    && (forall i, k | 0 <= i < |ts| && k in ts[i] :: k in edges && edges[k] == ts[i][k])
  }

  ghost predicate Inv(names: Naming, jobs: seq<Job>, base: Store, c: Cluster) {
    && WorkersOk(names, jobs, c.workers)
    && NamedStore(names, c.store)
    && ErasedOf(c.store.nodes) == ErasedOf(base.nodes) + UnionAll(Parts(c.workers))
    && EdgesMerged(c.store.edges, base.edges, Tables(c.workers))
  }

  // ----- Every step keeps it -------------------------------------------------------------------

  lemma LoadIsWellIndexed(names: Naming, s: Store)
    requires NamedTable(names, s.nodes)
    ensures WellIndexed(names, LoadState(s))
  {
  }

  lemma OneWorkerMoves(ws: seq<Worker>, i: nat, w: Worker)
    requires i < |ws|
    ensures Parts(ws[i := w]) == Parts(ws)[i := Written(w)]
    ensures Tables(ws[i := w]) == Tables(ws)[i := WrittenEdges(w)]
    ensures Written(w) == Written(ws[i]) ==> Parts(ws[i := w]) == Parts(ws)
    ensures WrittenEdges(w) == WrittenEdges(ws[i]) ==> Tables(ws[i := w]) == Tables(ws)
  {
  }

  lemma WorkersStayOk(names: Naming, jobs: seq<Job>, ws: seq<Worker>, i: nat, w: Worker)
    requires WorkersOk(names, jobs, ws) && i < |jobs| && WorkerOk(names, jobs[i], w)
    ensures WorkersOk(names, jobs, ws[i := w])
  {
  }

  lemma UnionGrows(ps: seq<set<Record>>, i: nat, x: Record)
    requires i < |ps|
    ensures UnionAll(ps[i := ps[i] + {x}]) == UnionAll(ps) + {x}
  {
    var ps' := ps[i := ps[i] + {x}];
    forall r | r in UnionAll(ps) + {x} ensures r in UnionAll(ps') {
      if r == x {
        assert r in ps'[i];
      } else {
        var j :| 0 <= j < |ps| && r in ps[j];
        assert r in ps'[j];
      }
    }
    forall r | r in UnionAll(ps') ensures r in UnionAll(ps) + {x} {
      var j :| 0 <= j < |ps'| && r in ps'[j];
      assert r == x || r in ps[j];
    }
  }

  /** One more edge in table `i`, under an id that no other table uses. */
  lemma MergeGrows(edges: map<EdgeId, FactEdge>, base: map<EdgeId, FactEdge>, ts: seq<map<EdgeId, FactEdge>>,
                   i: nat, e: FactEdge)
    requires i < |ts| && EdgesMerged(edges, base, ts)
    requires e.Id() !in base && forall j | 0 <= j < |ts| && j != i :: e.Id() !in ts[j]
    ensures EdgesMerged(edges[e.Id() := e], base, ts[i := ts[i][e.Id() := e]])
  {
    var ts' := ts[i := ts[i][e.Id() := e]];
    forall k | k in edges[e.Id() := e] && k !in base ensures exists j :: 0 <= j < |ts'| && k in ts'[j] {
      if k == e.Id() {
        assert k in ts'[i];
      } else {
        var j :| 0 <= j < |ts| && k in ts[j];
        assert k in ts'[j];
      }
    }
  }

  lemma WrittenIsOfJob(names: Naming, job: Job, w: Worker)
    requires WorkerOk(names, job, w)
    ensures Written(w) <= JobRecords(job)
  {
  }

  lemma NotInBase(names: Naming, jobs: seq<Job>, base: Store, i: nat, x: Record)
    requires FreshJobs(names, base, jobs) && i < |jobs| && x.EventRecord? && x.uuid in EventsOf(jobs[i])
    ensures x !in ErasedOf(base.nodes)
  {
    forall id | id in base.nodes ensures Erase(base.nodes[id]) != x {
      assert base.nodes[id].Id() == id && id != EventUuid(x.uuid);
    }
  }

  lemma EventHasItem(job: Job, x: Record) returns (a: nat)
    requires x.EventRecord? && x in JobRecords(job)
    ensures a < |job.items| && x == EventRecordOf(job.tool, job.items[a]) && x.uuid == job.items[a].event
    ensures x.uuid in EventsOf(job)
  {
    a :| 0 <= a < |job.items| && x == EventRecordOf(job.tool, job.items[a]);
  }

  /** An event record on record anywhere under an event id of job `i` is that job's own. */
  lemma OwnEvent(names: Naming, jobs: seq<Job>, base: Store, c: Cluster, i: nat, x: Record, a: nat)
    requires FreshJobs(names, base, jobs) && Inv(names, jobs, base, c) && i < |jobs| && a < |jobs[i].items|
    requires x.EventRecord? && x in ErasedOf(c.store.nodes) && x.uuid == jobs[i].items[a].event
    ensures x == EventRecordOf(jobs[i].tool, jobs[i].items[a])
  {
    hide NamedStore, EdgesMerged, Written, EventRecordOf, JobRecords, ErasedOf;
    assert x.uuid in EventsOf(jobs[i]);
    NotInBase(names, jobs, base, i, x);
    var j :| 0 <= j < |c.workers| && x in Parts(c.workers)[j];
    WrittenIsOfJob(names, jobs[j], c.workers[j]);
    var b := EventHasItem(jobs[j], x);
    assert j == i;
    assert jobs[i].items[a].event == jobs[i].items[b].event;
  }

  /** Two records under one id, one of them stored and one of this worker's delta, agree. */
  lemma NoClash(names: Naming, jobs: seq<Job>, base: Store, c: Cluster, i: nat, r: Record)
    requires FreshJobs(names, base, jobs) && Inv(names, jobs, base, c) && i < |jobs|
    requires NamedRecord(names, r) && Erase(r) in JobRecords(jobs[i]) && r.Id() in c.store.nodes
    ensures Erase(c.store.nodes[r.Id()]) == Erase(r)
  {
    var x := c.store.nodes[r.Id()];
    assert x.Id() == r.Id() && NamedRecord(names, x);
    if r.FactRecord? {
    } else {
      var a :| 0 <= a < |jobs[i].items| && r == EventRecordOf(jobs[i].tool, jobs[i].items[a]);
      assert Erase(x) in ErasedOf(c.store.nodes);
      OwnEvent(names, jobs, base, c, i, x, a);
    }
  }

  lemma NodePutKeepsStore(s: Store, r: Record)
    requires StoreInv(s) && HonestRecord(r)
    ensures StoreInv(s.(nodes := s.nodes[r.Id() := r]))
  {
  }

  lemma NodePutKeepsNames(names: Naming, nodes: map<NodeId, Record>, r: Record)
    requires NamedTable(names, nodes) && NamedRecord(names, r)
    ensures NamedTable(names, nodes[r.Id() := r])
  {
  }

  lemma WrittenGrows(w: Worker)
    requires w.WritingNodes? && w.done < |w.nodes|
    ensures Written(WritingNodes(w.nodes, w.edges, w.created, w.done + 1)) == Written(w) + {Erase(w.nodes[w.done])}
  {
  }

  /** The record the worker writes next. */
  lemma NextRecord(names: Naming, jobs: seq<Job>, base: Store, c: Cluster, i: nat, r: Record)
    requires FreshJobs(names, base, jobs) && Inv(names, jobs, base, c) && i < |jobs|
    requires c.workers[i].WritingNodes? && c.workers[i].done < |c.workers[i].nodes|
    requires r == c.workers[i].nodes[c.workers[i].done]
    ensures NamedRecord(names, r) && ErasedOf(c.store.nodes[r.Id() := r]) == ErasedOf(c.store.nodes) + {Erase(r)}
  {
    assert WorkerOk(names, jobs[i], c.workers[i]);
    assert Erase(r) in Erased(c.workers[i].nodes);
    if r.Id() in c.store.nodes {
      NoClash(names, jobs, base, c, i, r);
    }
    ErasedGrows(c.store.nodes, r);
  }

  /** Inv with one worker moved on and one record put. */
  lemma InvAfterRecord(names: Naming, jobs: seq<Job>, base: Store, c: Cluster, i: nat, w: Worker, r: Record)
    requires Inv(names, jobs, base, c) && i < |jobs| && WorkerOk(names, jobs[i], w) && NamedRecord(names, r)
    requires Written(w) == Written(c.workers[i]) + {Erase(r)} && WrittenEdges(w) == WrittenEdges(c.workers[i])
    requires ErasedOf(c.store.nodes[r.Id() := r]) == ErasedOf(c.store.nodes) + {Erase(r)}
    ensures Inv(names, jobs, base, Cluster(c.store.(nodes := c.store.nodes[r.Id() := r]), c.workers[i := w]))
  {
    hide ErasedOf, Written, WrittenEdges, EdgesMerged, UnionAll, WorkerOk;
    NodePutKeepsStore(c.store, r);
    NodePutKeepsNames(names, c.store.nodes, r);
    hide StoreInv, NamedTable;
    OneWorkerMoves(c.workers, i, w);
    UnionGrows(Parts(c.workers), i, Erase(r));
    WorkersStayOk(names, jobs, c.workers, i, w);
  }

  lemma PutNodeKeepsInv(names: Naming, jobs: seq<Job>, base: Store, c: Cluster, i: nat)
    requires FreshJobs(names, base, jobs) && Inv(names, jobs, base, c) && i < |jobs|
    requires c.workers[i].WritingNodes? && c.workers[i].done < |c.workers[i].nodes|
    ensures Inv(names, jobs, base, Do(jobs, c, Put(i)))
  {
    hide NamedStore, FreshJobs, EdgesMerged, UnionAll, JobRecords;
    var w := c.workers[i];
    var r, w' := w.nodes[w.done], WritingNodes(w.nodes, w.edges, w.created, w.done + 1);
    NextRecord(names, jobs, base, c, i, r);
    WrittenGrows(w);
    assert WorkerOk(names, jobs[i], w) && WorkerOk(names, jobs[i], w');
    InvAfterRecord(names, jobs, base, c, i, w', r);
    assert Do(jobs, c, Put(i)) == Cluster(c.store.(nodes := c.store.nodes[r.Id() := r]), c.workers[i := w']);
  }

  lemma ErasedGrows(nodes: map<NodeId, Record>, r: Record)
    requires r.Id() in nodes ==> Erase(nodes[r.Id()]) == Erase(r)
    ensures ErasedOf(nodes[r.Id() := r]) == ErasedOf(nodes) + {Erase(r)}
  {
    var more := nodes[r.Id() := r];
    forall x | x in ErasedOf(nodes) + {Erase(r)} ensures x in ErasedOf(more) {
      if x == Erase(r) {
        assert r.Id() in more;
      } else {
        var id :| id in nodes && Erase(nodes[id]) == x;
        assert id in more && more[id] == nodes[id];
      }
    }
  }

  lemma {:induction false} JobEdgeEnds(items: seq<Item>, e: FactEdge)
    requires e in JobEdges(items)
    ensures HasEvent(items, EventUuid(e.event)) && IsIdOf(JobKeys(items), e.target)
  {
    assert HasTarget(JobEdges(items), e.target);
    TargetsAreKeys(items, e.target);
    var init, it := items[..|items| - 1], items[|items| - 1];
    if e in JobEdges(init) {
      JobEdgeEnds(init, e);
      var i :| 0 <= i < |init| && EventUuid(e.event) == EventUuid(init[i].event);
      assert items[i] == init[i];
    } else {
      assert items[|items| - 1] == it;
    }
  }

  /** A record of the delta that is on record as written is stored. */
  lemma WrittenIsStored(names: Naming, jobs: seq<Job>, base: Store, c: Cluster, i: nat, x: Record)
    requires Inv(names, jobs, base, c) && i < |jobs| && x in Written(c.workers[i])
    ensures x.Id() in c.store.nodes && Erase(c.store.nodes[x.Id()]) == x
  {
    assert x in Parts(c.workers)[i];
    assert x in UnionAll(Parts(c.workers));
    assert x in ErasedOf(c.store.nodes);
    var id :| id in c.store.nodes && Erase(c.store.nodes[id]) == x;
    assert id == x.Id();
  }

  lemma EdgePutKeepsStore(s: Store, e: FactEdge)
    requires StoreInv(s) && EventUuid(e.event) in s.nodes && e.target.FactDigest? && e.target in s.nodes
    ensures StoreInv(s.(edges := s.edges[e.Id() := e]))
  {
  }

  /** The edge the worker writes next. */
  lemma NextEdge(names: Naming, jobs: seq<Job>, base: Store, c: Cluster, i: nat, e: FactEdge)
    requires FreshJobs(names, base, jobs) && Inv(names, jobs, base, c) && i < |jobs|
    requires c.workers[i].WritingEdges? && c.workers[i].done < |c.workers[i].edges|
    requires e == c.workers[i].edges[c.workers[i].done]
    ensures EventUuid(e.event) in c.store.nodes && e.target.FactDigest? && e.target in c.store.nodes
    ensures e.Id() !in base.edges
    ensures forall j | 0 <= j < |jobs| && j != i :: e.Id() !in WrittenEdges(c.workers[j])
  {
    assert WorkerOk(names, jobs[i], c.workers[i]);
    JobEdgeEnds(jobs[i].items, e);
    EndsAreStored(names, jobs, base, c, i, e);
    OwnEdge(names, jobs, base, c, i, e);
  }

  lemma TableGrows(w: Worker)
    requires w.WritingEdges? && w.done < |w.edges|
    ensures WrittenEdges(WritingEdges(w.nodes, w.edges, w.created, w.done + 1)) ==
            WrittenEdges(w)[w.edges[w.done].Id() := w.edges[w.done]]
  {
    assert w.edges[..w.done + 1][..w.done] == w.edges[..w.done];
  }

  lemma PutEdgeKeepsInv(names: Naming, jobs: seq<Job>, base: Store, c: Cluster, i: nat)
    requires FreshJobs(names, base, jobs) && Inv(names, jobs, base, c) && i < |jobs|
    requires c.workers[i].WritingEdges? && c.workers[i].done < |c.workers[i].edges|
    ensures Inv(names, jobs, base, Do(jobs, c, Put(i)))
  {
    hide Honest, Integral, WellKeyed, NamedTable, FreshJobs, EdgesMerged, UnionAll, WrittenEdges;
    var w := c.workers[i];
    var e, w' := w.edges[w.done], WritingEdges(w.nodes, w.edges, w.created, w.done + 1);
    NextEdge(names, jobs, base, c, i, e);
    EdgePutKeepsStore(c.store, e);
    TableGrows(w);
    OneWorkerMoves(c.workers, i, w');
    MergeGrows(c.store.edges, base.edges, Tables(c.workers), i, e);
    assert WorkerOk(names, jobs[i], w) && WorkerOk(names, jobs[i], w');
    WorkersStayOk(names, jobs, c.workers, i, w');
    assert Do(jobs, c, Put(i)) == Cluster(c.store.(edges := c.store.edges[e.Id() := e]), c.workers[i := w']);
  }

  lemma EndsAreStored(names: Naming, jobs: seq<Job>, base: Store, c: Cluster, i: nat, e: FactEdge)
    requires Inv(names, jobs, base, c) && i < |jobs| && c.workers[i].WritingEdges?
    requires HasEvent(jobs[i].items, EventUuid(e.event)) && IsIdOf(JobKeys(jobs[i].items), e.target)
    ensures EventUuid(e.event) in c.store.nodes && e.target.FactDigest? && e.target in c.store.nodes
  {
    var a :| 0 <= a < |jobs[i].items| && EventUuid(e.event) == EventUuid(jobs[i].items[a].event);
    WrittenIsStored(names, jobs, base, c, i, EventRecordOf(jobs[i].tool, jobs[i].items[a]));
    var k :| k in JobKeys(jobs[i].items) && FactNodeId(k) == e.target;
    WrittenIsStored(names, jobs, base, c, i, FactOf(k));
  }

  /** No one else writes an edge of this worker's events. */
  lemma OwnEdge(names: Naming, jobs: seq<Job>, base: Store, c: Cluster, i: nat, e: FactEdge)
    requires FreshJobs(names, base, jobs) && Inv(names, jobs, base, c) && i < |jobs|
    requires HasEvent(jobs[i].items, EventUuid(e.event))
    ensures e.Id() !in base.edges
    ensures forall j | 0 <= j < |jobs| && j != i :: e.Id() !in WrittenEdges(c.workers[j])
  {
    assert e.event in EventsOf(jobs[i]);
    forall j | 0 <= j < |jobs| && j != i ensures e.Id() !in WrittenEdges(c.workers[j]) {
      var w := c.workers[j];
      if w.WritingEdges? {
        TableKeys(w.edges[..w.done], e.Id());
        forall x | x in w.edges[..w.done] ensures x.event in EventsOf(jobs[j]) {
          JobEdgeEnds(jobs[j].items, x);
        }
      }
    }
  }

  lemma {:induction false} TableKeys(es: seq<FactEdge>, k: EdgeId)
    ensures k in PutEdges(map[], es) <==> exists x :: x in es && x.Id() == k
  {
    if es != [] {
      var init, last := es[..|es| - 1], es[|es| - 1];
      assert es == init + [last];
      TableKeys(init, k);
      assert last in es;
    }
  }

  /** A step that writes nothing leaves a worker in order. */
  lemma QuietStep(names: Naming, job: Job, store: Store, w: Worker, s: Step)
    requires JobOk(names, job) && NamedTable(names, store.nodes) && WorkerOk(names, job, w)
    requires !(s.Put? && w.WritingNodes? && w.done < |w.nodes|) && !(s.Put? && w.WritingEdges? && w.done < |w.edges|)
    ensures var (store', w') := Move(job, store, w, s);
            store' == store && WorkerOk(names, job, w') && Written(w') == Written(w) &&
                WrittenEdges(w') == WrittenEdges(w)
  {
    var w' := Move(job, store, w, s).1;
    if s.ReadEdges? && w.Reading? {
      var loaded := Store(w.seen, Restrict(store.edges, s.keepEdges));
      LoadIsWellIndexed(names, loaded);
      DeltaIndependence(names, LoadState(loaded), job);
      assert w'.WritingNodes? ==> w'.nodes[..0] == [];
    }
    if s.Put? && w.WritingNodes? {
      assert w.nodes[..w.done] == w.nodes;
      assert w.edges[..0] == [];
    }
  }

  lemma StepKeepsInv(names: Naming, jobs: seq<Job>, base: Store, c: Cluster, s: Step)
    requires FreshJobs(names, base, jobs) && Inv(names, jobs, base, c)
    ensures Inv(names, jobs, base, Do(jobs, c, s))
  {
    if s.i < |jobs| {
      var w, c' := c.workers[s.i], Do(jobs, c, s);
      if s.Put? && w.WritingNodes? && w.done < |w.nodes| {
        PutNodeKeepsInv(names, jobs, base, c, s.i);
      } else if s.Put? && w.WritingEdges? && w.done < |w.edges| {
        PutEdgeKeepsInv(names, jobs, base, c, s.i);
      } else {
        QuietStep(names, jobs[s.i], c.store, w, s);
        OneWorkerMoves(c.workers, s.i, c'.workers[s.i]);
        WorkersStayOk(names, jobs, c.workers, s.i, c'.workers[s.i]);
      }
    }
  }

  /** The invariant holds after every sequence of steps. */
  lemma {:induction false} AlwaysInv(names: Naming, jobs: seq<Job>, base: Store, steps: seq<Step>)
    requires FreshJobs(names, base, jobs)
    ensures Inv(names, jobs, base, After(jobs, base, steps))
  {
    if steps == [] {
      var c := After(jobs, base, steps);
      assert forall i | 0 <= i < |c.workers| :: Parts(c.workers)[i] == {} && Tables(c.workers)[i] == map[];
      assert UnionAll(Parts(c.workers)) == {};
    } else {
      AlwaysInv(names, jobs, base, steps[..|steps| - 1]);
      StepKeepsInv(names, jobs, base, After(jobs, base, steps[..|steps| - 1]), steps[|steps| - 1]);
    }
  }
}
