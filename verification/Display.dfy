/** The text shown for a fact: the one thing about it that depends on who saw it first. */
module Display {
  import opened Core
  import opened GraphModel
  import opened Scans
  import opened Extraction
  import opened Provenance
  import opened Snapshot
  import opened Ingest
  import opened Stores
  import opened Deltas
  import opened Protocol
  import opened Serial
  import opened Confluence
  import opened Incremental
  import opened Conservation

  // ----- One ingest after another: the first text stays ------------------------------------------

  /** The sightings of all items, in order. */
  function JobSightings(items: seq<Item>): seq<Sighting> {
    if items == [] then [] else JobSightings(items[..|items| - 1]) + Sightings(items[|items| - 1])
  }

  /** The text of the first sighting of `k`, if there is one. */
  function FirstText(ss: seq<Sighting>, k: Key): Option<string> {
    if ss == [] then None
    else
      var before := FirstText(ss[..|ss| - 1], k);
      if before.Some? then before else if ss[|ss| - 1].key == k then Some(ss[|ss| - 1].value) else None
  }

  lemma {:induction false} FirstTextConcat(x: seq<Sighting>, y: seq<Sighting>, k: Key)
    ensures FirstText(x + y, k) == if FirstText(x, k).Some? then FirstText(x, k) else FirstText(y, k)
  {
    if y == [] {
      assert x + y == x;
    } else {
      assert (x + y)[..|x + y| - 1] == x + y[..|y| - 1];
      FirstTextConcat(x, y[..|y| - 1], k);
    }
  }

  lemma {:induction false} FirstTextIff(ss: seq<Sighting>, k: Key)
    ensures FirstText(ss, k).Some? <==> k in KeysSeen(ss)
  {
    if ss != [] {
      var init, s := ss[..|ss| - 1], ss[|ss| - 1];
      assert ss == init + [s];
      FirstTextIff(init, k);
      KeysSeenGrow(init, s);
    }
  }

  /** The records show the first texts among `ss`. */
  ghost predicate ShowFirst(rs: seq<Record>, ss: seq<Sighting>) {
    forall r | r in rs :: r.FactRecord? && FirstText(ss, KeyOf(r)) == Some(r.value)
  }

  lemma {:induction false} ExtractionShowsFirst(names: Naming, g: GraphState, ss: seq<Sighting>, st: Stamp)
    requires WellIndexed(names, g) && SightingsNamed(names, ss)
    ensures ShowFirst(EmitAll(Acc(g, [], [], {}, []), ss, st).created, ss)
  {
    hide KeysSeen, WellIndexed, RecordKeys, DistinctIds, FactsOnly, EdgesFor, Upsert, AddEdge;
    if ss != [] {
      var init, s := ss[..|ss| - 1], ss[|ss| - 1];
      var a := EmitAll(Acc(g, [], [], {}, []), init, st);
      assert ss == init + [s];
      ExtractionShowsFirst(names, g, init, st);
      ExtractionDelta(names, g, init, st);
      FirstTextIff(init, s.key);
      assert s.key in KeysSeen(init) ==> s.key in a.g.byKey.Keys;
      forall k ensures FirstText(init, k).Some? ==> FirstText(ss, k) == FirstText(init, k) {
      }
    }
  }

  lemma ItemShowsFirst(names: Naming, g: GraphState, b: Built, tool: string, done: seq<Item>, it: Item)
    requires BuiltSoFar(names, g, b, tool, done) && ScanModel(it.model).error.None?
    requires SightingsNamed(names, Sightings(it))
    requires ShowFirst(b.created, JobSightings(done))
    requires forall k :: k in JobKeys(done) <==> FirstText(JobSightings(done), k).Some?
    ensures ShowFirst(BuildItem(b, tool, it).created, JobSightings(done + [it]))
    ensures forall k :: k in JobKeys(done + [it]) <==> FirstText(JobSightings(done + [it]), k).Some?
  {
    var g1, ss := AddEvent(b.g, it.event, EventOf(tool, it)), Sightings(it);
    AddEventKeepsIndex(names, b.g, it.event, EventOf(tool, it));
    ExtractionShowsFirst(names, g1, ss, ItemStamp(tool, it));
    ExtractionDelta(names, g1, ss, ItemStamp(tool, it));
    var a := ItemAcc(b.g, tool, it);
    assert (done + [it])[..|done|] == done;
    hide WellIndexed, EmitAll, DistinctIds, FactsOnly, JobEdges, EventRecords;
    forall k ensures k in JobKeys(done + [it]) <==> FirstText(JobSightings(done + [it]), k).Some? {
      FirstTextConcat(JobSightings(done), ss, k);
      FirstTextIff(ss, k);
    }
    forall r | r in b.created + a.created
      ensures r.FactRecord? && FirstText(JobSightings(done + [it]), KeyOf(r)) == Some(r.value)
    {
      FirstTextConcat(JobSightings(done), ss, KeyOf(r));
      assert r in a.created ==> KeyOf(r) in RecordKeys(a.created);
    }
  }

  lemma {:induction false} RestShowsFirst(names: Naming, g: GraphState, b: Built, tool: string, done: seq<Item>,
      rest: seq<Item>)
    requires BuiltSoFar(names, g, b, tool, done) && JobNamed(names, rest) && DistinctEvents(done + rest)
    requires JobError(rest).None?
    requires ShowFirst(b.created, JobSightings(done))
    requires forall k :: k in JobKeys(done) <==> FirstText(JobSightings(done), k).Some?
    ensures ShowFirst(BuildFrom(b, tool, rest).created, JobSightings(done + rest))
    decreases rest
  {
    hide BuiltSoFar, ShowFirst, BuildItem, JobSightings, FirstText, JobKeys;
    if rest == [] {
      assert done + rest == done;
    } else {
      var it := rest[0];
      assert SightingsNamed(names, Sightings(it));
      assert done + rest == done + [it] + rest[1..];
      assert forall i | 0 <= i <= |done| :: (done + [it])[i] == (done + rest)[i];
      assert forall i | 0 <= i < |rest[1..]| :: rest[1..][i] == rest[i + 1];
      SoFarIsFine(names, g, b, tool, done);
      OneItem(names, g, b, tool, done, it);
      ItemShowsFirst(names, g, b, tool, done, it);
      RestShowsFirst(names, g, BuildItem(b, tool, it), tool, done + [it], rest[1..]);
    }
  }

  lemma JobShowsFirst(names: Naming, g: GraphState, job: Job)
    requires WellIndexed(names, g) && JobOk(names, job) && JobError(job.items).None?
    ensures ShowFirst(Build(g, job).created, JobSightings(job.items))
  {
    assert [] + job.items == job.items;
    StartShowsFirst(names, g, job.tool);
    hide BuiltSoFar, ShowFirst, BuildFrom, JobSightings, FirstText, JobKeys, WellIndexed;
    RestShowsFirst(names, g, Start(g), job.tool, [], job.items);
  }

  lemma StartShowsFirst(names: Naming, g: GraphState, tool: string)
    requires WellIndexed(names, g)
    ensures BuiltSoFar(names, g, Start(g), tool, []) && ShowFirst([], JobSightings([]))
    ensures forall k :: k in JobKeys([]) <==> FirstText(JobSightings([]), k).Some?
  {
  }

  /** A fact new to the store shows the text of the job's first sighting of it. */
  lemma NewFactsShowFirst(names: Naming, s: Store, job: Job, k: Key)
    requires NamedStore(names, s) && JobOk(names, job) && FreshFor(s, job) && JobError(job.items).None?
    requires k in JobKeys(job.items) && k !in Keys(s.nodes)
    ensures var t, id := Ingested(s, job), FactNodeId(k);
            && id in t.nodes && t.nodes[id].FactRecord? && KeyOf(t.nodes[id]) == k
            && FirstText(JobSightings(job.items), k) == Some(t.nodes[id].value)
  {
    hide Build, Ingested, FreshFor, BuildFrom, JobSightings, FirstText;
    var g := LoadState(s);
    LoadIsWellIndexed(names, s);
    JobShowsFirst(names, g, job);
    CreatedStand(names, g, s, job);
    assert g.byKey.Keys == Keys(s.nodes);
    assert k in RecordKeys(Build(g, job).created);
    var r :| r in Build(g, job).created && r.FactRecord? && KeyOf(r) == k;
    assert NamedRecord(names, r);
  }

  lemma CreatedStand(names: Naming, g: GraphState, s: Store, job: Job)
    requires g == LoadState(s) && NamedStore(names, s) && JobOk(names, job) && FreshFor(s, job)
    requires JobError(job.items).None?
    ensures var b := Build(g, job);
            && FactsOnly(names, b.created) && RecordKeys(b.created) == JobKeys(job.items) - g.byKey.Keys
            && forall r | r in b.created :: r.Id() in Ingested(s, job).nodes && Ingested(s, job).nodes[r.Id()] == r
  {
    LoadIsWellIndexed(names, s);
    WholeJob(names, g, job);
    IngestCoherent(names, s, job);
    var b := BuildFrom(Start(g), job.tool, job.items);
    RefreshAdds(b.nodes, b.created + b.linked);
    DeltaDistinct(names, g, job);
    DeltaIndependence(names, g, job);
    PutNodesStands(s.nodes, Build(g, job).nodes);
  }

  /** The sightings of the jobs that succeed, in the order of the run. */
  function RunSightings(jobs: seq<Job>): seq<Sighting> {
    if jobs == [] then []
    else
      var job := jobs[|jobs| - 1];
      RunSightings(jobs[..|jobs| - 1]) + if JobError(job.items).Some? then [] else JobSightings(job.items)
  }

  /** The text that should be shown for `k`: that of the store the run started from, or else the
      first text sighted. */
  ghost function ExpectedText(base: Store, jobs: seq<Job>, k: Key): Option<string> {
    var id := FactNodeId(k);
    if id in base.nodes && base.nodes[id].FactRecord? then Some(base.nodes[id].value)
    else FirstText(RunSightings(jobs), k)
  }

  lemma {:induction false} JobKeysAreSighted(items: seq<Item>, k: Key)
    ensures k in JobKeys(items) <==> FirstText(JobSightings(items), k).Some?
  {
    if items != [] {
      var n := |items| - 1;
      JobKeysAreSighted(items[..n], k);
      FirstTextConcat(JobSightings(items[..n]), Sightings(items[n]), k);
      FirstTextIff(Sightings(items[n]), k);
    }
  }

  /** In a well-formed table a key is there exactly under its id. */
  lemma KeyStands(names: Naming, nodes: map<NodeId, Record>, k: Key)
    requires NamedTable(names, nodes) && Named(names, k)
    ensures k in Keys(nodes) <==> FactNodeId(k) in nodes && nodes[FactNodeId(k)].FactRecord?
    ensures k in Keys(nodes) ==> KeyOf(nodes[FactNodeId(k)]) == k
  {
    if FactNodeId(k) in nodes {
    }
  }

  lemma StoredKeysNamed(names: Naming, nodes: map<NodeId, Record>, k: Key)
    requires NamedTable(names, nodes) && k in Keys(nodes)
    ensures Named(names, k)
  {
    var id :| id in nodes && nodes[id].FactRecord? && KeyOf(nodes[id]) == k;
  }

  lemma {:induction false} KeysSighted(names: Naming, base: Store, jobs: seq<Job>, k: Key)
    requires FreshJobs(names, base, jobs)
    ensures k in Keys(SerialStore(base, jobs).nodes) <==>
            k in Keys(base.nodes) || FirstText(RunSightings(jobs), k).Some?
  {
    hide Keys, FirstText, JobSightings, JobKeys, Ingested, FreshFor, NamedStore, JobOk;
    if jobs == [] {
      NothingSighted(k);
    } else {
      var init, job := jobs[..|jobs| - 1], jobs[|jobs| - 1];
      SerialReady(names, base, jobs);
      KeysSighted(names, base, init, k);
      KeysAfter(names, SerialStore(base, init), job);
      JobKeysAreSighted(job.items, k);
      FirstTextConcat(RunSightings(init), if JobError(job.items).Some? then [] else JobSightings(job.items), k);
      NothingSighted(k);
    }
  }

  lemma NothingSighted(k: Key)
    ensures FirstText([], k) == None
  {
  }

  /** After any serial run every fact shows the text the run found in the store or, if it found
      none, the text of the first sighting of the run. */
  lemma {:induction false} TextIsFirst(names: Naming, base: Store, jobs: seq<Job>, k: Key)
    requires FreshJobs(names, base, jobs) && k in Keys(SerialStore(base, jobs).nodes)
    ensures var nodes, id := SerialStore(base, jobs).nodes, FactNodeId(k);
            && id in nodes && nodes[id].FactRecord? && KeyOf(nodes[id]) == k
            && ExpectedText(base, jobs, k) == Some(nodes[id].value)
  {
    hide Keys, FirstText, JobSightings, JobKeys, Ingested, FreshFor, NamedStore, JobOk, SerialStore, NamedTable;
    HonestRun(names, base, jobs);
    StoredKeysNamed(names, SerialStore(base, jobs).nodes, k);
    KeyStands(names, SerialStore(base, jobs).nodes, k);
    if jobs == [] {
      SerialNothing(base);
    } else {
      var init, job := jobs[..|jobs| - 1], jobs[|jobs| - 1];
      var s := SerialStore(base, init);
      SerialReady(names, base, jobs);
      assert jobs == init + [job];
      SerialSnoc(base, init, job);
      OneIngestCounts(names, s, job);
      KeysSighted(names, base, init, k);
      HonestRun(names, base, init);
      KeyStands(names, s.nodes, k);
      KeyStands(names, base.nodes, k);
      FirstTextConcat(RunSightings(init), if JobError(job.items).Some? then [] else JobSightings(job.items), k);
      NothingSighted(k);
      if k in Keys(s.nodes) {
        TextIsFirst(names, base, init, k);
      } else {
        KeysAfter(names, s, job);
        NewFactsShowFirst(names, s, job, k);
      }
    }
  }

  lemma SerialNothing(base: Store)
    ensures SerialStore(base, []) == base
  {
  }

  lemma HonestRun(names: Naming, base: Store, jobs: seq<Job>)
    requires FreshJobs(names, base, jobs)
    ensures NamedTable(names, base.nodes) && NamedTable(names, SerialStore(base, jobs).nodes)
  {
    SerialIsMerge(names, base, jobs);
  }

  // ----- Workers side by side: every text was sighted --------------------------------------------

  ghost predicate Told(texts: set<(Key, string)>, r: Record) {
    r.FactRecord? ==> (KeyOf(r), r.value) in texts
  }

  ghost predicate ToldAll(texts: set<(Key, string)>, rs: seq<Record>) {
    forall r | r in rs :: Told(texts, r)
  }

  ghost predicate ToldStore(texts: set<(Key, string)>, nodes: map<NodeId, Record>) {
    forall id | id in nodes :: Told(texts, nodes[id])
  }

  ghost predicate ToldGraph(texts: set<(Key, string)>, g: GraphState) {
    forall id | id in g.nodes && g.nodes[id].Fact? ::
      (Key(g.nodes[id].nodeType, g.nodes[id].canonical), g.nodes[id].value) in texts
  }

  ghost predicate Sighted(texts: set<(Key, string)>, ss: seq<Sighting>) {
    forall s | s in ss :: (s.key, s.value) in texts
  }

  ghost predicate JobSighted(texts: set<(Key, string)>, items: seq<Item>) {
    forall i | 0 <= i < |items| :: Sighted(texts, Sightings(items[i]))
  }

  /** The texts that a store shows and the texts that the jobs sight. */
  ghost function KnownTexts(base: Store, jobs: seq<Job>): set<(Key, string)> {
    (set id | id in base.nodes && base.nodes[id].FactRecord? :: (KeyOf(base.nodes[id]), base.nodes[id].value))
    + set i, a, s | 0 <= i < |jobs| && 0 <= a < |jobs[i].items| && s in Sightings(jobs[i].items[a]) :: (s.key, s.value)
  }

  lemma {:induction false} ExtractionTold(texts: set<(Key, string)>, a: Acc, ss: seq<Sighting>, st: Stamp)
    requires ToldGraph(texts, a.g) && ToldAll(texts, a.created) && ToldAll(texts, a.linked) && Sighted(texts, ss)
    ensures var a' := EmitAll(a, ss, st);
            ToldGraph(texts, a'.g) && ToldAll(texts, a'.created) && ToldAll(texts, a'.linked)
  {
    if ss != [] {
      var init, s := ss[..|ss| - 1], ss[|ss| - 1];
      assert ss == init + [s];
      ExtractionTold(texts, a, init, st);
      EmitTold(texts, EmitAll(a, init, st), s, st);
    }
  }

  lemma EmitTold(texts: set<(Key, string)>, a: Acc, s: Sighting, st: Stamp)
    requires ToldGraph(texts, a.g) && ToldAll(texts, a.created) && ToldAll(texts, a.linked) && (s.key, s.value) in texts
    ensures var a' := Emit(a, s, st); ToldGraph(texts, a'.g) && ToldAll(texts, a'.created) && ToldAll(texts, a'.linked)
  {
    assert Told(texts, RecordFor(a.g, s.key, s.value));
    assert ToldGraph(texts, Upsert(a.g, s.key, s.value, st));
  }

  ghost predicate BuiltTold(texts: set<(Key, string)>, b: Built) {
    ToldGraph(texts, b.g) && ToldAll(texts, b.nodes) && ToldAll(texts, b.created) && ToldAll(texts, b.linked)
  }

  lemma {:induction false} ItemsTold(texts: set<(Key, string)>, b: Built, tool: string, items: seq<Item>)
    requires BuiltTold(texts, b) && JobSighted(texts, items)
    ensures BuiltTold(texts, BuildFrom(b, tool, items))
    decreases items
  {
    if items != [] && b.error.None? {
      var it := items[0];
      assert Sighted(texts, Sightings(it));
      ItemTold(texts, b, tool, it);
      assert forall i | 0 <= i < |items[1..]| :: items[1..][i] == items[i + 1];
      ItemsTold(texts, BuildItem(b, tool, it), tool, items[1..]);
    }
  }

  lemma ItemTold(texts: set<(Key, string)>, b: Built, tool: string, it: Item)
    requires BuiltTold(texts, b) && Sighted(texts, Sightings(it))
    ensures BuiltTold(texts, BuildItem(b, tool, it))
  {
    var g := AddEvent(b.g, it.event, EventOf(tool, it));
    ExtractionTold(texts, Acc(g, [], [], {}, []), Sightings(it), ItemStamp(tool, it));
  }

  lemma {:induction false} RefreshTold(texts: set<(Key, string)>, nodes: seq<Record>, touched: seq<Record>)
    requires ToldAll(texts, nodes) && ToldAll(texts, touched)
    ensures ToldAll(texts, Refresh(nodes, touched))
    decreases touched
  {
    if touched != [] {
      RefreshTold(texts, if Listed(nodes, touched[0].Id()) then nodes else nodes + [touched[0]], touched[1..]);
    }
  }

  /** Whatever part of whatever store a worker loads, its delta shows known texts only. */
  lemma DeltaTold(texts: set<(Key, string)>, s: Store, job: Job)
    requires ToldStore(texts, s.nodes) && JobSighted(texts, job.items)
    ensures ToldAll(texts, Build(LoadState(s), job).nodes)
  {
    LoadTold(texts, s);
    var b := BuildFrom(Start(LoadState(s)), job.tool, job.items);
    hide LoadState, BuildFrom;
    ItemsTold(texts, Start(LoadState(s)), job.tool, job.items);
    RefreshTold(texts, b.nodes, b.created + b.linked);
  }

  lemma LoadTold(texts: set<(Key, string)>, s: Store)
    requires ToldStore(texts, s.nodes)
    ensures ToldGraph(texts, LoadState(s))
  {
    var g := LoadState(s);
    forall id | id in g.nodes && g.nodes[id].Fact?
      ensures (Key(g.nodes[id].nodeType, g.nodes[id].canonical), g.nodes[id].value) in texts
    {
      assert g.nodes[id] == Filled(Frame(s), id);
      assert Told(texts, s.nodes[id]);
    }
  }

  ghost predicate WorkerTold(texts: set<(Key, string)>, w: Worker) {
    match w
    case Reading(seen) => ToldStore(texts, seen)
    case WritingNodes(ns, _, _, _) => ToldAll(texts, ns)
    case _ => true
  }

  ghost predicate ClusterTold(texts: set<(Key, string)>, c: Cluster) {
    ToldStore(texts, c.store.nodes) && forall i | 0 <= i < |c.workers| :: WorkerTold(texts, c.workers[i])
  }

  lemma StepTold(texts: set<(Key, string)>, jobs: seq<Job>, c: Cluster, s: Step)
    requires ClusterTold(texts, c) && forall i | 0 <= i < |jobs| :: JobSighted(texts, jobs[i].items)
    ensures ClusterTold(texts, Do(jobs, c, s))
  {
    if s.i < |jobs| && s.i < |c.workers| {
      var w := c.workers[s.i];
      MoveTold(texts, jobs[s.i], c.store, w, s);
    }
  }

  lemma MoveTold(texts: set<(Key, string)>, job: Job, store: Store, w: Worker, s: Step)
    requires ToldStore(texts, store.nodes) && WorkerTold(texts, w) && JobSighted(texts, job.items)
    ensures var (store', w') := Move(job, store, w, s); ToldStore(texts, store'.nodes) && WorkerTold(texts, w')
  {
    if w.Reading? && s.ReadEdges? {
      DeltaTold(texts, Store(w.seen, Restrict(store.edges, s.keepEdges)), job);
    }
    hide Build, LoadState, Told;
    assert w.WritingNodes? && w.done < |w.nodes| ==> Told(texts, w.nodes[w.done]);
  }

  /** In every reachable state, with nothing assumed of the jobs or of their interleaving, the text
      shown for a stored fact is one that the base store showed for its key or that some job sighted
      under its key. */
  lemma {:induction false} TextsAreSighted(jobs: seq<Job>, base: Store, steps: seq<Step>)
    ensures ClusterTold(KnownTexts(base, jobs), After(jobs, base, steps))
  {
    var texts := KnownTexts(base, jobs);
    if steps == [] {
      assert ToldStore(texts, base.nodes);
    } else {
      var before := After(jobs, base, steps[..|steps| - 1]);
      TextsAreSighted(jobs, base, steps[..|steps| - 1]);
      assert forall i | 0 <= i < |jobs| :: JobSighted(texts, jobs[i].items);
      StepTold(texts, jobs, before, steps[|steps| - 1]);
    }
  }
}
