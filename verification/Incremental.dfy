/** An ingest on a loaded graph: the graph it leaves is the one a reload would rebuild. */
module Incremental {
  import opened Core
  import opened GraphModel
  import opened Scans
  import opened Extraction
  import opened Provenance
  import opened Ingest
  import opened Stores
  import opened Deltas
  import opened Protocol
  import opened Serial
  import opened Coherence

  ghost predicate Present(nodes: map<NodeId, Record>, rs: seq<Record>) {
    forall r | r in rs :: r.Id() in nodes && nodes[r.Id()] == r
  }

  /** Whatever is in `m` is the same in `n`: in particular the text shown for a fact. */
  ghost predicate Keeps(m: map<NodeId, Record>, n: map<NodeId, Record>) {
    forall id | id in m :: id in n && n[id] == m[id]
  }

  ghost predicate SameEventIds(g: GraphState, h: GraphState) {
    forall e :: EventUuid(e) in g.nodes <==> EventUuid(e) in h.nodes
  }

  // ----- One extraction ------------------------------------------------------------------------

  /** The accumulator `a` started from `g`: its delta is what the graph's records gained. */
  ghost predicate AccCoherent(names: Naming, g: GraphState, a: Acc, st: Stamp)
    requires Kinds(g)
  {
    && NamedGraph(names, a.g) && IsEvent(a.g.nodes, st.event) && ToolOf(a.g.nodes, st.event) == st.tool
    && RecordsOf(a.g) == PutNodes(RecordsOf(g), a.created)
    && a.g.edges == PutEdges(g.edges, a.edges)
    && Present(RecordsOf(a.g), a.created) && Present(RecordsOf(a.g), a.linked)
    && SameEventIds(g, a.g) && Keeps(RecordsOf(g), RecordsOf(a.g))
  }

  /** One sighting and its edge, in terms of what the graph records. */
  lemma SightingStep(names: Naming, g: GraphState, s: Sighting, st: Stamp)
    requires NamedGraph(names, g) && Named(names, s.key) && IsEvent(g.nodes, st.event)
    requires ToolOf(g.nodes, st.event) == st.tool
    ensures var g', r := Sighted(g, s, st), RecordFor(g, s.key, s.value);
            && NamedGraph(names, g') && Keeps(RecordsOf(g), RecordsOf(g')) && SameEventIds(g, g')
            && IsEvent(g'.nodes, st.event) && ToolOf(g'.nodes, st.event) == st.tool
            && r.Id() in RecordsOf(g') && RecordsOf(g')[r.Id()] == r
            && RecordsOf(g') == if s.key in g.byKey then RecordsOf(g) else RecordsOf(g)[r.Id() := r]
  {
    hide StoreInv, NamedTable, ProvenanceOk, KeyIndex, TypeIndex;
    SightedInv(names, g, s, st);
    SightedRecords(names, g, s, st);
    SightedNodes(names, g, s, st);
    IndexIsExact(names, g, s.key);
    var g', r := Sighted(g, s, st), RecordFor(g, s.key, s.value);
    assert s.key in g.byKey ==> RecordsOf(g)[r.Id() := r] == RecordsOf(g);
  }

  lemma PresentKept(m: map<NodeId, Record>, n: map<NodeId, Record>, rs: seq<Record>, r: Record)
    requires Keeps(m, n) && Present(m, rs) && r.Id() in n && n[r.Id()] == r
    ensures Present(n, rs) && Present(n, rs + [r])
  {
  }

  lemma EmitCoherent(names: Naming, g: GraphState, a: Acc, s: Sighting, st: Stamp)
    requires Kinds(g) && AccCoherent(names, g, a, st) && Named(names, s.key)
    ensures AccCoherent(names, g, Emit(a, s, st), st)
  {
    hide StoreInv, NamedTable, ProvenanceOk, KeyIndex, TypeIndex, Emit, Sighted, RecordFor, Keeps, SameEventIds,
         Present;
    var a', r := Emit(a, s, st), RecordFor(a.g, s.key, s.value);
    EmitParts(a, s, st);
    SightingStep(names, a.g, s, st);
    StepsAddUp(g, a.g, a'.g);
    PutEdgesSnoc(g.edges, a.edges, FactEdge(st.event, TargetOf(a.g, s.key), s.edgeType, s.description));
    PutNodesSnoc(RecordsOf(g), a.created, r);
    PresentKept(RecordsOf(a.g), RecordsOf(a'.g), a.created, r);
    PresentKept(RecordsOf(a.g), RecordsOf(a'.g), a.linked, r);
  }

  lemma EmitParts(a: Acc, s: Sighting, st: Stamp)
    ensures var a', r := Emit(a, s, st), RecordFor(a.g, s.key, s.value);
            var e := FactEdge(st.event, TargetOf(a.g, s.key), s.edgeType, s.description);
            && a'.g == Sighted(a.g, s, st) && a'.g.edges == a.g.edges[e.Id() := e] && a'.edges == a.edges + [e]
            && a'.created == (if s.key in a.g.byKey then a.created else a.created + [r])
            && (a'.linked == a.linked || a'.linked == a.linked + [r])
  {
  }

  lemma StepsAddUp(g: GraphState, h: GraphState, h': GraphState)
    requires Kinds(g) && Kinds(h) && Kinds(h')
    requires SameEventIds(g, h) && SameEventIds(h, h')
    requires Keeps(RecordsOf(g), RecordsOf(h)) && Keeps(RecordsOf(h), RecordsOf(h'))
    ensures SameEventIds(g, h') && Keeps(RecordsOf(g), RecordsOf(h'))
  {
    hide Kinds;
  }

  lemma PutNodesSnoc(nodes: map<NodeId, Record>, rs: seq<Record>, r: Record)
    ensures PutNodes(nodes, rs + [r]) == PutNodes(nodes, rs)[r.Id() := r]
  {
    assert (rs + [r])[..|rs|] == rs;
  }

  lemma PutEdgesSnoc(edges: map<EdgeId, FactEdge>, es: seq<FactEdge>, e: FactEdge)
    ensures PutEdges(edges, es + [e]) == PutEdges(edges, es)[e.Id() := e]
  {
    assert (es + [e])[..|es|] == es;
  }

  lemma {:induction false} ExtractionCoherent(names: Naming, g: GraphState, ss: seq<Sighting>, st: Stamp)
    requires NamedGraph(names, g) && SightingsNamed(names, ss) && IsEvent(g.nodes, st.event)
    requires ToolOf(g.nodes, st.event) == st.tool
    ensures AccCoherent(names, g, EmitAll(Acc(g, [], [], {}, []), ss, st), st)
  {
    if ss != [] {
      var init, s := ss[..|ss| - 1], ss[|ss| - 1];
      assert ss == init + [s];
      ExtractionCoherent(names, g, init, st);
      EmitCoherent(names, g, EmitAll(Acc(g, [], [], {}, []), init, st), s, st);
    }
  }

  // ----- All items -----------------------------------------------------------------------------

  /** The state `b` of an ingest on `g`: persisting its delta so far gives the graph so far. */
  ghost predicate BuiltCoherent(names: Naming, g: GraphState, b: Built)
    requires Kinds(g)
  {
    && b.error.None? && NamedGraph(names, b.g) && StoreOf(b.g) == Persist(StoreOf(g), b.nodes, b.edges)
    && Present(RecordsOf(b.g), b.created) && Present(RecordsOf(b.g), b.linked)
    && Keeps(RecordsOf(g), RecordsOf(b.g))
  }

  ghost predicate Unseen(g: GraphState, items: seq<Item>) {
    forall i | 0 <= i < |items| :: EventUuid(items[i].event) !in g.nodes
  }

  /** The records of one more item, put one after another. */
  lemma ItemWrites(base: map<NodeId, Record>, before: seq<Record>, r: Record, created: seq<Record>)
    ensures PutNodes(base, before + [r] + created) == PutNodes(PutNodes(base, before)[r.Id() := r], created)
  {
    assert (before + [r])[..|before|] == before;
    PutNodesConcat(base, before + [r], created);
  }

  /** What adding an event and extracting its item leaves, from a coherent graph. */
  lemma ItemGraph(names: Naming, g: GraphState, tool: string, it: Item)
    requires NamedGraph(names, g) && SightingsNamed(names, Sightings(it)) && EventUuid(it.event) !in g.nodes
    ensures var a, r := ItemAcc(g, tool, it), EventRecordOf(tool, it);
            && NamedGraph(names, a.g) && Keeps(RecordsOf(g), RecordsOf(a.g))
            && RecordsOf(a.g) == PutNodes(RecordsOf(g)[r.Id() := r], a.created)
            && a.g.edges == PutEdges(g.edges, a.edges)
            && Present(RecordsOf(a.g), a.created) && Present(RecordsOf(a.g), a.linked)
            && forall e :: EventUuid(e) in a.g.nodes <==> EventUuid(e) in g.nodes || e == it.event
  {
    var e := EventOf(tool, it);
    AddEventInv(g, it.event, e);
    ExtractionCoherent(names, AddEvent(g, it.event, e), Sightings(it), ItemStamp(tool, it));
    hide StoreInv, NamedTable, ProvenanceOk, KeyIndex, TypeIndex, EmitAll, PutNodes, PutEdges;
    assert Keeps(RecordsOf(g), RecordsOf(AddEvent(g, it.event, e)));
  }

  lemma PresentStays(m: map<NodeId, Record>, n: map<NodeId, Record>, xs: seq<Record>, ys: seq<Record>)
    requires Keeps(m, n) && Present(m, xs) && Present(n, ys)
    ensures Present(n, xs + ys)
  {
  }

  lemma ItemCoherent(names: Naming, g: GraphState, b: Built, tool: string, it: Item)
    requires Kinds(g) && BuiltCoherent(names, g, b) && ScanModel(it.model).error.None?
    requires SightingsNamed(names, Sightings(it)) && EventUuid(it.event) !in b.g.nodes
    ensures BuiltCoherent(names, g, BuildItem(b, tool, it))
    ensures forall e :: EventUuid(e) in BuildItem(b, tool, it).g.nodes <==> EventUuid(e) in b.g.nodes || e == it.event
  {
    hide StoreInv, NamedTable, ProvenanceOk, KeyIndex, TypeIndex, ItemAcc, PutNodes, PutEdges,
         EventRecordOf, Present, Sightings;
    var a, r := ItemAcc(b.g, tool, it), EventRecordOf(tool, it);
    ItemGraph(names, b.g, tool, it);
    ItemWrites(RecordsOf(g), b.nodes, r, a.created);
    PutEdgesConcat(g.edges, b.edges, a.edges);
    PresentStays(RecordsOf(b.g), RecordsOf(a.g), b.created, a.created);
    PresentStays(RecordsOf(b.g), RecordsOf(a.g), b.linked, a.linked);
  }

  lemma {:induction false} ItemsCoherent(names: Naming, g: GraphState, b: Built, tool: string, items: seq<Item>)
    requires Kinds(g) && BuiltCoherent(names, g, b) && JobNamed(names, items) && DistinctEvents(items)
    requires Unseen(b.g, items)
    requires JobError(items).None?
    ensures BuiltCoherent(names, g, BuildFrom(b, tool, items))
    decreases items
  {
    if items != [] {
      var it, rest := items[0], items[1..];
      assert SightingsNamed(names, Sightings(it));
      ItemCoherent(names, g, b, tool, it);
      forall i | 0 <= i < |rest|
        ensures SightingsNamed(names, Sightings(rest[i])) && EventUuid(rest[i].event) !in BuildItem(b, tool, it).g.nodes
      {
        assert rest[i] == items[i + 1];
      }
      ItemsCoherent(names, g, BuildItem(b, tool, it), tool, rest);
    }
  }

  /** Refreshing the touched facts writes nothing that is not already to be written. */
  lemma {:induction false} RefreshWritesNothing(base: map<NodeId, Record>, nodes: seq<Record>, touched: seq<Record>)
    requires forall r | r in touched :: r.Id() in PutNodes(base, nodes) && PutNodes(base, nodes)[r.Id()] == r
    ensures PutNodes(base, Refresh(nodes, touched)) == PutNodes(base, nodes)
    decreases touched
  {
    if touched != [] {
      var t := touched[0];
      var next := if Listed(nodes, t.Id()) then nodes else nodes + [t];
      assert PutNodes(base, next) == PutNodes(base, nodes) by {
        assert (nodes + [t])[..|nodes|] == nodes;
        assert t in touched;
      }
      forall r | r in touched[1..] ensures r.Id() in PutNodes(base, next) && PutNodes(base, next)[r.Id()] == r {
        assert r in touched;
      }
      RefreshWritesNothing(base, next, touched[1..]);
    }
  }

  // ----- The theorems --------------------------------------------------------------------------

  /** An ingest on the graph loaded from a well-formed store leaves a coherent graph, and what it
      persists is exactly what that graph holds. */
  lemma IngestCoherent(names: Naming, s: Store, job: Job)
    requires NamedStore(names, s) && JobOk(names, job) && FreshFor(s, job) && JobError(job.items).None?
    ensures var b := Build(LoadState(s), job);
            && b.error.None? && NamedGraph(names, b.g) && StoreOf(b.g) == Ingested(s, job)
            && Keeps(s.nodes, Ingested(s, job).nodes)
  {
    var g := LoadState(s);
    LoadInv(s);
    LoadIsWellIndexed(names, s);
    DeltaIndependence(names, g, job);
    assert PutNodes(RecordsOf(g), []) == RecordsOf(g) && PutEdges(g.edges, []) == g.edges;
    assert Unseen(g, job.items) by {
      forall i | 0 <= i < |job.items| ensures EventUuid(job.items[i].event) !in g.nodes {
        assert job.items[i].event in EventsOf(job);
        assert RecordsOf(g).Keys == s.nodes.Keys;
      }
    }
    ItemsCoherent(names, g, Start(g), job.tool, job.items);
    var b := BuildFrom(Start(g), job.tool, job.items);
    assert RecordsOf(b.g) == PutNodes(RecordsOf(g), b.nodes);
    forall r | r in b.created + b.linked
      ensures r.Id() in PutNodes(s.nodes, b.nodes) && PutNodes(s.nodes, b.nodes)[r.Id()] == r
    {
      assert r in b.created || r in b.linked;
    }
    RefreshWritesNothing(s.nodes, b.nodes, b.created + b.linked);
  }

  /** Equal graphs but for the times, and for the order and repetition of source events. */
  ghost predicate SameNode(m: Node, n: Node) {
    if m.Fact? && n.Fact? then
      && m.nodeType == n.nodeType && m.value == n.value && m.canonical == n.canonical
      && (forall e :: e in m.sourceEvents <==> e in n.sourceEvents) && m.sourceTools == n.sourceTools
    else m == n
  }

  ghost predicate SameButTimes(g: GraphState, h: GraphState) {
    && g.edges == h.edges && g.byKey == h.byKey && g.byType == h.byType
    && g.nodes.Keys == h.nodes.Keys && forall id | id in g.nodes :: SameNode(g.nodes[id], h.nodes[id])
  }

  lemma CoherentGraphsAgree(g: GraphState, h: GraphState)
    requires GraphInv(g) && GraphInv(h) && StoreOf(g) == StoreOf(h)
    ensures SameButTimes(g, h)
  {
    assert RecordsOf(g).Keys == g.nodes.Keys && RecordsOf(h).Keys == h.nodes.Keys;
    forall id | id in g.nodes
      ensures id in h.nodes && SameNode(g.nodes[id], h.nodes[id])
    {
      assert RecordsOf(g)[id] == RecordsOf(h)[id];
      if g.nodes[id].Fact? {
        assert ProvenanceOk(g, id) && ProvenanceOk(h, id);
        forall e | e in Mentioning(g.edges, id) ensures ToolOf(g.nodes, e) == ToolOf(h.nodes, e) {
          assert RecordsOf(g)[EventUuid(e)] == RecordsOf(h)[EventUuid(e)];
        }
      }
    }
  }

  /** A coherent graph survives being persisted and loaded. */
  lemma PersistAndLoad(g: GraphState)
    requires GraphInv(g)
    ensures SameButTimes(LoadState(StoreOf(g)), g) && StoreOf(LoadState(StoreOf(g))) == StoreOf(g)
  {
    LoadInv(StoreOf(g));
    CoherentGraphsAgree(LoadState(StoreOf(g)), g);
  }

  /** The graph mutated in memory by an ingest is the graph a reload of the persisted store
      rebuilds: the same nodes, edges and indices, and for every fact the same set of source events
      and the same source tools. */
  lemma IncrementalEqualsRecomputed(names: Naming, s: Store, job: Job)
    requires NamedStore(names, s) && JobOk(names, job) && FreshFor(s, job) && JobError(job.items).None?
    ensures SameButTimes(LoadState(Ingested(s, job)), Build(LoadState(s), job).g)
  {
    IngestCoherent(names, s, job);
    PersistAndLoad(Build(LoadState(s), job).g);
  }
}
