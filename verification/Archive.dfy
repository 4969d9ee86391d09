/** The portable dump of a graph, and loading it back. */
module Archive {
  import opened Core
  import opened GraphModel
  import opened FactGraphs
  import opened Provenance
  import opened Snapshot
  import opened Ingest
  import opened Stores
  import opened Coherence
  import opened Incremental

  const SCHEMA := "agent_pinboard.factgraph"

  /** What a caller may hand to the loader. */
  datatype Dump = NotADict | Dict(schema: Option<string>, nodes: Option<seq<Record>>, edges: Option<seq<FactEdge>>)

  datatype DumpError = NodeWithoutObject | DictExpected | SchemaMismatch

  datatype Outcome<T> = Ok(value: T) | Err(error: DumpError)

  ghost predicate HasBare(g: GraphState) {
    exists id :: id in g.nodes && g.nodes[id].Bare?
  }

  /** A dump that lists every node of `g` once, and every edge once. */
  ghost predicate DumpOf(d: Dump, g: GraphState) {
    && d.Dict? && d.schema == Some(SCHEMA) && d.nodes.Some? && d.edges.Some?
    && DistinctIds(d.nodes.value) && DistinctEdges(d.edges.value)
    && (forall id :: Listed(d.nodes.value, id) <==> id in g.nodes)
    && (forall r | r in d.nodes.value :: RecordStands(g, r))
    && (forall e :: e in d.edges.value <==> e.Id() in g.edges && g.edges[e.Id()] == e)
  }

  /** The record is that of the node under its id. */
  ghost predicate RecordStands(g: GraphState, r: Record) {
    && r.Id() in g.nodes
    && match r
       case EventRecord(_, tool, at, properties) => g.nodes[r.Id()] == Event(tool, at, properties)
       case FactRecord(_, t, v, c) =>
         var n := g.nodes[r.Id()];
         n.Fact? && n.nodeType == t && n.value == v && n.canonical == c
  }

  // ----- Dumping -------------------------------------------------------------------------------

  method DumpNodes(graph: FactGraph) returns (r: Outcome<seq<Record>>)
    requires graph.Valid()
    ensures r.Err? <==> HasBare(graph.View())
    ensures r.Err? ==> r.error == NodeWithoutObject
    ensures r.Ok? ==>
              && DistinctIds(r.value) && (forall id :: Listed(r.value, id) <==> id in graph.nodes)
              && forall x | x in r.value :: RecordStands(graph.View(), x)
  {
    ghost var g := graph.View();
    var rs: seq<Record> := [];
    var left := graph.nodes.Keys;
    while left != {}
      invariant left <= graph.nodes.Keys
      invariant DistinctIds(rs) && forall id :: Listed(rs, id) <==> id in graph.nodes.Keys - left
      invariant forall x | x in rs :: RecordStands(g, x)
      invariant forall id | id in graph.nodes.Keys - left :: !g.nodes[id].Bare?
      decreases left
    {
      var id :| id in left;
      if graph.nodes[id].NoObj? {
        assert id in g.nodes && g.nodes[id].Bare?;
        assert HasBare(g) && graph.View() == g;
        return Err(NodeWithoutObject);
      }
      var x := PayloadRecord(graph.nodes[id]);
      assert x.Id() == id && RecordStands(g, x) && !g.nodes[id].Bare?;
      left := left - {id};
      OneMoreListed(rs, x);
      rs := rs + [x];
    }
    r := Ok(rs);
  }

  method DumpEdges(edges: map<EdgeId, FactEdge>) returns (es: seq<FactEdge>)
    requires WellKeyed(edges)
    ensures DistinctEdges(es) && forall e :: e in es <==> e.Id() in edges && edges[e.Id()] == e
  {
    es := [];
    var left := edges.Keys;
    while left != {}
      invariant left <= edges.Keys && DistinctEdges(es)
      invariant forall e :: e in es <==> e.Id() in edges.Keys - left && edges[e.Id()] == e
      decreases left
    {
      var k :| k in left;
      left := left - {k};
      assert forall i | 0 <= i < |es| :: es[i] in es;
      es := es + [edges[k]];
    }
  }

  /** Serialises the graph; a node that only an edge has mentioned makes it fail. */
  method DumpToDict(graph: FactGraph) returns (r: Outcome<Dump>)
    requires graph.Valid() && WellKeyed(graph.edges)
    ensures r.Err? <==> HasBare(graph.View())
    ensures r.Err? ==> r.error == NodeWithoutObject
    ensures r.Ok? ==> DumpOf(r.value, graph.View())
  {
    hide RecordStands, DistinctIds, HasBare, WellKeyed;
    ghost var g := graph.View();
    var nodes := DumpNodes(graph);
    assert graph.View() == g;
    if nodes.Err? {
      return Err(nodes.error);
    }
    var edges := DumpEdges(graph.edges);
    assert graph.View() == g;
    r := Ok(Dict(Some(SCHEMA), Some(nodes.value), Some(edges)));
  }

  // ----- Round trips ---------------------------------------------------------------------------

  lemma DumpedNodes(rs: seq<Record>, g: GraphState)
    requires GraphInv(g) && DistinctIds(rs) && forall r | r in rs :: RecordStands(g, r)
    requires forall id :: Listed(rs, id) <==> id in g.nodes
    ensures PutNodes(map[], rs) == RecordsOf(g) && forall r | r in rs :: HonestRecord(r)
  {
    PutNodesContents(rs);
    forall r | r in rs ensures RecordsOf(g)[r.Id()] == r && HonestRecord(r) {
      assert RecordStands(g, r);
    }
    forall id | id in g.nodes ensures id in PutNodes(map[], rs) && PutNodes(map[], rs)[id] == RecordsOf(g)[id] {
      var r :| r in rs && r.Id() == id;
    }
  }

  lemma DumpedEdges(es: seq<FactEdge>, edges: map<EdgeId, FactEdge>)
    requires WellKeyed(edges) && DistinctEdges(es) && forall e :: e in es <==> e.Id() in edges && edges[e.Id()] == e
    ensures PutEdges(map[], es) == edges
  {
    PutEdgesContents(es);
    forall k | k in edges ensures k in PutEdges(map[], es) && PutEdges(map[], es)[k] == edges[k] {
      assert edges[k].Id() == k && edges[k] in es;
    }
  }

  /** A dump of a coherent graph lists what persisting the graph would store. */
  lemma DumpIsStore(d: Dump, g: GraphState)
    requires GraphInv(g) && DumpOf(d, g)
    ensures Store(PutNodes(map[], d.nodes.value), PutEdges(map[], d.edges.value)) == StoreOf(g)
    ensures forall r | r in d.nodes.value :: HonestRecord(r)
  {
    DumpedNodes(d.nodes.value, g);
    DumpedEdges(d.edges.value, g.edges);
  }

  /** Loading any dump of a coherent graph gives the graph back: its events, its edges, both
      indices, the fixed fields of its facts, and their source events and tools as sets. */
  lemma RoundTrip(d: Dump, g: GraphState)
    requires GraphInv(g) && DumpOf(d, g)
    ensures SameButTimes(Rebuild(d.nodes.value, d.edges.value), g)
    ensures GraphInv(Rebuild(d.nodes.value, d.edges.value))
  {
    DumpIsStore(d, g);
    RebuildIsLoad(d.nodes.value, d.edges.value);
    LoadInv(StoreOf(g));
    PersistAndLoad(g);
  }

  /** A graph that itself came from a load comes back exactly: provenance, times and all. */
  lemma LoadedRoundTrip(d: Dump, s: Store)
    requires StoreInv(s) && DumpOf(d, LoadState(s))
    ensures Rebuild(d.nodes.value, d.edges.value) == LoadState(s)
  {
    LoadInv(s);
    DumpIsStore(d, LoadState(s));
    RebuildIsLoad(d.nodes.value, d.edges.value);
  }

  /** Dumping the loaded graph again lists the same records and the same edges. */
  lemma DumpAgain(d: Dump, g: GraphState, d': Dump)
    requires GraphInv(g) && DumpOf(d, g) && DumpOf(d', Rebuild(d.nodes.value, d.edges.value))
    ensures forall r :: r in d'.nodes.value <==> r in d.nodes.value
    ensures forall e :: e in d'.edges.value <==> e in d.edges.value
  {
    var g' := Rebuild(d.nodes.value, d.edges.value);
    RoundTrip(d, g);
    DumpedRecords(d, g);
    DumpedRecords(d', g');
    DumpIsStore(d, g);
    RebuildIsLoad(d.nodes.value, d.edges.value);
    LoadInv(StoreOf(g));
    assert RecordsOf(g') == RecordsOf(g);
  }

  lemma DumpedRecords(d: Dump, g: GraphState)
    requires GraphInv(g) && DumpOf(d, g)
    ensures forall r :: r in d.nodes.value <==> r.Id() in g.nodes && RecordsOf(g)[r.Id()] == r
  {
  }

  /** A graph loaded from a store can be dumped exactly when no stored edge hangs: a torn or cut
      load, which has an edge without one of its ends, is the only kind that cannot. */
  lemma LoadedCanBeDumpedIff(s: Store)
    ensures HasBare(LoadState(s)) <==>
            exists k :: k in s.edges && (EventUuid(k.event) !in s.nodes || k.target !in s.nodes)
  {
    var f, g := Frame(s), LoadState(s);
    if id :| id in g.nodes && g.nodes[id].Bare? {
      assert g.nodes[id] == Filled(f, id);
      assert id !in s.nodes && id in Ends(s.edges);
    }
    if k :| k in s.edges && (EventUuid(k.event) !in s.nodes || k.target !in s.nodes) {
      var id := if k.target !in s.nodes then k.target else EventUuid(k.event);
      assert id in Ends(s.edges);
      assert f.nodes[id] == Bare;
      assert g.nodes[id] == Filled(f, id) == Bare;
    }
  }

  // ----- Loading -------------------------------------------------------------------------------

  /** The errors are checked in this order: the type of the payload, then its schema. A missing list
      reads as an empty one. What was dumped from a coherent graph comes back, and exactly so if the
      graph had been loaded. */
  method LoadFromDict(d: Dump) returns (r: Outcome<FactGraph>)
    ensures r.Err? <==> d.NotADict? || d.schema != Some(SCHEMA)
    ensures r.Err? ==> r.error == if d.NotADict? then DictExpected else SchemaMismatch
    ensures r.Ok? ==> fresh(r.value) && r.value.Valid()
    ensures r.Ok? && d.nodes.Some? && d.edges.Some? ==> r.value.View() == Rebuild(d.nodes.value, d.edges.value)
    ensures r.Ok? && d.nodes.Some? && d.edges.None? ==> r.value.View() == Rebuild(d.nodes.value, [])
    ensures r.Ok? && d.nodes.None? && d.edges.Some? ==> r.value.View() == Rebuild([], d.edges.value)
    ensures r.Ok? && d.nodes.None? && d.edges.None? ==> r.value.View() == Rebuild([], [])
    ensures forall g | GraphInv(g) && DumpOf(d, g) :: r.Ok? && SameButTimes(r.value.View(), g)
    ensures forall s | StoreInv(s) && DumpOf(d, LoadState(s)) :: r.Ok? && r.value.View() == LoadState(s)
  {
    hide Rebuild, DumpOf, GraphInv, StoreInv, SameButTimes, LoadState;
    ComesBack(d);
    if d.NotADict? {
      return Err(DictExpected);
    }
    if d.schema != Some(SCHEMA) {
      return Err(SchemaMismatch);
    }
    var nodes := if d.nodes.Some? then d.nodes.value else [];
    var edges := if d.edges.Some? then d.edges.value else [];
    var g := FromSnapshot(nodes, edges);
    r := Ok(g);
  }

  lemma ComesBack(d: Dump)
    ensures forall g | GraphInv(g) && DumpOf(d, g) ::
              d.Dict? && d.schema == Some(SCHEMA) && d.nodes.Some? && d.edges.Some?
              && SameButTimes(Rebuild(d.nodes.value, d.edges.value), g)
    ensures forall s | StoreInv(s) && DumpOf(d, LoadState(s)) ::
              d.Dict? && d.schema == Some(SCHEMA) && d.nodes.Some? && d.edges.Some?
              && Rebuild(d.nodes.value, d.edges.value) == LoadState(s)
  {
    hide Rebuild, GraphInv, StoreInv, SameButTimes, LoadState;
    forall g | GraphInv(g) && DumpOf(d, g) ensures SameButTimes(Rebuild(d.nodes.value, d.edges.value), g) {
      RoundTrip(d, g);
    }
    forall s | StoreInv(s) && DumpOf(d, LoadState(s))
      ensures Rebuild(d.nodes.value, d.edges.value) == LoadState(s)
    {
      LoadedRoundTrip(d, s);
    }
  }
}
