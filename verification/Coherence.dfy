/** The graph an ingest leaves in memory against the graph that loading the store would rebuild. */
module Coherence {
  import opened Core
  import opened GraphModel
  import opened Scans
  import opened Provenance
  import opened Snapshot
  import opened Stores
  import opened Protocol

  /** Every node has its object, of the kind its id says. */
  ghost predicate Kinds(g: GraphState) {
    forall id | id in g.nodes :: !g.nodes[id].Bare? && (g.nodes[id].Event? <==> id.EventUuid?)
  }

  function ToRecord(id: NodeId, n: Node): Record
    requires !n.Bare? && (n.Event? <==> id.EventUuid?)
  {
    match n
    case Event(tool, at, properties) => EventRecord(id.event, tool, at, properties)
    case Fact(t, v, c, _, _, _, _) => FactRecord(id, t, v, c)
  }

  function RecordsOf(g: GraphState): map<NodeId, Record>
    requires Kinds(g)
  {
    map id | id in g.nodes :: ToRecord(id, g.nodes[id])
  }

  /** What persisting the whole graph would store. */
  function StoreOf(g: GraphState): Store
    requires Kinds(g)
  {
    Store(RecordsOf(g), g.edges)
  }

  /** The provenance of a fact is that of its edges, as sets. */
  ghost predicate ProvenanceOk(g: GraphState, id: NodeId)
    requires id in g.nodes && g.nodes[id].Fact?
  {
    && (forall e :: e in g.nodes[id].sourceEvents <==> e in Mentioning(g.edges, id))
    && g.nodes[id].sourceTools == Tools(g.nodes, Mentioning(g.edges, id))
  }

  ghost predicate GraphInv(g: GraphState) {
    && Kinds(g) && StoreInv(StoreOf(g))
    && g.byKey == KeyIndex(RecordsOf(g)) && g.byType == TypeIndex(RecordsOf(g))
    && forall id | id in g.nodes && g.nodes[id].Fact? :: ProvenanceOk(g, id)
  }

  /** A coherent graph whose facts are those that `names` names. */
  ghost predicate NamedGraph(names: Naming, g: GraphState) {
    GraphInv(g) && NamedTable(names, RecordsOf(g))
  }

  // ----- Loading establishes it ----------------------------------------------------------------

  lemma IntegralEnds(s: Store)
    requires StoreInv(s)
    ensures Ends(s.edges) <= s.nodes.Keys
  {
  }

  lemma LoadedRecords(s: Store)
    requires StoreInv(s)
    ensures Kinds(LoadState(s)) && StoreOf(LoadState(s)) == s
  {
    hide KeyIndex, TypeIndex, FilledNode;
    var f, g := Frame(s), LoadState(s);
    IntegralEnds(s);
    assert f.nodes.Keys == s.nodes.Keys;
    forall id | id in g.nodes
      ensures id in s.nodes && !g.nodes[id].Bare? && (g.nodes[id].Event? <==> id.EventUuid?)
      ensures ToRecord(id, g.nodes[id]) == s.nodes[id]
    {
      FilledKeepsRecord(s, id);
    }
    assert RecordsOf(g) == s.nodes;
  }

  /** Filling in its provenance leaves what a node is stored as. */
  lemma FilledKeepsRecord(s: Store, id: NodeId)
    requires StoreInv(s) && id in s.nodes
    ensures id in LoadState(s).nodes
    ensures var n := LoadState(s).nodes[id]; !n.Bare? && (n.Event? <==> id.EventUuid?) && ToRecord(id, n) == s.nodes[id]
  {
  }

  lemma LoadInv(s: Store)
    requires StoreInv(s)
    ensures GraphInv(LoadState(s)) && StoreOf(LoadState(s)) == s
  {
    LoadedRecords(s);
    hide ProvenanceOk, StoreInv, FilledNode, KeyIndex, TypeIndex;
    var g := LoadState(s);
    forall id | id in g.nodes && g.nodes[id].Fact? ensures ProvenanceOk(g, id) {
      assert s.nodes[id].FactRecord?;
      LoadedProvenance(s, id);
    }
  }

  lemma LoadedProvenance(s: Store, id: NodeId)
    requires StoreInv(s) && id in s.nodes && s.nodes[id].FactRecord?
    ensures id in LoadState(s).nodes && LoadState(s).nodes[id].Fact? && ProvenanceOk(LoadState(s), id)
  {
    var f, g := Frame(s), LoadState(s);
    assert forall e | e in Mentioning(s.edges, id) :: IsEvent(f.nodes, e);
    assert Sources(f, id) == Mentioning(s.edges, id);
    assert forall e | e in Mentioning(s.edges, id) :: ToolOf(f.nodes, e) == ToolOf(g.nodes, e) by {
      forall e | e in Mentioning(s.edges, id) ensures ToolOf(f.nodes, e) == ToolOf(g.nodes, e) {
        assert Filled(f, EventUuid(e)) == f.nodes[EventUuid(e)];
      }
    }
    assert Tools(f.nodes, Sources(f, id)) == Tools(g.nodes, Mentioning(g.edges, id));
  }

  // ----- An event keeps it ---------------------------------------------------------------------

  lemma AddEventInv(g: GraphState, id: EventId, e: Node)
    requires GraphInv(g) && e.Event? && EventUuid(id) !in g.nodes
    ensures var g' := AddEvent(g, id, e);
            GraphInv(g') && StoreOf(g') == Store(RecordsOf(g)[EventUuid(id) := ToRecord(EventUuid(id), e)], g.edges)
  {
    hide StoreInv, ProvenanceOk;
    var g', r := AddEvent(g, id, e), ToRecord(EventUuid(id), e);
    assert RecordsOf(g') == RecordsOf(g)[r.Id() := r];
    NodePutKeepsStore(StoreOf(g), r);
    KeysGrow(RecordsOf(g), r);
    TypesGrow(RecordsOf(g), r);
    forall f | f in g'.nodes && g'.nodes[f].Fact? ensures ProvenanceOk(g', f) {
      NewEventUnmentioned(g, id, e, f);
    }
  }

  lemma NewEventUnmentioned(g: GraphState, id: EventId, e: Node, f: NodeId)
    requires GraphInv(g) && e.Event? && EventUuid(id) !in g.nodes && f in g.nodes && g.nodes[f].Fact?
    ensures ProvenanceOk(AddEvent(g, id, e), f)
  {
    assert ProvenanceOk(g, f);
    var nodes, evs := AddEvent(g, id, e).nodes, Mentioning(g.edges, f);
    forall ev | ev in evs ensures ToolOf(nodes, ev) == ToolOf(g.nodes, ev) {
      assert EventUuid(ev) in RecordsOf(g);
    }
    assert Tools(nodes, evs) == Tools(g.nodes, evs);
  }

  // ----- A sighting keeps it -------------------------------------------------------------------

  /** In a coherent graph the key index holds exactly the keys of the facts that are there. */
  lemma IndexIsExact(names: Naming, g: GraphState, key: Key)
    requires NamedGraph(names, g) && Named(names, key)
    ensures key in g.byKey <==> FactNodeId(key) in g.nodes
    ensures key in g.byKey ==>
              && g.byKey[key] == FactNodeId(key) && g.nodes[FactNodeId(key)].Fact?
              && Key(g.nodes[FactNodeId(key)].nodeType, g.nodes[FactNodeId(key)].canonical) == key
  {
    var rs := RecordsOf(g);
    if key in g.byKey {
      var id :| id in rs && rs[id].FactRecord? && KeyOf(rs[id]) == key;
      assert id == FactNodeId(key);
    }
    if FactNodeId(key) in g.nodes {
      var r := rs[FactNodeId(key)];
    }
  }

  /** The records after a sighting: a new fact adds its own, a known one nothing. */
  lemma SightedRecords(names: Naming, g: GraphState, s: Sighting, st: Stamp)
    requires NamedGraph(names, g) && Named(names, s.key) && IsEvent(g.nodes, st.event)
    ensures var g', r := Sighted(g, s, st), RecordFor(g, s.key, s.value);
            && Kinds(g') && r.Id() == FactNodeId(s.key) && HonestRecord(r)
            && RecordsOf(g') == RecordsOf(g)[r.Id() := r]
            && (s.key in g.byKey ==> r.Id() in g.nodes && RecordsOf(g)[r.Id()] == r)
            && (s.key !in g.byKey ==> r.Id() !in g.nodes)
  {
    hide Sighted, ProvenanceOk, KeyIndex, TypeIndex, Integral, WellKeyed;
    IndexIsExact(names, g, s.key);
    var g', r := Sighted(g, s, st), RecordFor(g, s.key, s.value);
    SightedNodes(names, g, s, st);
    assert RecordsOf(g') == RecordsOf(g)[r.Id() := r];
  }

  /** Only the node of the fact changes: the end points of the edge are there. */
  lemma SightedNodes(names: Naming, g: GraphState, s: Sighting, st: Stamp)
    requires NamedGraph(names, g) && Named(names, s.key) && IsEvent(g.nodes, st.event)
    ensures var id := FactNodeId(s.key);
            Sighted(g, s, st).nodes ==
                g.nodes[id := if s.key in g.byKey then Seen(g.nodes[id], st) else NewFact(s.key, s.value, st)]
  {
    IndexIsExact(names, g, s.key);
  }

  /** The graph after one sighting and its edge. */
  function Sighted(g: GraphState, s: Sighting, st: Stamp): GraphState {
    AddEdge(Upsert(g, s.key, s.value, st), FactEdge(st.event, TargetOf(g, s.key), s.edgeType, s.description))
  }

  lemma SightedIndices(names: Naming, g: GraphState, s: Sighting, st: Stamp)
    requires NamedGraph(names, g) && Named(names, s.key) && IsEvent(g.nodes, st.event)
    ensures var g' := Sighted(g, s, st);
            Kinds(g') && g'.byKey == KeyIndex(RecordsOf(g')) && g'.byType == TypeIndex(RecordsOf(g'))
  {
    SightedRecords(names, g, s, st);
    var g', r := Sighted(g, s, st), RecordFor(g, s.key, s.value);
    if s.key in g.byKey {
      assert RecordsOf(g') == RecordsOf(g);
    } else {
      KeysGrow(RecordsOf(g), r);
      TypesGrow(RecordsOf(g), r);
    }
  }

  /** One more edge into `id` adds its event and its tool, an edge elsewhere adds nothing. */
  lemma ProvenanceStep(g: GraphState, g': GraphState, e: FactEdge, id: NodeId)
    requires g'.edges == g.edges[e.Id() := e] && forall ev :: ToolOf(g'.nodes, ev) == ToolOf(g.nodes, ev)
    requires id in g'.nodes && g'.nodes[id].Fact?
    requires var n, before := g'.nodes[id], Mentioning(g.edges, id);
             && (forall ev :: ev in n.sourceEvents <==> ev in before || (id == e.target && ev == e.event))
             && n.sourceTools == Tools(g.nodes, before) + if id == e.target then {ToolOf(g.nodes, e.event)} else {}
    ensures ProvenanceOk(g', id)
  {
  }

  lemma SightedProvenance(names: Naming, g: GraphState, s: Sighting, st: Stamp, id: NodeId)
    requires NamedGraph(names, g) && Named(names, s.key) && IsEvent(g.nodes, st.event)
    requires ToolOf(g.nodes, st.event) == st.tool
    requires id in Sighted(g, s, st).nodes && Sighted(g, s, st).nodes[id].Fact?
    ensures ProvenanceOk(Sighted(g, s, st), id)
  {
    hide StoreInv, NamedTable, KeyIndex, TypeIndex;
    IndexIsExact(names, g, s.key);
    SightedNodes(names, g, s, st);
    if id in g.nodes {
      assert ProvenanceOk(g, id);
    } else {
      NoMentions(g, id);
    }
    hide NamedGraph, Mentioning, Tools;
    assert forall ev :: ToolOf(Sighted(g, s, st).nodes, ev) == ToolOf(g.nodes, ev);
    ProvenanceStep(g, Sighted(g, s, st), FactEdge(st.event, FactNodeId(s.key), s.edgeType, s.description), id);
  }

  lemma NoMentions(g: GraphState, id: NodeId)
    requires GraphInv(g) && id !in g.nodes
    ensures Mentioning(g.edges, id) == {}
  {
  }

  /** The stored form of the graph stays well formed: the new edge has both its ends. */
  lemma SightedStore(names: Naming, g: GraphState, s: Sighting, st: Stamp)
    requires NamedGraph(names, g) && Named(names, s.key) && IsEvent(g.nodes, st.event)
    ensures Kinds(Sighted(g, s, st)) && StoreInv(StoreOf(Sighted(g, s, st)))
    ensures NamedTable(names, RecordsOf(Sighted(g, s, st)))
  {
    SightedRecords(names, g, s, st);
    IndexIsExact(names, g, s.key);
    var r, e := RecordFor(g, s.key, s.value), FactEdge(st.event, TargetOf(g, s.key), s.edgeType, s.description);
    var mid := StoreOf(g).(nodes := RecordsOf(g)[r.Id() := r]);
    NodePutKeepsStore(StoreOf(g), r);
    assert EventUuid(st.event) in RecordsOf(g);
    EdgePutKeepsStore(mid, e);
    assert StoreOf(Sighted(g, s, st)) == mid.(edges := mid.edges[e.Id() := e]);
  }

  lemma SightedInv(names: Naming, g: GraphState, s: Sighting, st: Stamp)
    requires NamedGraph(names, g) && Named(names, s.key) && IsEvent(g.nodes, st.event)
    requires ToolOf(g.nodes, st.event) == st.tool
    ensures NamedGraph(names, Sighted(g, s, st))
  {
    hide Sighted, ProvenanceOk, StoreInv, NamedTable, RecordsOf, KeyIndex, TypeIndex, StoreOf;
    SightedStore(names, g, s, st);
    SightedIndices(names, g, s, st);
    var g' := Sighted(g, s, st);
    forall id | id in g'.nodes && g'.nodes[id].Fact? ensures ProvenanceOk(g', id) {
      SightedProvenance(names, g, s, st, id);
    }
  }
}
