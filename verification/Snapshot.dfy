/** Rebuilding a graph from flat records and edges, in whatever order they come. */
module Snapshot {
  import opened Core
  import opened GraphModel
  import opened FactGraphs
  import opened Provenance

  /** The time a fact carries until its provenance is filled in. */
  const EPOCH := 0

  function Seed(r: Record): Node {
    match r
    case EventRecord(_, tool, at, properties) => Event(tool, at, properties)
    case FactRecord(_, t, v, c) => Fact(t, v, c, EPOCH, EPOCH, [], {})
  }

  function TypeOf(r: Record): string {
    if r.EventRecord? then EVENT_NODE_TYPE else r.nodeType
  }

  function KeyOf(r: Record): Key
    requires r.FactRecord?
  {
    Key(r.nodeType, r.canonical)
  }

  // ----- What the loops compute, in the order given --------------------------------------------

  function AddRecord(g: GraphState, r: Record): GraphState {
    g.(nodes := g.nodes[r.Id() := Seed(r)],
       byKey := if r.FactRecord? then g.byKey[KeyOf(r) := r.id] else g.byKey,
       byType := AddToType(g.byType, TypeOf(r), r.Id()))
  }

  function AddRecords(g: GraphState, rs: seq<Record>): GraphState {
    if rs == [] then g else AddRecord(AddRecords(g, rs[..|rs| - 1]), rs[|rs| - 1])
  }

  function AddEdges(g: GraphState, es: seq<FactEdge>): GraphState {
    if es == [] then g else AddEdge(AddEdges(g, es[..|es| - 1]), es[|es| - 1])
  }

  ghost function Rebuild(rs: seq<Record>, es: seq<FactEdge>): GraphState {
    Backfill(AddEdges(AddRecords(EMPTY_GRAPH, rs), es))
  }

  // ----- The imperative rebuild ----------------------------------------------------------------

  /** The node of one record, with its index entries. */
  method Place(g: FactGraph, r: Record) returns (f: Option<FactNode>)
    requires g.Valid()
    modifies g
    ensures g.Valid() && g.View() == AddRecord(old(g.View()), r)
    ensures f.Some? <==> r.FactRecord?
    ensures f.Some? ==> fresh(f.value) && g.Facts() <= old(g.Facts()) + {f.value}
    ensures f.None? ==> g.Facts() <= old(g.Facts())
  {
    ghost var before := g.View();
    match r
    case EventRecord(uuid, tool, at, properties) =>
      g.AddEvent(uuid, Event(tool, at, properties));
      f := None;
    case FactRecord(id, t, v, c) =>
      var fact := new FactNode(id, t, v, c, EPOCH, EPOCH, [], {});
      assert g.View() == before;
      g.AddFact(fact);
      f := Some(fact);
  }

  ghost predicate SameEvents(a: map<NodeId, Node>, b: map<NodeId, Node>) {
    forall e :: (IsEvent(a, e) <==> IsEvent(b, e)) && (IsEvent(a, e) ==> a[EventUuid(e)] == b[EventUuid(e)])
  }

  ghost predicate Mentioned(es: seq<FactEdge>, id: NodeId, ev: EventId) {
    exists e :: e in es && e.target == id && e.event == ev
  }

  /** The edge table mentions the same pairs as the list. */
  ghost predicate Mentions(table: map<EdgeId, FactEdge>, es: seq<FactEdge>) {
    forall id, ev :: ev in Mentioning(table, id) <==> Mentioned(es, id, ev)
  }

  method AddAllEdges(g: FactGraph, edges: seq<FactEdge>)
    requires g.Valid() && g.edges == map[]
    modifies g
    ensures g.Valid() && g.Facts() == old(g.Facts())
    ensures g.View() == AddEdges(old(g.View()), edges)
    ensures SameEvents(old(g.View().nodes), g.View().nodes) && Mentions(g.edges, edges)
  {
    hide Mentions, SameEvents;
    ghost var before := g.View();
    MentionsNothing();
    SameEventsRefl(before.nodes);
    for i := 0 to |edges|
      invariant g.Valid() && g.Facts() == old(g.Facts()) && g.View() == AddEdges(before, edges[..i])
      invariant SameEvents(before.nodes, g.View().nodes) && Mentions(g.edges, edges[..i])
    {
      assert edges[..i + 1][..i] == edges[..i];
      ghost var table, mid := g.edges, g.View();
      g.AddEdge(edges[i]);
      EdgeKeepsEvents(before.nodes, mid, edges[i]);
      MentionsGrow(table, edges[..i], edges[i]);
      assert edges[..i + 1] == edges[..i] + [edges[i]];
    }
    assert edges[..|edges|] == edges;
  }

  lemma SameEventsRefl(nodes: map<NodeId, Node>)
    ensures SameEvents(nodes, nodes)
  {
  }

  lemma EdgeKeepsEvents(nodes: map<NodeId, Node>, g: GraphState, e: FactEdge)
    requires SameEvents(nodes, g.nodes)
    ensures SameEvents(nodes, AddEdge(g, e).nodes)
  {
  }

  lemma MentionsNothing()
    ensures Mentions(map[], [])
  {
  }

  lemma MentionsGrow(table: map<EdgeId, FactEdge>, es: seq<FactEdge>, e: FactEdge)
    requires Mentions(table, es)
    ensures Mentions(table[e.Id() := e], es + [e])
  {
    var table', es' := table[e.Id() := e], es + [e];
    forall id, ev
      ensures ev in Mentioning(table', id) <==> Mentioned(es', id, ev)
    {
      if ev in Mentioning(table', id) {
        var k :| k in table' && k.target == id && k.event == ev;
        if k == e.Id() {
          assert e in es';
        } else {
          assert ev in Mentioning(table, id);
          var x :| x in es && x.target == id && x.event == ev;
          assert x in es';
        }
      }
      if x :| x in es' && x.target == id && x.event == ev {
        if x == e {
          assert e.Id() in table';
        } else {
          assert x in es && ev in Mentioning(table, id);
          var k :| k in table && k.target == id && k.event == ev;
          assert k in table';
        }
      }
    }
  }

  ghost predicate Carries(es: seq<FactEdge>, ev: EventId) {
    exists e :: e in es && e.event == ev
  }

  /** The distinct known events among the given edges, in the order first met. */
  method KnownEvents(incoming: seq<FactEdge>, eventsById: map<NodeId, Node>) returns (events: seq<EventId>)
    ensures forall i, j | 0 <= i < j < |events| :: events[i] != events[j]
    ensures forall e :: e in events <==> IsEvent(eventsById, e) && Carries(incoming, e)
  {
    events := [];
    var seen: set<EventId> := {};
    for k := 0 to |incoming|
      invariant forall e :: e in seen <==> e in events
      invariant forall i, j | 0 <= i < j < |events| :: events[i] != events[j]
      invariant forall e :: e in events <==> IsEvent(eventsById, e) && Carries(incoming[..k], e)
    {
      var e := incoming[k].event;
      assert incoming[..k + 1] == incoming[..k] + [incoming[k]];
      assert incoming[k] in incoming[..k + 1];
      if IsEvent(eventsById, e) && e !in seen {
        seen := seen + {e};
        events := events + [e];
      }
    }
    assert incoming[..|incoming|] == incoming;
  }

  function Incoming(byTarget: map<NodeId, seq<FactEdge>>, id: NodeId): seq<FactEdge> {
    if id in byTarget then byTarget[id] else []
  }

  method GroupByTarget(edges: seq<FactEdge>) returns (byTarget: map<NodeId, seq<FactEdge>>)
    ensures Groups(byTarget, edges)
  {
    byTarget := map[];
    for k := 0 to |edges|
      invariant Groups(byTarget, edges[..k])
    {
      var e := edges[k];
      GroupOneMore(byTarget, edges[..k], e);
      assert edges[..k + 1] == edges[..k] + [e];
      byTarget := byTarget[e.target := Incoming(byTarget, e.target) + [e]];
    }
    assert edges[..|edges|] == edges;
  }

  ghost predicate Groups(byTarget: map<NodeId, seq<FactEdge>>, es: seq<FactEdge>) {
    forall id, e :: e in Incoming(byTarget, id) <==> e in es && e.target == id
  }

  lemma GroupOneMore(byTarget: map<NodeId, seq<FactEdge>>, es: seq<FactEdge>, e: FactEdge)
    requires Groups(byTarget, es)
    ensures Groups(byTarget[e.target := Incoming(byTarget, e.target) + [e]], es + [e])
  {
    var more := byTarget[e.target := Incoming(byTarget, e.target) + [e]];
    forall id, x
      ensures x in Incoming(more, id) <==> x in es + [e] && x.target == id
    {
      assert Incoming(more, id) == if id == e.target then Incoming(byTarget, id) + [e] else Incoming(byTarget, id);
    }
  }

  /** Sets the provenance of one fact object. */
  method FillFact(fact: FactNode, incoming: seq<FactEdge>, eventsById: map<NodeId, Node>, ghost g: GraphState)
    requires SameEvents(eventsById, g.nodes)
    requires forall e :: e in Mentioning(g.edges, fact.id) <==> Carries(incoming, e)
    modifies fact
    ensures fact.Snapshot() == FilledNode(g, fact.id, old(fact.Snapshot()))
  {
    var found := KnownEvents(incoming, eventsById);
    var events := Sort(eventsById, found);
    SortLists(eventsById, found);
    ghost var evs := Sources(g, fact.id);
    assert forall e :: e in found <==> e in evs;
    assert (set e | e in found) == evs;
    assert Lists(g.nodes, events, evs) by {
      assert forall e :: At(eventsById, e) == At(g.nodes, e);
    }
    ListingIsUnique(g.nodes, events, Chronology(g.nodes, evs), evs);
    fact.sourceEvents := events;
    fact.sourceTools := set e | e in events :: ToolOf(eventsById, e);
    assert fact.sourceTools == Tools(g.nodes, evs) by {
      assert forall e | e in events :: ToolOf(eventsById, e) == ToolOf(g.nodes, e);
    }
    if |events| > 0 {
      fact.firstSeen := At(eventsById, events[0]);
      fact.lastSeen := At(eventsById, events[|events| - 1]);
    }
  }

  /** Recomputes the provenance of every fact from the edges and the events. */
  method BackfillFactProvenance(graph: FactGraph, facts: seq<FactNode>, edges: seq<FactEdge>,
                                eventsById: map<NodeId, Node>)
    requires graph.Valid() && forall f | f in graph.Facts() :: f in facts
    requires forall i, j | 0 <= i < j < |facts| :: facts[i] != facts[j]
    requires SameEvents(eventsById, graph.View().nodes)
    requires Mentions(graph.edges, edges)
    modifies set f | f in facts
    ensures graph.Valid() && graph.View() == Backfill(old(graph.View()))
  {
    ghost var g := graph.View();
    var byTarget := GroupByTarget(edges);
    for i := 0 to |facts|
      invariant forall j | 0 <= j < i :: facts[j].Snapshot() == FilledNode(g, facts[j].id, old(facts[j].Snapshot()))
      invariant forall j | i <= j < |facts| :: facts[j].Snapshot() == old(facts[j].Snapshot())
    {
      var incoming := Incoming(byTarget, facts[i].id);
      assert forall ev :: Carries(incoming, ev) <==> Mentioned(edges, facts[i].id, ev);
      FillFact(facts[i], incoming, eventsById, g);
    }
    forall id | id in graph.nodes
      ensures graph.nodes[id].Snapshot() == Filled(g, id)
    {
      if graph.nodes[id].FactRef? {
        assert graph.nodes[id].fact in graph.Facts();
        var j :| 0 <= j < |facts| && facts[j] == graph.nodes[id].fact;
      }
    }
    assert graph.View().nodes == Backfill(g).nodes;
  }

  /** The loop over the records. */
  method PlaceAll(g: FactGraph, records: seq<Record>) returns (facts: seq<FactNode>, eventsById: map<NodeId, Node>)
    requires g.Valid() && g.Facts() == {} && g.View() == EMPTY_GRAPH
    modifies g
    ensures g.Valid() && g.View() == AddRecords(EMPTY_GRAPH, records)
    ensures forall f | f in facts :: fresh(f)
    ensures g.Facts() <= set f | f in facts
    ensures forall j, k | 0 <= j < k < |facts| :: facts[j] != facts[k]
    ensures SameEvents(eventsById, g.View().nodes)
  {
    hide SameEvents, AddRecords, AddToType;
    NoEvents();
    NoRecords(EMPTY_GRAPH);
    facts, eventsById := [], map[];
    for i := 0 to |records|
      invariant g.Valid() && g.View() == AddRecords(EMPTY_GRAPH, records[..i])
      invariant forall f | f in facts :: fresh(f)
      invariant g.Facts() <= set f | f in facts
      invariant forall j, k | 0 <= j < k < |facts| :: facts[j] != facts[k]
      invariant SameEvents(eventsById, g.View().nodes)
    {
      AddRecordsSnoc(EMPTY_GRAPH, records, i);
      var r := records[i];
      ghost var before := g.View().nodes;
      var f := Place(g, r);
      if r.EventRecord? {
        eventsById := eventsById[r.Id() := Seed(r)];
      } else {
        facts := facts + [f.value];
      }
      RecordKeepsEvents(eventsById, before, r);
    }
    assert records[..|records|] == records;
  }

  lemma NoRecords(g: GraphState)
    ensures AddRecords(g, []) == g
  {
  }

  lemma AddRecordsSnoc(g: GraphState, rs: seq<Record>, i: nat)
    requires i < |rs|
    ensures AddRecords(g, rs[..i + 1]) == AddRecord(AddRecords(g, rs[..i]), rs[i])
  {
    assert rs[..i + 1][..i] == rs[..i];
  }

  lemma NoEvents()
    ensures SameEvents(map[], EMPTY_GRAPH.nodes)
  {
  }

  lemma RecordKeepsEvents(eventsById: map<NodeId, Node>, nodes: map<NodeId, Node>, r: Record)
    requires r.FactRecord? ==> SameEvents(eventsById, nodes)
    requires r.EventRecord? ==> exists m :: SameEvents(m, nodes) && eventsById == m[r.Id() := Seed(r)]
    ensures SameEvents(eventsById, nodes[r.Id() := Seed(r)])
  {
  }

  lemma RecordsHaveNoEdges(rs: seq<Record>)
    ensures AddRecords(EMPTY_GRAPH, rs).edges == map[]
  {
  }

  /** Rebuilds the graph and its sidecars from flat records and edges. */
  method FromSnapshot(records: seq<Record>, edges: seq<FactEdge>) returns (g: FactGraph)
    ensures fresh(g) && fresh(g.Facts()) && g.Valid() && g.View() == Rebuild(records, edges)
  {
    g := new FactGraph();
    var facts, eventsById := PlaceAll(g, records);
    RecordsHaveNoEdges(records);
    AddAllEdges(g, edges);
    BackfillFactProvenance(g, facts, edges, eventsById);
  }
}
