/** The abstract value of a session graph and what each mutation does to it. The class `FactGraph`
    is proved against these functions; the theorems about the graph are stated on them. */
module GraphModel {
  import opened Core

  datatype Node =
    | Event(tool: string, timestamp: int, properties: Properties)
    | Fact(nodeType: string, value: string, canonical: string,
           firstSeen: int, lastSeen: int, sourceEvents: seq<EventId>, sourceTools: set<string>)
    | Bare  // a node that only an edge has mentioned: it carries no object

  /** Topology, and the two sidecar indices. A multigraph edge is keyed by its id, which also
      determines its end points. */
  datatype GraphState = GraphState(
    nodes: map<NodeId, Node>,
    edges: map<EdgeId, FactEdge>,
    byKey: map<Key, FactId>,
    byType: map<string, set<NodeId>>)

  const EMPTY_GRAPH := GraphState(map[], map[], map[], map[])

  /** Who is looking: the event, its tool, and the clock reading used for first and last seen. */
  datatype Stamp = Stamp(event: EventId, tool: string, now: int)

  function AddToType(byType: map<string, set<NodeId>>, t: string, id: NodeId): map<string, set<NodeId>> {
    byType[t := (if t in byType then byType[t] else {}) + {id}]
  }

  function AddEvent(g: GraphState, id: EventId, e: Node): GraphState {
    g.(nodes := g.nodes[EventUuid(id) := e],
       byType := AddToType(g.byType, EVENT_NODE_TYPE, EventUuid(id)))
  }

  /** An existing fact after one more sighting. */
  function Seen(n: Node, st: Stamp): Node {
    if n.Fact? then
      n.(lastSeen := st.now, sourceEvents := n.sourceEvents + [st.event], sourceTools := n.sourceTools + {st.tool})
    else n
  }

  function NewFact(key: Key, value: string, st: Stamp): Node {
    Fact(key.nodeType, value, key.canonical, st.now, st.now, [st.event], {st.tool})
  }

  /** The node a sighting of `key` lands on. */
  function TargetOf(g: GraphState, key: Key): FactId {
    if key in g.byKey then g.byKey[key] else FactNodeId(key)
  }

  /** What the node a sighting lands on will be stored as: the first text shown for it is kept. */
  function RecordFor(g: GraphState, key: Key, value: string): Record {
    if key in g.byKey && g.byKey[key] in g.nodes && g.nodes[g.byKey[key]].Fact? then
      var n := g.nodes[g.byKey[key]];
      FactRecord(g.byKey[key], n.nodeType, n.value, n.canonical)
    else
      FactRecord(FactNodeId(key), key.nodeType, value, key.canonical)
  }

  /** Insert-or-link. */
  function Upsert(g: GraphState, key: Key, value: string, st: Stamp): GraphState {
    if key in g.byKey then
      var id := g.byKey[key];
      if id in g.nodes then g.(nodes := g.nodes[id := Seen(g.nodes[id], st)]) else g
    else
      var id := FactNodeId(key);
      g.(nodes := g.nodes[id := NewFact(key, value, st)],
         byKey := g.byKey[key := id],
         byType := AddToType(g.byType, key.nodeType, id))
  }

  /** Adding an edge also adds whichever end point is missing, without an object. */
  function Mention(nodes: map<NodeId, Node>, id: NodeId): map<NodeId, Node> {
    if id in nodes then nodes else nodes[id := Bare]
  }

  function AddEdge(g: GraphState, e: FactEdge): GraphState {
    g.(nodes := Mention(Mention(g.nodes, EventUuid(e.event)), e.target), edges := g.edges[e.Id() := e])
  }
}
