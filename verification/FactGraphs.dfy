/** The runtime container: a node table, the edges and the two sidecar indices, updated in place. */
module FactGraphs {
  import opened Core
  import opened GraphModel

  /** A fact object. Its identity is fixed; its provenance is mutated by the graph that holds it. */
  class FactNode {
    const id: FactId
    const nodeType: string
    const value: string
    const canonical: string
    var firstSeen: int
    var lastSeen: int
    var sourceEvents: seq<EventId>
    var sourceTools: set<string>

    constructor (id: FactId, nodeType: string, value: string, canonical: string,
                 firstSeen: int, lastSeen: int, sourceEvents: seq<EventId>, sourceTools: set<string>)
      ensures this.id == id && this.nodeType == nodeType && this.value == value && this.canonical == canonical
      ensures Snapshot() == Fact(nodeType, value, canonical, firstSeen, lastSeen, sourceEvents, sourceTools)
    {
      this.id, this.nodeType, this.value, this.canonical := id, nodeType, value, canonical;
      this.firstSeen, this.lastSeen := firstSeen, lastSeen;
      this.sourceEvents, this.sourceTools := sourceEvents, sourceTools;
    }

    function Snapshot(): Node
      reads this
    {
      Fact(nodeType, value, canonical, firstSeen, lastSeen, sourceEvents, sourceTools)
    }
  }

  function RecordOf(f: FactNode): Record {
    FactRecord(f.id, f.nodeType, f.value, f.canonical)
  }

  /** What a node of the table holds. */
  datatype NodeRef = EventRef(uuid: EventId, event: Node) | FactRef(fact: FactNode) | NoObj {
    function Snapshot(): Node
      reads if FactRef? then {fact} else {}
    {
      match this
      case EventRef(_, e) => e
      case FactRef(f) => f.Snapshot()
      case NoObj => Bare
    }
  }

  datatype Warning = EmptyCanonical(entityName: string, value: Scalar)

  datatype Upserted =
    | Skipped                       // the value is None
    | Dropped(warning: Warning)     // empty canonical text
    | NormalizerFailed(entityName: string)
    | Linked(id: FactId)
    | Created(id: FactId)

  /** What a marked value comes to before any graph is looked at. */
  datatype Resolved = NoValue | Failing | EmptyText | Resolved(canonical: string)

  function Resolve(entity: Entity, value: Option<Scalar>): Resolved {
    if value.None? then NoValue
    else
      var n := if entity.normalizer.Some? then entity.normalizer.value(value.value) else Canonical(value.value.text);
      if n.Raised? then Failing else if n.text == "" then EmptyText else Resolved(n.text)
  }

  /** The canonical text of a value: what the normalizer makes of it, or its own text if there is none. */
  predicate NormalizesTo(entity: Entity, v: Scalar, c: string) {
    match entity.normalizer
    case None => v.text == c
    case Some(n) => n(v) == Canonical(c)
  }

  predicate Raises(entity: Entity, v: Scalar) {
    match entity.normalizer
    case None => false
    case Some(n) => n(v).Raised?
  }

  lemma ResolveIs(entity: Entity, value: Option<Scalar>)
    ensures Resolve(entity, value).NoValue? <==> value.None?
    ensures Resolve(entity, value).Failing? <==> value.Some? && Raises(entity, value.value)
    ensures Resolve(entity, value).EmptyText? <==> value.Some? && NormalizesTo(entity, value.value, "")
    ensures forall c :: Resolve(entity, value) == Resolved(c) <==>
                        value.Some? && c != "" && NormalizesTo(entity, value.value, c)
  {
  }

  /** Autolinking: two values of one entity have the same fact id if and only if they have the same
      canonical text. */
  lemma AutolinkIff(entity: Entity, v: Scalar, w: Scalar, c: string, d: string)
    requires NormalizesTo(entity, v, c) && NormalizesTo(entity, w, d)
    ensures FactNodeId(Key(entity.name, c)) == FactNodeId(Key(entity.name, d)) <==> c == d
    ensures entity.normalizer.Some? && entity.normalizer.value(v) == entity.normalizer.value(w) ==> c == d
  {
    if FactNodeId(Key(entity.name, c)) == FactNodeId(Key(entity.name, d)) {
      SameTypeSameKey(entity.name, c, d);
    }
  }

  /** Insert-or-link of a value with the text `text` under `key`: from the graph `g` to `h`. A known key
      is linked: its fact gains an event, a tool and a time. A new one gets a fact of its own, under
      the digest of type name and canonical text. */
  ghost predicate Lands(g: GraphState, h: GraphState, key: Key, text: string, st: Stamp, r: Upserted) {
    h.edges == g.edges &&
    if key in g.byKey then
      var id := g.byKey[key];
      && r == Linked(id) && h.byKey == g.byKey && h.byType == g.byType && id in g.nodes && g.nodes[id].Fact?
      && var n := g.nodes[id];
         h.nodes == g.nodes[id := Fact(n.nodeType, n.value, n.canonical, n.firstSeen, st.now,
                                       n.sourceEvents + [st.event], n.sourceTools + {st.tool})]
    else
      var id := FactDigest(key.nodeType + "|" + key.canonical);
      && r == Created(id) && h.byKey == g.byKey[key := id]
      && h.byType == g.byType[key.nodeType := (if key.nodeType in g.byType then g.byType[key.nodeType] else {}) + {id}]
      && h.nodes == g.nodes[id := Fact(key.nodeType, text, key.canonical, st.now, st.now, [st.event], {st.tool})]
  }

  /** The outcome in the terms that the reading of a tree uses. */
  ghost predicate Quoted(g: GraphState, h: GraphState, entity: Entity, value: Option<Scalar>, st: Stamp, r: Upserted) {
    match Resolve(entity, value)
    case NoValue => r == Skipped && h == g
    case Failing => r == NormalizerFailed(entity.name) && h == g
    case EmptyText => r == Dropped(EmptyCanonical(entity.name, value.value)) && h == g
    case Resolved(c) =>
      var key := Key(entity.name, c);
      && h == Upsert(g, key, value.value.text, st)
      && r == if key in g.byKey then Linked(g.byKey[key]) else Created(FactNodeId(key))
  }

  lemma LandsIsUpsert(g: GraphState, h: GraphState, key: Key, text: string, st: Stamp, r: Upserted)
    requires key in g.byKey ==> g.byKey[key] in g.nodes && g.nodes[g.byKey[key]].Fact?
    ensures Lands(g, h, key, text, st, r) <==>
            && h == Upsert(g, key, text, st)
            && r == if key in g.byKey then Linked(g.byKey[key]) else Created(FactNodeId(key))
  {
  }

  /** One value after another of the same entity, in a graph whose index goes by fact ids: the second
      lands on the fact of the first if and only if the normalizer sends both to one text, and then
      it is linked. */
  lemma SecondIsLinkedIff(g: GraphState, h: GraphState, i: GraphState, entity: Entity, v: Scalar, w: Scalar,
                          c: string, d: string, st: Stamp, st': Stamp, r: Upserted, r': Upserted)
    requires forall k | k in g.byKey :: g.byKey[k] == FactNodeId(k)
    requires NormalizesTo(entity, v, c) && NormalizesTo(entity, w, d)
    requires Lands(g, h, Key(entity.name, c), v.text, st, r) && Lands(h, i, Key(entity.name, d), w.text, st', r')
    ensures r'.id == r.id <==> c == d
    ensures c == d ==> r' == Linked(r.id) && |i.byKey| == |h.byKey|
  {
    AutolinkIff(entity, v, w, c, d);
  }

  class FactGraph {
    var nodes: map<NodeId, NodeRef>
    var edges: map<EdgeId, FactEdge>
    var nodesByKey: map<Key, FactId>
    var nodesByType: map<string, set<NodeId>>

    constructor ()
      ensures Valid() && Facts() == {} && View() == EMPTY_GRAPH
    {
      nodes, edges, nodesByKey, nodesByType := map[], map[], map[], map[];
    }

    ghost function Facts(): set<FactNode>
      reads this
    {
      set id | id in nodes && nodes[id].FactRef? :: nodes[id].fact
    }

    /** Every object sits under its own id, and the key index leads to fact objects. */
    ghost predicate Valid()
      reads this
    {
      && (forall id | id in nodes && nodes[id].FactRef? :: id.FactDigest? && nodes[id].fact.id == id)
      && (forall id | id in nodes && nodes[id].EventRef? :: id == EventUuid(nodes[id].uuid) && nodes[id].event.Event?)
      && (forall k | k in nodesByKey :: nodesByKey[k] in nodes && nodes[nodesByKey[k]].FactRef?)
    }

    /** The abstract value of the graph. */
    ghost function View(): GraphState
      reads this, Facts()
    {
      GraphState(map id | id in nodes :: nodes[id].Snapshot(), edges, nodesByKey, nodesByType)
    }

    method AddEvent(id: EventId, event: Node)
      requires Valid() && event.Event?
      modifies this
      ensures Valid() && Facts() == old(Facts())
      ensures View() == GraphModel.AddEvent(old(View()), id, event)
    {
      nodes := nodes[EventUuid(id) := EventRef(id, event)];
      nodesByType := AddToType(nodesByType, EVENT_NODE_TYPE, EventUuid(id));
    }

    /** A further sighting of a fact that is in the graph: the object is mutated where it sits. */
    method Link(id: NodeId, st: Stamp)
      requires Valid() && id in nodes && nodes[id].FactRef?
      modifies nodes[id].fact
      ensures Valid()
      ensures View() == old(View()).(nodes := old(View()).nodes[id := Seen(old(View()).nodes[id], st)])
    {
      var f := nodes[id].fact;
      ghost var before := View();
      f.lastSeen := st.now;
      f.sourceEvents := f.sourceEvents + [st.event];
      f.sourceTools := f.sourceTools + {st.tool};
      assert View().nodes == before.nodes[id := Seen(before.nodes[id], st)];
    }

    /** A fact object goes under its id, with its index entries. */
    method AddFact(f: FactNode)
      requires Valid()
      modifies this
      ensures Valid() && nodes == old(nodes)[f.id := FactRef(f)] && Facts() <= old(Facts()) + {f}
      ensures var g := old(View());
              View() == g.(nodes := g.nodes[f.id := f.Snapshot()],
                  byKey := g.byKey[Key(f.nodeType, f.canonical) := f.id],
                           byType := AddToType(g.byType, f.nodeType, f.id))
    {
      ghost var before := View();
      nodes := nodes[f.id := FactRef(f)];
      nodesByKey := nodesByKey[Key(f.nodeType, f.canonical) := f.id];
      nodesByType := AddToType(nodesByType, f.nodeType, f.id);
      assert View().nodes == before.nodes[f.id := f.Snapshot()];
    }

    /** A fact seen for the first time. */
    method Insert(key: Key, value: string, st: Stamp)
      requires Valid() && key !in nodesByKey
      modifies this
      ensures Valid() && fresh(Facts() - old(Facts()))
      ensures View() == Upsert(old(View()), key, value, st)
      ensures FactNodeId(key) in nodes && nodes[FactNodeId(key)].FactRef?
    {
      ghost var before := View();
      var id := FactNodeId(key);
      var f := new FactNode(id, key.nodeType, value, key.canonical, st.now, st.now, [st.event], {st.tool});
      assert View() == before;
      AddFact(f);
    }

    /** Insert or link one marked value. */
    method UpsertFact(entity: Entity, value: Option<Scalar>, st: Stamp) returns (r: Upserted)
      requires Valid()
      modifies this, Facts()
      ensures Valid() && fresh(Facts() - old(Facts()))
      ensures r == Skipped <==> value.None?
      ensures r.NormalizerFailed? <==>
              value.Some? && entity.normalizer.Some? && entity.normalizer.value(value.value).Raised?
      ensures r.NormalizerFailed? ==> r.entityName == entity.name
      ensures r.Dropped? <==>
              value.Some? && if entity.normalizer.Some? then entity.normalizer.value(value.value) == Canonical("")
                             else value.value.text == ""
      ensures r.Dropped? ==> r.warning == EmptyCanonical(entity.name, value.value)
      ensures r.Skipped? || r.NormalizerFailed? || r.Dropped? ==> View() == old(View())
      ensures value.Some? && entity.normalizer.None? && value.value.text != "" ==>
                Lands(old(View()), View(), Key(entity.name, value.value.text), value.value.text, st, r)
      ensures forall c | value.Some? && entity.normalizer.Some? && c != "" &&
                entity.normalizer.value(value.value) == Canonical(c) ::
                Lands(old(View()), View(), Key(entity.name, c), value.value.text, st, r)
      ensures r.Linked? || r.Created? ==> r.id in nodes && nodes[r.id].FactRef?
      ensures Quoted(old(View()), View(), entity, value, st, r)
    {
      if value.None? {
        return Skipped;
      }
      var n := if entity.normalizer.Some? then entity.normalizer.value(value.value) else Canonical(value.value.text);
      if n.Raised? {
        return NormalizerFailed(entity.name);
      }
      if n.text == "" {
        return Dropped(EmptyCanonical(entity.name, value.value));
      }
      var key := Key(entity.name, n.text);
      ghost var before := View();
      assert key in before.byKey ==> before.byKey[key] in before.nodes && before.nodes[before.byKey[key]].Fact?;
      if key in nodesByKey {
        var id := nodesByKey[key];
        Link(id, st);
        LandsIsUpsert(before, View(), key, value.value.text, st, Linked(id));
        return Linked(id);
      }
      Insert(key, value.value.text, st);
      LandsIsUpsert(before, View(), key, value.value.text, st, Created(FactNodeId(key)));
      return Created(FactNodeId(key));
    }

    method AddEdge(e: FactEdge)
      requires Valid()
      modifies this
      ensures Valid() && Facts() == old(Facts())
      ensures View() == GraphModel.AddEdge(old(View()), e)
      ensures forall id | id in old(nodes) :: id in nodes && nodes[id] == old(nodes)[id]
    {
      Ensure(EventUuid(e.event));
      Ensure(e.target);
      edges := edges[e.Id() := e];
    }

    /** `add_edge` on a missing end point adds that node with no object. */
    method Ensure(id: NodeId)
      requires Valid()
      modifies `nodes
      ensures Valid() && Facts() == old(Facts())
      ensures View() == old(View()).(nodes := Mention(old(View()).nodes, id))
      ensures forall i | i in old(nodes) :: i in nodes && nodes[i] == old(nodes)[i]
    {
      ghost var before := View().nodes;
      if id !in nodes {
        nodes := nodes[id := NoObj];
      }
      assert View().nodes == Mention(before, id);
    }
  }
}
