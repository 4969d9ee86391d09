/** The listings by type, and what the reserved type name means for them. */
module Queries {
  import opened Core
  import opened GraphModel
  import opened Ingest
  import opened Stores
  import opened Deltas
  import opened Protocol
  import opened Serial
  import opened Coherence

  /** Listed under some type of `types` other than the reserved one, and carrying a fact. */
  ghost predicate FactUnder(g: GraphState, types: set<string>, id: NodeId) {
    id in g.nodes && g.nodes[id].Fact? && exists t ::
        t in types && t in g.byType && t != EVENT_NODE_TYPE && id in g.byType[t]
  }

  ghost predicate ListedAsFact(g: GraphState, id: NodeId) {
    FactUnder(g, g.byType.Keys, id)
  }

  ghost predicate ListedAsEvent(g: GraphState, id: NodeId) {
    id in g.nodes && g.nodes[id].Event? && EVENT_NODE_TYPE in g.byType && id in g.byType[EVENT_NODE_TYPE]
  }

  /** Every listed node is in the graph, as `Valid` indices guarantee. */
  ghost predicate TypesPoint(g: GraphState) {
    forall t, id | t in g.byType && id in g.byType[t] :: id in g.nodes
  }

  method AllEvents(g: GraphState) returns (ids: set<NodeId>)
    requires TypesPoint(g)
    ensures forall id :: id in ids <==> ListedAsEvent(g, id)
  {
    ids := {};
    var left := if EVENT_NODE_TYPE in g.byType then g.byType[EVENT_NODE_TYPE] else {};
    ghost var all := left;
    while left != {}
      invariant left <= all && ids == set id | id in all - left && g.nodes[id].Event?
      decreases left
    {
      var id :| id in left;
      left := left - {id};
      if g.nodes[id].Event? {
        ids := ids + {id};
      }
    }
  }

  method FactsAmong(g: GraphState, all: set<NodeId>) returns (ids: set<NodeId>)
    requires forall id | id in all :: id in g.nodes
    ensures ids == set id | id in all && g.nodes[id].Fact?
  {
    ids := {};
    var left := all;
    while left != {}
      invariant left <= all && ids == set id | id in all - left && g.nodes[id].Fact?
      decreases left
    {
      var id :| id in left;
      left := left - {id};
      if g.nodes[id].Fact? {
        ids := ids + {id};
      }
    }
  }

  /** Goes through every type but the reserved one. */
  method AllFacts(g: GraphState) returns (ids: set<NodeId>)
    requires TypesPoint(g)
    ensures forall id :: id in ids <==> ListedAsFact(g, id)
  {
    ids := {};
    var left := g.byType.Keys;
    while left != {}
      invariant left <= g.byType.Keys
      invariant forall id :: id in ids <==> FactUnder(g, g.byType.Keys - left, id)
      decreases left
    {
      var t :| t in left;
      ghost var done := g.byType.Keys - left;
      left := left - {t};
      assert g.byType.Keys - left == done + {t};
      if t != EVENT_NODE_TYPE {
        var more := FactsAmong(g, g.byType[t]);
        ids := ids + more;
      }
    }
  }

  /** In a coherent graph the events are listed exactly; the facts are listed exactly, too, if and
      only if none of them has the reserved type, a name that declaring an entity does not reject. */
  lemma FactsAllListedIff(g: GraphState)
    requires GraphInv(g)
    ensures TypesPoint(g) && forall id :: ListedAsEvent(g, id) <==> id in g.nodes && g.nodes[id].Event?
    ensures (forall id :: ListedAsFact(g, id) <==> id in g.nodes && g.nodes[id].Fact?)
       <==> forall id | id in g.nodes && g.nodes[id].Fact? :: g.nodes[id].nodeType != EVENT_NODE_TYPE
  {
    var rs := RecordsOf(g);
    forall id | id in g.nodes
      ensures TypeNameOf(g, id) in g.byType && id in g.byType[TypeNameOf(g, id)]
    {
      assert id in rs;
    }
    forall id, t | t in g.byType && id in g.byType[t]
      ensures id in g.nodes && t == TypeNameOf(g, id)
    {
      assert id in OfType(rs, t);
    }
    forall id | id in g.nodes && g.nodes[id].Fact? && g.nodes[id].nodeType != EVENT_NODE_TYPE
      ensures ListedAsFact(g, id)
    {
      assert id in g.byType[TypeNameOf(g, id)];
    }
  }

  /** Whatever else a store holds: after an ingest that sees a fact of the reserved type, that fact is
      in the graph, which is coherent, and is not among all facts. */
  lemma ReservedTypeIsLost(names: Naming, s: Store, job: Job, canonical: string)
    requires NamedStore(names, s) && JobOk(names, job) && FreshFor(s, job) && JobError(job.items).None?
    requires Key(EVENT_NODE_TYPE, canonical) in JobKeys(job.items)
    ensures var g, id := LoadState(Ingested(s, job)), FactNodeId(Key(EVENT_NODE_TYPE, canonical));
            && GraphInv(g) && id in g.nodes && g.nodes[id].Fact? && !ListedAsFact(g, id)
  {
    var k, t := Key(EVENT_NODE_TYPE, canonical), Ingested(s, job);
    IngestAdds(names, s, job);
    hide Ingested, JobRecords;
    assert FactOf(k) in JobRecords(job) by {
      KeyHasRecord(job, k);
    }
    FactIsLoaded(t, k);
    LoadInv(t);
    NotUnderOtherTypes(LoadState(t), FactNodeId(k));
  }

  lemma KeyHasRecord(job: Job, k: Key)
    requires k in JobKeys(job.items)
    ensures FactOf(k) in JobRecords(job)
  {
  }

  lemma FactIsLoaded(s: Store, k: Key)
    requires StoreInv(s) && FactOf(k) in ErasedOf(s.nodes)
    ensures var g, id := LoadState(s), FactNodeId(k);
            id in g.nodes && g.nodes[id].Fact? && g.nodes[id].nodeType == k.nodeType
  {
    var id :| id in s.nodes && Erase(s.nodes[id]) == FactOf(k);
    assert s.nodes[id].Id() == id == FactNodeId(k);
    assert FactOf(k).nodeType == k.nodeType;
  }

  lemma NotUnderOtherTypes(g: GraphState, id: NodeId)
    requires GraphInv(g) && id in g.nodes && g.nodes[id].Fact? && g.nodes[id].nodeType == EVENT_NODE_TYPE
    ensures !ListedAsFact(g, id)
  {
    forall t | t in g.byType && id in g.byType[t] ensures t == EVENT_NODE_TYPE {
      assert id in OfType(RecordsOf(g), t);
    }
  }

  function TypeNameOf(g: GraphState, id: NodeId): string
    requires id in g.nodes
  {
    if g.nodes[id].Fact? then g.nodes[id].nodeType else EVENT_NODE_TYPE
  }
}
