/** Provenance as it is derived from the edges and the events, in the order of the events' times. */
module Provenance {
  import opened Core
  import opened GraphModel

  function At(nodes: map<NodeId, Node>, e: EventId): int {
    if EventUuid(e) in nodes && nodes[EventUuid(e)].Event? then nodes[EventUuid(e)].timestamp else 0
  }

  function ToolOf(nodes: map<NodeId, Node>, e: EventId): string {
    if EventUuid(e) in nodes && nodes[EventUuid(e)].Event? then nodes[EventUuid(e)].tool else ""
  }

  predicate IsEvent(nodes: map<NodeId, Node>, e: EventId) {
    EventUuid(e) in nodes && nodes[EventUuid(e)].Event?
  }

  /** Order by time, then by id. */
  predicate Earlier(nodes: map<NodeId, Node>, a: EventId, b: EventId) {
    At(nodes, a) < At(nodes, b) || (At(nodes, a) == At(nodes, b) && a < b)
  }

  predicate Chronological(nodes: map<NodeId, Node>, q: seq<EventId>) {
    forall i, j | 0 <= i < j < |q| :: Earlier(nodes, q[i], q[j])
  }

  /** `q` lists exactly the events of `evs`, each once, in order. */
  ghost predicate Lists(nodes: map<NodeId, Node>, q: seq<EventId>, evs: set<EventId>) {
    Chronological(nodes, q) && forall e :: e in q <==> e in evs
  }

  lemma {:induction false} ListingIsUnique(nodes: map<NodeId, Node>, p: seq<EventId>, q: seq<EventId>,
          evs: set<EventId>)
    requires Lists(nodes, p, evs) && Lists(nodes, q, evs)
    ensures p == q
    decreases |p|
  {
    assert p != [] ==> p[0] in evs;
    assert q != [] ==> q[0] in evs;
    if p != [] && q != [] {
      HeadIsFirst(nodes, p, q, evs);
      var rest := evs - {p[0]};
      TailLists(nodes, p, evs);
      TailLists(nodes, q, evs);
      ListingIsUnique(nodes, p[1..], q[1..], rest);
      assert p == [p[0]] + p[1..] && q == [q[0]] + q[1..];
    }
  }

  lemma HeadIsFirst(nodes: map<NodeId, Node>, p: seq<EventId>, q: seq<EventId>, evs: set<EventId>)
    requires Lists(nodes, p, evs) && Lists(nodes, q, evs) && p != [] && q != []
    ensures p[0] == q[0]
  {
    assert p[0] in evs && q[0] in evs;
    var i :| 0 <= i < |q| && q[i] == p[0];
    var j :| 0 <= j < |p| && p[j] == q[0];
    assert i > 0 ==> Earlier(nodes, q[0], q[i]);
    assert j > 0 ==> Earlier(nodes, p[0], p[j]);
  }

  lemma TailLists(nodes: map<NodeId, Node>, q: seq<EventId>, evs: set<EventId>)
    requires Lists(nodes, q, evs) && q != []
    ensures Lists(nodes, q[1..], evs - {q[0]})
  {
  }

  /** Sorting by (time, id): insertion, one event at a time. */
  function Insert(nodes: map<NodeId, Node>, q: seq<EventId>, e: EventId): seq<EventId> {
    if q == [] || Earlier(nodes, e, q[0]) then [e] + q else [q[0]] + Insert(nodes, q[1..], e)
  }

  lemma {:induction false} InsertLists(nodes: map<NodeId, Node>, q: seq<EventId>, e: EventId, evs: set<EventId>)
    requires Lists(nodes, q, evs) && e !in evs
    ensures Lists(nodes, Insert(nodes, q, e), evs + {e})
  {
    if q == [] || Earlier(nodes, e, q[0]) {
      var r := [e] + q;
      forall i, j | 0 <= i < j < |r| ensures Earlier(nodes, r[i], r[j]) {
        if i == 0 && j > 1 {
          assert Earlier(nodes, q[0], q[j - 1]);
        }
      }
    } else {
      var r := Insert(nodes, q[1..], e);
      TailLists(nodes, q, evs);
      InsertLists(nodes, q[1..], e, evs - {q[0]});
      assert q[0] in evs;
      forall j | 0 <= j < |r| ensures Earlier(nodes, q[0], r[j]) {
        assert r[j] in evs - {q[0]} + {e};
        if r[j] != e {
          assert r[j] in q;
          var k :| 0 <= k < |q| && q[k] == r[j];
        }
      }
    }
  }

  function Sort(nodes: map<NodeId, Node>, es: seq<EventId>): seq<EventId> {
    if es == [] then [] else Insert(nodes, Sort(nodes, es[..|es| - 1]), es[|es| - 1])
  }

  lemma {:induction false} SortLists(nodes: map<NodeId, Node>, es: seq<EventId>)
    requires forall i, j | 0 <= i < j < |es| :: es[i] != es[j]
    ensures Lists(nodes, Sort(nodes, es), set e | e in es)
  {
    if es != [] {
      var init, last := es[..|es| - 1], es[|es| - 1];
      assert es == init + [last];
      SortLists(nodes, init);
      InsertLists(nodes, Sort(nodes, init), last, set e | e in init);
      assert (set e | e in es) == (set e | e in init) + {last};
    }
  }

  lemma {:induction false} ListingExists(nodes: map<NodeId, Node>, evs: set<EventId>)
    ensures exists q :: Lists(nodes, q, evs)
  {
    if evs == {} {
      assert Lists(nodes, [], evs);
    } else {
      var e :| e in evs;
      ListingExists(nodes, evs - {e});
      var q :| Lists(nodes, q, evs - {e});
      InsertLists(nodes, q, e, evs - {e});
      assert evs - {e} + {e} == evs;
    }
  }

  /** The one listing of a set of events. */
  ghost function Chronology(nodes: map<NodeId, Node>, evs: set<EventId>): (q: seq<EventId>)
    ensures Lists(nodes, q, evs)
  {
    ListingExists(nodes, evs);
    var q :| Lists(nodes, q, evs);
    q
  }

  // ----- What a fact's provenance is -----------------------------------------------------------

  /** The events with an edge to `id`, wherever the edge came from. */
  function Mentioning(edges: map<EdgeId, FactEdge>, id: NodeId): set<EventId> {
    set k | k in edges && k.target == id :: k.event
  }

  /** Those of them that the graph holds as events. */
  function Sources(g: GraphState, id: NodeId): set<EventId> {
    set e | e in Mentioning(g.edges, id) && IsEvent(g.nodes, e)
  }

  function Tools(nodes: map<NodeId, Node>, evs: set<EventId>): set<string> {
    set e | e in evs :: ToolOf(nodes, e)
  }

  /** A node with its provenance recomputed; a fact no event mentions keeps its times. */
  ghost function FilledNode(g: GraphState, id: NodeId, n: Node): Node {
    if !n.Fact? then n
    else
      var q := Chronology(g.nodes, Sources(g, id));
      n.(sourceEvents := q,
         sourceTools := Tools(g.nodes, Sources(g, id)),
         firstSeen := if q == [] then n.firstSeen else At(g.nodes, q[0]),
         lastSeen := if q == [] then n.lastSeen else At(g.nodes, q[|q| - 1]))
  }

  ghost function Filled(g: GraphState, id: NodeId): Node
    requires id in g.nodes
  {
    FilledNode(g, id, g.nodes[id])
  }

  ghost function Backfill(g: GraphState): GraphState {
    g.(nodes := map id | id in g.nodes :: Filled(g, id))
  }
}
