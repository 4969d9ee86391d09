/** The path graph, path selection, and the agreement of the two views of the star topology. */
module PathFinding {
  import opened Core
  import opened GraphModel
  import opened Provenance
  import opened Stores
  import opened Coherence
  import opened Reach
  import opened Traversal

  // ----- The path graph ------------------------------------------------------------------------

  /** Two nodes are joined when two edges of one event lead to them. A node to which one event has
      two edges is joined to itself. */
  ghost predicate Joined(g: GraphState, a: NodeId, b: NodeId) {
    exists j, k :: j in g.edges && k in g.edges && j != k && j.event == k.event && j.target == a && k.target == b
  }

  function AddPair(adj: Adjacency<NodeId>, a: NodeId, b: NodeId): Adjacency<NodeId> {
    var one := adj[a := Next(adj, a) + {b}];
    one[b := Next(one, b) + {a}]
  }

  /** One event's edges, each pair once. */
  method JoinTargets(adj0: Adjacency<NodeId>, es: seq<FactEdge>) returns (adj: Adjacency<NodeId>)
    ensures forall a, b :: b in Next(adj, a) <==> b in Next(adj0, a) || PairUpTo(es, |es|, |es|, a, b)
    ensures adj.Keys >= adj0.Keys
  {
    hide PairOf, PairUpTo, AddPair;
    adj := adj0;
    NoPairs(es, 0, 0, 0);
    for i := 0 to |es|
      invariant forall a, b :: b in Next(adj, a) <==> b in Next(adj0, a) || PairUpTo(es, i, |es|, a, b)
      invariant adj.Keys >= adj0.Keys
    {
      NoPairs(es, 0, i, i + 1);
      PairsUpToGrow(es, i, i + 1, |es|);
      for j := i + 1 to |es|
        invariant forall a, b :: b in Next(adj, a) <==>
                  b in Next(adj0, a) || PairUpTo(es, i, |es|, a, b) || PairOf(es, i, j, a, b)
        invariant adj.Keys >= adj0.Keys
      {
        AddPairAdds(adj, es[i].target, es[j].target);
        PairsOfGrow(es, i, j, j + 1);
        adj := AddPair(adj, es[i].target, es[j].target);
      }
    }
  }

  lemma AddPairAdds(adj: Adjacency<NodeId>, x: NodeId, y: NodeId)
    ensures AddPair(adj, x, y).Keys >= adj.Keys
    ensures forall a, b :: b in Next(AddPair(adj, x, y), a) <==>
            b in Next(adj, a) || (a == x && b == y) || (a == y && b == x)
  {
  }

  lemma NoPairs(es: seq<FactEdge>, n: nat, i: nat, m: nat)
    requires n == 0 && m <= i + 1
    ensures forall a, b :: !PairUpTo(es, n, |es|, a, b) && !PairOf(es, i, m, a, b)
  {
  }

  /** The pairs of edge `i`, with one more partner. */
  lemma PairsOfGrow(es: seq<FactEdge>, i: nat, j: nat, m: nat)
    requires i < j < |es| && m == j + 1
    ensures forall a, b :: PairOf(es, i, m, a, b) <==>
              PairOf(es, i, j, a, b) || (a == es[i].target && b == es[j].target) ||
                  (a == es[j].target && b == es[i].target)
  {
  }

  lemma PairsUpToGrow(es: seq<FactEdge>, i: nat, n: nat, m: nat)
    requires i < |es| && n == i + 1
    ensures forall a, b :: PairUpTo(es, n, m, a, b) <==> PairUpTo(es, i, m, a, b) || PairOf(es, i, m, a, b)
  {
  }

  /** `a` and `b` are the targets of edges `i` and some later edge before `m`, in either order. */
  ghost predicate PairOf(es: seq<FactEdge>, i: nat, m: nat, a: NodeId, b: NodeId) {
    i < |es| && exists j :: i < j < m && j < |es| && IsPair(es[i], es[j], a, b)
  }

  predicate IsPair(x: FactEdge, y: FactEdge, a: NodeId, b: NodeId) {
    (x.target == a && y.target == b) || (x.target == b && y.target == a)
  }

  ghost predicate PairUpTo(es: seq<FactEdge>, n: nat, m: nat, a: NodeId, b: NodeId) {
    exists i :: 0 <= i < n && i < |es| && PairOf(es, i, m, a, b)
  }

  ghost predicate JoinedAt(g: GraphState, ev: EventId, a: NodeId, b: NodeId) {
    exists j, k :: j in g.edges && k in g.edges && j != k && j.event == ev && k.event == ev && j.target == a &&
        k.target == b
  }

  /** `es` lists the edges of the event `ev`, each once. */
  ghost predicate ListsEdges(g: GraphState, ev: EventId, es: seq<FactEdge>) {
    && (forall e | e in es :: e.event == ev && e.Id() in g.edges && g.edges[e.Id()] == e)
    && (forall k | k in g.edges && k.event == ev :: g.edges[k] in es)
    && (forall i, j | 0 <= i < j < |es| :: es[i] != es[j])
  }

  lemma PairsAreJoined(g: GraphState, ev: EventId, es: seq<FactEdge>, a: NodeId, b: NodeId)
    requires WellKeyed(g.edges) && ListsEdges(g, ev, es)
    ensures PairUpTo(es, |es|, |es|, a, b) <==> JoinedAt(g, ev, a, b)
  {
    hide WellKeyed, ListsEdges;
    if PairUpTo(es, |es|, |es|, a, b) {
      var i :| 0 <= i < |es| && PairOf(es, i, |es|, a, b);
      var j :| i < j < |es| && IsPair(es[i], es[j], a, b);
      PairIsJoined(g, ev, es, i, j);
    }
    if JoinedAt(g, ev, a, b) {
      var j, k :| j in g.edges && k in g.edges && j != k && j.event == ev == k.event && j.target == a && k.target == b;
      JoinedIsPair(g, ev, es, j, k);
    }
  }

  lemma JoinedIsPair(g: GraphState, ev: EventId, es: seq<FactEdge>, j: EdgeId, k: EdgeId)
    requires WellKeyed(g.edges) && ListsEdges(g, ev, es)
    requires j in g.edges && k in g.edges && j != k && j.event == ev && k.event == ev
    ensures PairUpTo(es, |es|, |es|, j.target, k.target)
  {
    var x :| 0 <= x < |es| && es[x] == g.edges[j];
    var y :| 0 <= y < |es| && es[y] == g.edges[k];
    assert g.edges[j].Id() == j && g.edges[k].Id() == k;
    if x < y {
      assert PairOf(es, x, |es|, j.target, k.target);
    } else {
      assert PairOf(es, y, |es|, j.target, k.target);
    }
  }

  lemma PairIsJoined(g: GraphState, ev: EventId, es: seq<FactEdge>, i: nat, j: nat)
    requires ListsEdges(g, ev, es) && i < j < |es|
    ensures JoinedAt(g, ev, es[i].target, es[j].target) && JoinedAt(g, ev, es[j].target, es[i].target)
  {
  }

  /** The path graph: with `skipEvents` the facts, joined when they share an event; otherwise the
      whole topology, undirected. */
  method BuildPathGraph(g: GraphState, skipEvents: bool) returns (adj: Adjacency<NodeId>)
    requires Whole(g)
    ensures skipEvents ==> forall a, b :: b in Next(adj, a) <==> Joined(g, a, b)
    ensures !skipEvents ==> forall a, b :: b in Next(adj, a) <==> b in Neighbouring(g, a, Both, false)
  {
    if skipEvents {
      adj := ProjectFacts(g);
    } else {
      adj := Undirected(g);
    }
  }

  /** Joins the targets of each event's edges, two by two. */
  method ProjectFacts(g: GraphState) returns (adj: Adjacency<NodeId>)
    requires Whole(g)
    ensures forall a, b :: b in Next(adj, a) <==> Joined(g, a, b)
  {
    adj := map[];
    var left := set id | id in g.nodes && id.EventUuid? :: id.event;
    ghost var all := left;
    while left != {}
      invariant left <= all
      invariant forall a, b :: b in Next(adj, a) <==> JoinedBy(g, all - left, a, b)
      decreases left
    {
      var ev :| ev in left;
      var es := EdgesForEvent(g, ev);
      adj := JoinTargets(adj, es);
      forall a, b
        ensures b in Next(adj, a) <==> JoinedBy(g, all - (left - {ev}), a, b)
      {
        PairsAreJoined(g, ev, es, a, b);
        JoinedByOneMore(g, all - left, ev, a, b);
        assert all - (left - {ev}) == all - left + {ev};
      }
      left := left - {ev};
    }
    assert all - left == all;
  }

  /** Every edge, in both directions. */
  method Undirected(g: GraphState) returns (adj: Adjacency<NodeId>)
    requires Whole(g)
    ensures forall a, b :: b in Next(adj, a) <==> b in Neighbouring(g, a, Both, false)
  {
    hide Neighbouring, Whole, Linked, Incident;
    adj := map[];
    var left := g.edges.Keys;
    NothingLinked();
    assert g.edges.Keys - left == {};
    while left != {}
      invariant left <= g.edges.Keys
      invariant forall a, b :: b in Next(adj, a) <==> Linked(g.edges.Keys - left, a, b)
      decreases left
    {
      var k :| k in left;
      ghost var done := g.edges.Keys - left;
      adj := AddPair(adj, EventUuid(k.event), k.target);
      left := left - {k};
      assert g.edges.Keys - left == done + {k};
      LinkedOneMore(done, k);
    }
    assert g.edges.Keys - left == g.edges.Keys;
    forall a, b ensures b in Next(adj, a) <==> b in Neighbouring(g, a, Both, false) {
      TopologyNeighbours(g, a, b);
      IncidentIsLinked(g, a, b);
    }
  }

  lemma NothingLinked()
    ensures forall a, b :: !Linked({}, a, b)
  {
  }

  lemma IncidentIsLinked(g: GraphState, a: NodeId, b: NodeId)
    ensures Incident(g, a, b) <==> Linked(g.edges.Keys, a, b)
  {
  }

  lemma LinkedOneMore(done: set<EdgeId>, k: EdgeId)
    ensures forall a, b :: Linked(done + {k}, a, b) <==> Linked(done, a, b) || LinkOf(k, a, b)
  {
  }

  ghost predicate JoinedBy(g: GraphState, evs: set<EventId>, a: NodeId, b: NodeId) {
    exists j, k :: j in g.edges && k in g.edges && j != k && j.event == k.event && j.event in evs && j.target == a &&
        k.target == b
  }

  lemma JoinedByOneMore(g: GraphState, evs: set<EventId>, ev: EventId, a: NodeId, b: NodeId)
    ensures JoinedBy(g, evs + {ev}, a, b) <==> JoinedBy(g, evs, a, b) || JoinedAt(g, ev, a, b)
  {
  }

  ghost predicate LinkOf(k: EdgeId, a: NodeId, b: NodeId) {
    (a == EventUuid(k.event) && b == k.target) || (b == EventUuid(k.event) && a == k.target)
  }

  ghost predicate Linked(ks: set<EdgeId>, a: NodeId, b: NodeId) {
    exists k :: k in ks && LinkOf(k, a, b)
  }

  // ----- The two views -------------------------------------------------------------------------

  ghost predicate IsFact(g: GraphState, n: NodeId) {
    n in g.nodes && g.nodes[n].Fact?
  }

  /** Edges run from events to facts, and a fact's provenance lists the events of its edges. */
  ghost predicate Star(g: GraphState) {
    && (forall k | k in g.edges :: IsFact(g, k.target) && IsEvent(g.nodes, k.event))
    && (forall a | IsFact(g, a) :: !a.EventUuid? && forall e :: e in g.nodes[a].sourceEvents <==>
       e in Mentioning(g.edges, a))
  }

  lemma CoherentIsStar(g: GraphState)
    requires GraphInv(g)
    ensures Star(g)
  {
  }

  ghost predicate Sharing(g: GraphState, a: NodeId, b: NodeId) {
    exists e :: e in Mentioning(g.edges, a) && e in Mentioning(g.edges, b)
  }

  ghost predicate Incident(g: GraphState, a: NodeId, b: NodeId) {
    (a.EventUuid? && a.event in Mentioning(g.edges, b)) || (b.EventUuid? && b.event in Mentioning(g.edges, a))
  }

  /** A view of the facts alone: two of them are adjacent when they share an event. What it makes of
      a fact and itself, or of an event, does not matter. */
  ghost predicate FactView(adj: Adjacency<NodeId>, g: GraphState) {
    forall a, b | IsFact(g, a) && a != b :: b in Next(adj, a) <==> Sharing(g, a, b)
  }

  /** A view of the whole topology: an event is adjacent to the targets of its edges, both ways. */
  ghost predicate Topology(adj: Adjacency<NodeId>, g: GraphState) {
    forall a, b :: b in Next(adj, a) <==> Incident(g, a, b)
  }

  // The views that `explore` walks on and the graphs that `find_path` searches are of these kinds.

  lemma ExploreSeesFacts(g: GraphState, direction: Direction)
    requires Star(g)
    ensures FactView(Hops(g, direction, true), g)
  {
    forall a, b | IsFact(g, a) && a != b
      ensures b in Next(Hops(g, direction, true), a) <==> Sharing(g, a, b)
    {
      SharedNeighbours(g, a, b, direction);
    }
  }

  lemma SharedNeighbours(g: GraphState, a: NodeId, b: NodeId, direction: Direction)
    requires Star(g) && IsFact(g, a) && a != b
    ensures b in Neighbouring(g, a, direction, true) <==> Sharing(g, a, b)
  {
    if e :| e in Mentioning(g.edges, a) && e in Mentioning(g.edges, b) {
      var k :| k in g.edges && k.target == a && k.event == e;
      assert IsEvent(g.nodes, k.event);
      var j :| j in g.edges && j.target == b && j.event == e;
      assert b in Targets(g, e);
    }
    if b in Neighbouring(g, a, direction, true) {
      var e :| e in g.nodes[a].sourceEvents && b in Targets(g, e);
      assert e in Mentioning(g.edges, b);
    }
  }

  lemma ExploreSeesTopology(g: GraphState)
    requires Star(g)
    ensures Topology(Hops(g, Both, false), g)
  {
  }

  lemma TopologyNeighbours(g: GraphState, a: NodeId, b: NodeId)
    ensures b in Neighbouring(g, a, Both, false) <==> Incident(g, a, b)
  {
  }

  lemma ProjectionSeesFacts(g: GraphState, adj: Adjacency<NodeId>)
    requires forall a, b :: b in Next(adj, a) <==> Joined(g, a, b)
    ensures FactView(adj, g)
  {
    forall a, b | a != b ensures Joined(g, a, b) <==> Sharing(g, a, b) {
      JoinedIsSharing(g, a, b);
    }
  }

  lemma JoinedIsSharing(g: GraphState, a: NodeId, b: NodeId)
    requires a != b
    ensures Joined(g, a, b) <==> Sharing(g, a, b)
  {
    if e :| e in Mentioning(g.edges, a) && e in Mentioning(g.edges, b) {
      var j :| j in g.edges && j.target == a && j.event == e;
      var k :| k in g.edges && k.target == b && k.event == e;
    }
    if j, k :| j in g.edges && k in g.edges && j != k && j.event == k.event && j.target == a && k.target == b {
      assert j.event in Mentioning(g.edges, a) && j.event in Mentioning(g.edges, b);
    }
  }

  lemma PathGraphSeesTopology(g: GraphState, adj: Adjacency<NodeId>)
    requires forall a, b :: b in Next(adj, a) <==> b in Neighbouring(g, a, Both, false)
    ensures Topology(adj, g)
  {
  }

  // ----- One hop of facts is two of the topology -----------------------------------------------

  lemma MentionedIsFact(g: GraphState, e: EventId, x: NodeId)
    requires Star(g) && e in Mentioning(g.edges, x)
    ensures IsFact(g, x) && !x.EventUuid?
  {
  }

  /** What being within `m` hops in the topology means for a view of the facts. */
  ghost predicate Halved(g: GraphState, facts: Adjacency<NodeId>, s: NodeId, x: NodeId, m: nat) {
    if x.EventUuid? then m > 0 && exists u ::
        IsFact(g, u) && u in Ball(facts, s, (m - 1) / 2) && x.event in Mentioning(g.edges, u)
    else IsFact(g, x) && x in Ball(facts, s, m / 2)
  }

  lemma HalvedGrows(g: GraphState, facts: Adjacency<NodeId>, s: NodeId, x: NodeId, m: nat)
    requires Halved(g, facts, s, x, m)
    ensures Halved(g, facts, s, x, m + 1)
  {
  }

  lemma HalvedHop(g: GraphState, facts: Adjacency<NodeId>, s: NodeId, y: NodeId, x: NodeId, m: nat)
    requires Star(g) && FactView(facts, g) && Halved(g, facts, s, y, m) && Incident(g, y, x)
    ensures Halved(g, facts, s, x, m + 1)
  {
    if y.EventUuid? && y.event in Mentioning(g.edges, x) {
      MentionedIsFact(g, y.event, x);
      var h: nat := (m - 1) / 2;
      var u :| IsFact(g, u) && u in Ball(facts, s, h) && y.event in Mentioning(g.edges, u);
      assert (m + 1) / 2 == h + 1;
      if u != x {
        assert Sharing(g, u, x) && x in Next(facts, u);
      }
    } else {
      MentionedIsFact(g, x.event, y);
    }
  }

  lemma HalvedStart(g: GraphState, facts: Adjacency<NodeId>, s: NodeId)
    requires Star(g) && IsFact(g, s)
    ensures Halved(g, facts, s, s, 0)
  {
  }

  lemma {:induction false} TopologyHalves(g: GraphState, facts: Adjacency<NodeId>, full: Adjacency<NodeId>,
          s: NodeId, x: NodeId, m: nat)
    requires Star(g) && FactView(facts, g) && Topology(full, g) && IsFact(g, s) && x in Ball(full, s, m)
    ensures Halved(g, facts, s, x, m)
    decreases m
  {
    hide Star, FactView, Halved;
    if m == 0 {
      HalvedStart(g, facts, s);
    }
    if m > 0 {
      var y := LastHop(full, s, x, m);
      TopologyHalves(g, facts, full, s, y, m - 1);
      if x == y {
        HalvedGrows(g, facts, s, x, m - 1);
      } else {
        HalvedHop(g, facts, s, y, x, m - 1);
      }
    }
  }

  lemma {:induction false} FactsDouble(g: GraphState, facts: Adjacency<NodeId>, full: Adjacency<NodeId>, s: NodeId,
                                       t: NodeId, k: nat)
    requires Star(g) && FactView(facts, g) && Topology(full, g) && IsFact(g, s) && t in Ball(facts, s, k)
    ensures IsFact(g, t) && t in Ball(full, s, 2 * k)
    decreases k
  {
    hide Star, Topology;
    if k > 0 {
      var u := LastHop(facts, s, t, k);
      FactsDouble(g, facts, full, s, u, k - 1);
      if t == u {
        BallGrows(full, s, 2 * (k - 1), 2 * k);
      } else {
        assert Sharing(g, u, t);
        SharedHop(g, full, s, u, t, 2 * (k - 1));
      }
    }
  }

  lemma SharedHop(g: GraphState, full: Adjacency<NodeId>, s: NodeId, u: NodeId, t: NodeId, m: nat)
    requires Star(g) && Topology(full, g) && u in Ball(full, s, m) && Sharing(g, u, t)
    ensures IsFact(g, t) && t in Ball(full, s, m + 2)
  {
    var e :| e in Mentioning(g.edges, u) && e in Mentioning(g.edges, t);
    MentionedIsFact(g, e, t);
    assert Incident(g, u, EventUuid(e)) && Incident(g, EventUuid(e), t);
    TwoHops(full, s, u, EventUuid(e), t, m);
  }

  lemma TwoHops(adj: Adjacency<NodeId>, s: NodeId, u: NodeId, v: NodeId, t: NodeId, m: nat)
    requires u in Ball(adj, s, m) && v in Next(adj, u) && t in Next(adj, v)
    ensures t in Ball(adj, s, m + 2)
  {
  }

  /** The two views agree: between facts, `n` hops of the whole undirected topology reach exactly
      as far as `n / 2` hops with events transparent, so every distance in the first is twice the
      distance in the second. */
  lemma DistancesDouble(g: GraphState, facts: Adjacency<NodeId>, full: Adjacency<NodeId>, s: NodeId, t: NodeId, n: nat)
    requires Star(g) && FactView(facts, g) && Topology(full, g) && IsFact(g, s) && IsFact(g, t)
    ensures t in Ball(full, s, n) <==> t in Ball(facts, s, n / 2)
  {
    if t in Ball(full, s, n) {
      TopologyHalves(g, facts, full, s, t, n);
    }
    if t in Ball(facts, s, n / 2) {
      FactsDouble(g, facts, full, s, t, n / 2);
      BallGrows(full, s, 2 * (n / 2), n);
    }
  }

  lemma FoundIsBall(adj: Adjacency<NodeId>, s: NodeId, d: nat, cap: int, found: seq<NodeId>, t: NodeId)
    requires Explored(adj, s, d, cap, found, false)
    ensures t in found <==> t != s && t in Ball(adj, s, d)
  {
  }

  /** Uncut explorations of the two views to depths `d` and `2 * d` find the same facts. */
  lemma ExploreViewsAgree(g: GraphState, s: NodeId, direction: Direction, d: nat, cap1: int, cap2: int,
                          found1: seq<NodeId>, found2: seq<NodeId>)
    requires Star(g) && IsFact(g, s)
    requires Explored(Hops(g, direction, true), s, d, cap1, found1, false)
    requires Explored(Hops(g, Both, false), s, 2 * d, cap2, found2, false)
    ensures forall t :: t in found1 <==> t in found2 && IsFact(g, t)
  {
    hide Hops, GraphInv, Ball, Explored;
    var facts, full := Hops(g, direction, true), Hops(g, Both, false);
    ExploreSeesFacts(g, direction);
    ExploreSeesTopology(g);
    forall t ensures t in found1 <==> t in found2 && IsFact(g, t) {
      FoundIsBall(facts, s, d, cap1, found1, t);
      FoundIsBall(full, s, 2 * d, cap2, found2, t);
      if t in Ball(facts, s, d) {
        FactsDouble(g, facts, full, s, t, d);
      }
      if IsFact(g, t) {
        DistancesDouble(g, facts, full, s, t, 2 * d);
      }
    }
  }

  /** The notice that nodes were elided is printed whenever the cap is reached. It is right unless
      the cap is exactly the number of nodes within depth. */
  lemma ElisionNotice(adj: Adjacency<NodeId>, start: NodeId, depth: int, maxNodes: int, found: seq<NodeId>,
                      overflow: bool)
    requires Explored(adj, start, depth, maxNodes, found, overflow)
    ensures var all := Ball(adj, start, if depth < 0 then 0 else depth);
            (overflow <==> Visited(start, found) != all) <==> |all| - 1 != Cap(maxNodes)
  {
    hide Ball;
    var all := Ball(adj, start, if depth < 0 then 0 else depth);
    NoRepeatsSize(start, found);
    assert all == Visited(start, found) + (all - Visited(start, found));
  }

  /** One event that saw two facts, as a store holds it. */
  function TwoFacts(a: Key, b: Key): Store {
    var ea, eb := FactEdge(0, FactNodeId(a), "", ""), FactEdge(0, FactNodeId(b), "", "");
    Store(map[EventUuid(0) := EventRecord(0, "", 0, map[]),
              FactNodeId(a) := FactRecord(FactNodeId(a), a.nodeType, a.canonical, a.canonical),
              FactNodeId(b) := FactRecord(FactNodeId(b), b.nodeType, b.canonical, b.canonical)],
          map[ea.Id() := ea, eb.Id() := eb])
  }

  lemma TwoFactsAreSound(a: Key, b: Key)
    requires FactNodeId(a) != FactNodeId(b)
    ensures StoreInv(TwoFacts(a, b)) && StoredEvent(TwoFacts(a, b), 0)
    ensures forall e :: SeenIn(TwoFacts(a, b), e, FactNodeId(a)) <==> e == 0
    ensures forall k :: k in TwoFacts(a, b).edges <==>
            k == EdgeId(0, "", FactNodeId(a)) || k == EdgeId(0, "", FactNodeId(b))
  {
    assert EdgeId(0, "", FactNodeId(a)) in TwoFacts(a, b).edges;
  }

  lemma TwoFactsHops(a: Key, b: Key, direction: Direction)
    requires FactNodeId(a) != FactNodeId(b)
    ensures var g := LoadState(TwoFacts(a, b));
            IsFact(g, FactNodeId(a)) && Next(Hops(g, direction, true), FactNodeId(a)) == {FactNodeId(b)}
  {
    var s, g, fa, fb := TwoFacts(a, b), LoadState(TwoFacts(a, b)), FactNodeId(a), FactNodeId(b);
    assert fa in s.nodes && s.nodes[fa].FactRecord?;
    TwoFactsAreSound(a, b);
    LoadedProvenanceIs(s, fa);
    LoadedEvents(s);
    assert g.edges == s.edges;
    hide LoadState, SeenIn, TwoFacts, StoreInv;
    assert Targets(g, 0) == {fa, fb} by {
      assert EdgeId(0, "", fa) in g.edges && EdgeId(0, "", fb) in g.edges;
    }
    assert Neighbouring(g, fa, direction, true) == {fb} by {
      assert 0 in g.nodes[fa].sourceEvents;
    }
  }

  lemma LoadedEvents(s: Store)
    ensures forall e :: IsEvent(LoadState(s).nodes, e) <==> StoredEvent(s, e)
  {
    forall e ensures IsEvent(LoadState(s).nodes, e) <==> StoredEvent(s, e) {
      if EventUuid(e) in LoadState(s).nodes {
        assert LoadState(s).nodes[EventUuid(e)] == Filled(Frame(s), EventUuid(e));
      }
    }
  }

  /** The wrong notice does occur: in the graph loaded from a store of one event with two facts,
      exploring from one of them to depth 1 with a cap of 1 finds everything and still overflows. */
  lemma ElisionNoticeWrong(a: Key, b: Key, direction: Direction)
    requires FactNodeId(a) != FactNodeId(b)
    ensures var g, start, found := LoadState(TwoFacts(a, b)), FactNodeId(a), [FactNodeId(b)];
            var adj := Hops(g, direction, true);
            && StoreInv(TwoFacts(a, b)) && IsFact(g, start)
            && Explored(adj, start, 1, 1, found, true) && Visited(start, found) == Ball(adj, start, 1)
  {
    TwoFactsAreSound(a, b);
    TwoFactsHops(a, b, direction);
    hide LoadState, Hops, TwoFacts, StoreInv, Explored, Ball, Next, Visited;
    CutWithNothingLeft(Hops(LoadState(TwoFacts(a, b)), direction, true), FactNodeId(a), FactNodeId(b));
  }

  lemma CutWithNothingLeft(adj: Adjacency<NodeId>, a: NodeId, b: NodeId)
    requires a != b && Next(adj, a) == {b}
    ensures Explored(adj, a, 1, 1, [b], true) && Visited(a, [b]) == Ball(adj, a, 1)
  {
    assert Ball(adj, a, 0) == {a};
    assert NextAll(adj, {a}) == {b};
    assert Ball(adj, a, 1) == {a, b} == Visited(a, [b]);
    assert Ball(adj, a, 0) <= Visited(a, [b]) <= Ball(adj, a, 0 + 1);
  }

  // ----- Path selection ------------------------------------------------------------------------

  /** The simple paths from `s` to `t`, each once, shorter ones first. */
  ghost predicate IsEnumeration(paths: seq<seq<NodeId>>, adj: Adjacency<NodeId>, s: NodeId, t: NodeId) {
    && (forall p :: p in paths <==> IsWalk(adj, p, s, t) && Simple(p))
    && (forall i, j | 0 <= i < j < |paths| :: paths[i] != paths[j] && |paths[i]| <= |paths[j]|)
  }

  /** The selection loop: stop at the first path that is too long, or when there are enough. */
  method SelectPaths(paths: seq<seq<NodeId>>, maxDepth: int, top: int) returns (chosen: seq<seq<NodeId>>)
    requires top >= 1
    ensures |chosen| <= |paths| && chosen == paths[..|chosen|] && |chosen| <= top
    ensures forall p | p in chosen :: |p| - 1 <= maxDepth
    ensures |chosen| < |paths| && |chosen| < top ==> |paths[|chosen|]| - 1 > maxDepth
  {
    chosen := [];
    var i := 0;
    while i < |paths|
      invariant i <= |paths| && chosen == paths[..i] && i < top
      invariant forall p | p in chosen :: |p| - 1 <= maxDepth
    {
      if |paths[i]| - 1 > maxDepth {
        return;
      }
      chosen := chosen + [paths[i]];
      i := i + 1;
      if |chosen| >= top {
        return;
      }
    }
  }

  /** A path `find_path` may return. */
  ghost predicate Fits(adj: Adjacency<NodeId>, s: NodeId, t: NodeId, maxDepth: int, p: seq<NodeId>) {
    IsWalk(adj, p, s, t) && Simple(p) && |p| - 1 <= maxDepth
  }

  /** The chosen paths fit, and none is left out unless `top` others, none of them longer, are chosen. */
  ghost predicate BestOf(adj: Adjacency<NodeId>, s: NodeId, t: NodeId, maxDepth: int, top: int,
                         chosen: seq<seq<NodeId>>) {
    && (forall p | p in chosen :: Fits(adj, s, t, maxDepth, p))
    && (forall i, j | 0 <= i < j < |chosen| :: chosen[i] != chosen[j])
    && |chosen| <= top
    && (forall q | Fits(adj, s, t, maxDepth, q) && q !in chosen ::
          |chosen| == top && forall p | p in chosen :: |p| <= |q|)
  }

  /** What `find_path` returns: the `top` shortest simple paths within the depth, or all of them if
      there are fewer; some path exactly when the target is within the depth, and then a shortest. */
  ghost predicate ShortestPaths(adj: Adjacency<NodeId>, s: NodeId, t: NodeId, maxDepth: int, top: int,
                                chosen: seq<seq<NodeId>>) {
    && BestOf(adj, s, t, maxDepth, top, chosen)
    && (chosen != [] <==> maxDepth >= 0 && t in Ball(adj, s, maxDepth))
    && (chosen != [] ==> AtDistance(adj, s, t, |chosen[0]| - 1))
  }

  lemma SelectionIsShortest(paths: seq<seq<NodeId>>, adj: Adjacency<NodeId>, s: NodeId, t: NodeId, maxDepth: int,
                            top: int, chosen: seq<seq<NodeId>>)
    requires IsEnumeration(paths, adj, s, t) && top >= 1
    requires |chosen| <= |paths| && chosen == paths[..|chosen|] && |chosen| <= top
    requires forall p | p in chosen :: |p| - 1 <= maxDepth
    requires |chosen| < |paths| && |chosen| < top ==> |paths[|chosen|]| - 1 > maxDepth
    ensures ShortestPaths(adj, s, t, maxDepth, top, chosen)
  {
    SelectionIsBest(paths, adj, s, t, maxDepth, top, chosen);
    BestMeansReached(adj, s, t, maxDepth, top, chosen);
    if chosen != [] {
      FirstIsShortest(paths, adj, s, t, chosen[0]);
    }
  }

  lemma SelectionIsBest(paths: seq<seq<NodeId>>, adj: Adjacency<NodeId>, s: NodeId, t: NodeId, maxDepth: int,
                        top: int, chosen: seq<seq<NodeId>>)
    requires IsEnumeration(paths, adj, s, t)
    requires |chosen| <= |paths| && chosen == paths[..|chosen|] && |chosen| <= top
    requires forall p | p in chosen :: |p| - 1 <= maxDepth
    requires |chosen| < |paths| && |chosen| < top ==> |paths[|chosen|]| - 1 > maxDepth
    ensures BestOf(adj, s, t, maxDepth, top, chosen)
  {
  }

  lemma BestMeansReached(adj: Adjacency<NodeId>, s: NodeId, t: NodeId, maxDepth: int, top: int,
                         chosen: seq<seq<NodeId>>)
    requires BestOf(adj, s, t, maxDepth, top, chosen) && top >= 1
    ensures chosen != [] <==> maxDepth >= 0 && t in Ball(adj, s, maxDepth)
  {
    hide Ball, Simple;
    if chosen != [] {
      assert Fits(adj, s, t, maxDepth, chosen[0]);
    }
    if maxDepth >= 0 {
      BallIsWalks(adj, s, t, maxDepth);
      if p :| IsWalk(adj, p, s, t) && Simple(p) && |p| - 1 <= maxDepth {
        assert Fits(adj, s, t, maxDepth, p);
      }
    }
  }

  lemma FirstIsShortest(paths: seq<seq<NodeId>>, adj: Adjacency<NodeId>, s: NodeId, t: NodeId, first: seq<NodeId>)
    requires IsEnumeration(paths, adj, s, t) && paths != [] && first == paths[0]
    ensures IsWalk(adj, first, s, t) && AtDistance(adj, s, t, |first| - 1)
  {
    assert first in paths;
    WalkStaysInBall(adj, first, s, t, |first| - 1);
    if |first| - 1 > 0 {
      BallIsWalks(adj, s, t, |first| - 2);
      forall p | IsWalk(adj, p, s, t) && Simple(p) ensures |first| <= |p| {
        assert p in paths;
        var i :| 0 <= i < |paths| && paths[i] == p;
      }
    }
  }

  // ----- The tools against each other ----------------------------------------------------------

  /** `find_path` on the fact projection finds a path of at most `d` hops exactly when an uncut
      `explore` to depth `d` finds the target, exactly when `find_path` on the whole topology finds
      one of at most `2 * d` hops; and the shortest of the latter is twice as long. */
  lemma FindPathMeetsExplore(g: GraphState, s: NodeId, t: NodeId, d: nat, top: int, cap: int, direction: Direction,
                             proj: Adjacency<NodeId>, full: Adjacency<NodeId>,
                             short: seq<seq<NodeId>>, long: seq<seq<NodeId>>, found: seq<NodeId>)
    requires Star(g) && IsFact(g, s) && IsFact(g, t) && s != t
    requires forall a, b :: b in Next(proj, a) <==> Joined(g, a, b)
    requires forall a, b :: b in Next(full, a) <==> b in Neighbouring(g, a, Both, false)
    requires ShortestPaths(proj, s, t, d, top, short) && ShortestPaths(full, s, t, 2 * d, top, long)
    requires Explored(Hops(g, direction, true), s, d, cap, found, false)
    ensures (short != [] <==> t in found) && (long != [] <==> t in found)
    ensures short != [] ==> |long[0]| - 1 == 2 * (|short[0]| - 1)
  {
    FoundIsBall(Hops(g, direction, true), s, d, cap, found, t);
    PathsMeanDistance(proj, s, t, d, top, short);
    PathsMeanDistance(full, s, t, 2 * d, top, long);
    ExploreSeesFacts(g, direction);
    ProjectionSeesFacts(g, proj);
    PathGraphSeesTopology(g, full);
    PathsMeet(g, Hops(g, direction, true), proj, full, s, t, d, short, long);
  }

  /** `chosen` tells whether `t` is within `d` hops, and if so how far it is. */
  ghost predicate Tells(adj: Adjacency<NodeId>, s: NodeId, t: NodeId, d: nat, chosen: seq<seq<NodeId>>) {
    && (chosen != [] <==> t in Ball(adj, s, d))
    && (chosen != [] ==> chosen[0] != [] && AtDistance(adj, s, t, |chosen[0]| - 1))
  }

  lemma PathsMeanDistance(adj: Adjacency<NodeId>, s: NodeId, t: NodeId, d: nat, top: int, chosen: seq<seq<NodeId>>)
    requires ShortestPaths(adj, s, t, d, top, chosen)
    ensures Tells(adj, s, t, d, chosen)
  {
  }

  lemma PathsMeet(g: GraphState, hops: Adjacency<NodeId>, proj: Adjacency<NodeId>, full: Adjacency<NodeId>,
                  s: NodeId, t: NodeId, d: nat,
                  short: seq<seq<NodeId>>, long: seq<seq<NodeId>>)
    requires Star(g) && FactView(hops, g) && FactView(proj, g) && Topology(full, g) && IsFact(g, s) && IsFact(g, t)
    requires s != t
    requires Tells(proj, s, t, d, short) && Tells(full, s, t, 2 * d, long)
    ensures (short != [] <==> t in Ball(hops, s, d)) && (long != [] <==> t in Ball(hops, s, d))
    ensures short != [] ==> long[0] != [] && |long[0]| - 1 == 2 * (|short[0]| - 1)
  {
    ThreeViews(g, hops, proj, full, s, t, d);
    if short != [] {
      DistanceDoubles(g, proj, full, s, t, |short[0]| - 1, |long[0]| - 1);
    }
  }

  lemma ThreeViews(g: GraphState, hops: Adjacency<NodeId>, proj: Adjacency<NodeId>, full: Adjacency<NodeId>,
                   s: NodeId, t: NodeId, d: nat)
    requires Star(g) && FactView(hops, g) && FactView(proj, g) && Topology(full, g) && IsFact(g, s) && IsFact(g, t)
    ensures t in Ball(proj, s, d) <==> t in Ball(hops, s, d)
    ensures t in Ball(full, s, 2 * d) <==> t in Ball(hops, s, d)
  {
    DistancesDouble(g, proj, full, s, t, 2 * d);
    DistancesDouble(g, hops, full, s, t, 2 * d);
  }

  lemma DistanceDoubles(g: GraphState, facts: Adjacency<NodeId>, full: Adjacency<NodeId>, s: NodeId, t: NodeId,
                        x: nat, y: nat)
    requires Star(g) && FactView(facts, g) && Topology(full, g) && IsFact(g, s) && IsFact(g, t) && s != t
    requires AtDistance(facts, s, t, x) && AtDistance(full, s, t, y)
    ensures y == 2 * x
  {
    DistancesDouble(g, facts, full, s, t, 2 * x);
    assert 2 * x / 2 == x && t in Ball(full, s, 2 * x);
    DistancesDouble(g, facts, full, s, t, y);
    DoubledDistance(facts, full, s, t, x, y);
  }

  lemma DoubledDistance(facts: Adjacency<NodeId>, full: Adjacency<NodeId>, s: NodeId, t: NodeId, x: nat, y: nat)
    requires s != t && AtDistance(facts, s, t, x) && AtDistance(full, s, t, y)
    requires t in Ball(full, s, 2 * x) && t in Ball(facts, s, y / 2)
    ensures y == 2 * x
  {
    if y < 2 * x {
      BallGrows(facts, s, y / 2, x - 1);
    } else if y > 2 * x {
      BallGrows(full, s, 2 * x, y - 1);
    }
  }
}
