/** The traversal tools: neighbours, breadth-first exploration, the path graph and path selection. */
module Traversal {
  import opened Core
  import opened GraphModel
  import opened Provenance
  import opened Stores
  import opened Coherence
  import opened Reach

  datatype Direction = Out | In | Both

  /** The targets of an event's edges. */
  function Targets(g: GraphState, ev: EventId): set<NodeId> {
    set k | k in g.edges && k.event == ev :: k.target
  }

  /** The neighbours of a node as the tool sees them: events are transparent or are hops. */
  function Neighbouring(g: GraphState, n: NodeId, direction: Direction, skipEvents: bool): set<NodeId> {
    if skipEvents && n in g.nodes && g.nodes[n].Fact? then
      (set ev, t | ev in g.nodes[n].sourceEvents && IsEvent(g.nodes, ev) && t in Targets(g, ev) :: t) - {n}
    else if skipEvents && n.EventUuid? then Targets(g, n.event)
    else
      (if direction != In && n.EventUuid? then Targets(g, n.event) else {})
      + (if direction != Out then set e | e in Mentioning(g.edges, n) :: EventUuid(e) else {})
  }

  /** An edge runs from the node `a` to the node `b`. */
  ghost predicate Runs(g: GraphState, a: NodeId, b: NodeId) {
    exists k :: k in g.edges && EventUuid(k.event) == a && k.target == b
  }

  /** What a neighbour is, by the edges: with events skipped, from a fact, another target of an event
      the fact lists; from an event a target; otherwise the end of an edge out of the node, or the
      start of one into it, or either. */
  ghost predicate IsNeighbour(g: GraphState, n: NodeId, x: NodeId, direction: Direction, skipEvents: bool) {
    if skipEvents && n in g.nodes && g.nodes[n].Fact? then
      x != n && exists ev :: ev in g.nodes[n].sourceEvents && IsEvent(g.nodes, ev) && Runs(g, EventUuid(ev), x)
    else if skipEvents && n.EventUuid? then Runs(g, n, x)
    else
      match direction
      case Out => Runs(g, n, x)
      case In => Runs(g, x, n)
      case Both => Runs(g, n, x) || Runs(g, x, n)
  }

  lemma TargetsAre(g: GraphState, ev: EventId, x: NodeId)
    ensures x in Targets(g, ev) <==> Runs(g, EventUuid(ev), x)
  {
  }

  lemma MentioningIs(g: GraphState, n: NodeId, x: NodeId)
    ensures (x.EventUuid? && x.event in Mentioning(g.edges, n)) <==> Runs(g, x, n)
  {
  }

  lemma NeighbouringIs(g: GraphState, n: NodeId, x: NodeId, direction: Direction, skipEvents: bool)
    ensures x in Neighbouring(g, n, direction, skipEvents) <==> IsNeighbour(g, n, x, direction, skipEvents)
  {
    hide Targets, Mentioning, Runs, IsEvent;
    forall ev ensures x in Targets(g, ev) <==> Runs(g, EventUuid(ev), x) {
      TargetsAre(g, ev, x);
    }
    MentioningIs(g, n, x);
    if n.EventUuid? && Runs(g, n, x) {
      assert x in Targets(g, n.event);
    }
    if !n.EventUuid? {
      FactsRunNowhere(g, n, x);
    }
  }

  lemma FactsRunNowhere(g: GraphState, n: NodeId, x: NodeId)
    requires !n.EventUuid?
    ensures !Runs(g, n, x)
  {
  }

  /** The graph `explore` walks on. */
  function Hops(g: GraphState, direction: Direction, skipEvents: bool): Adjacency<NodeId> {
    map n | n in g.nodes :: Neighbouring(g, n, direction, skipEvents)
  }

  /** Every node has its object and every edge its end points, as in a graph loaded from a store
      at one instant: no lookup of a node's object can fail. The tools never change the graph they
      load, so they are stated on its value. */
  ghost predicate Whole(g: GraphState) {
    && WellKeyed(g.edges)
    && (forall id | id in g.nodes :: !g.nodes[id].Bare?)
    && (forall k | k in g.edges :: EventUuid(k.event) in g.nodes && k.target in g.nodes)
  }

  lemma CoherentIsWhole(g: GraphState)
    requires GraphInv(g)
    ensures Whole(g)
  {
  }

  // ----- Neighbours ----------------------------------------------------------------------------

  function TargetsIn(es: seq<FactEdge>): set<NodeId> {
    set e | e in es :: e.target
  }

  /** The edges out of an event, in an order the graph chooses. */
  method EdgesForEvent(g: GraphState, ev: EventId) returns (out: seq<FactEdge>)
    requires Whole(g)
    ensures TargetsIn(out) == Targets(g, ev)
    ensures forall e | e in out :: e.event == ev && e.Id() in g.edges && g.edges[e.Id()] == e
    ensures forall k | k in g.edges && k.event == ev :: g.edges[k] in out
    ensures forall i, j | 0 <= i < j < |out| :: out[i] != out[j]
  {
    out := [];
    var left := set k | k in g.edges && k.event == ev;
    while left != {}
      invariant forall e | e in out :: e.event == ev && e.Id() in g.edges && g.edges[e.Id()] == e && e.Id() !in left
      invariant forall k | k in g.edges && k.event == ev :: k in left || g.edges[k] in out
      invariant forall i, j | 0 <= i < j < |out| :: out[i] != out[j]
      decreases left
    {
      var k :| k in left;
      left := left - {k};
      assert g.edges[k].Id() == k;
      out := out + [g.edges[k]];
    }
    TargetsListed(g, ev, out);
  }

  lemma TargetsListed(g: GraphState, ev: EventId, out: seq<FactEdge>)
    requires WellKeyed(g.edges)
    requires forall e | e in out :: e.event == ev && e.Id() in g.edges && g.edges[e.Id()] == e
    requires forall k | k in g.edges && k.event == ev :: g.edges[k] in out
    ensures TargetsIn(out) == Targets(g, ev)
  {
  }

  /** The events with an edge into a node. */
  method EventsInto(g: GraphState, n: NodeId) returns (out: seq<NodeId>)
    ensures forall x :: x in out <==> x.EventUuid? && x.event in Mentioning(g.edges, n)
  {
    out := [];
    var left := set k | k in g.edges && k.target == n;
    while left != {}
      invariant left <= set k | k in g.edges && k.target == n
      invariant forall x :: x in out <==>
                exists k :: k in g.edges && k.target == n && k !in left && x == EventUuid(k.event)
      decreases left
    {
      var k :| k in left;
      left := left - {k};
      out := out + [EventUuid(k.event)];
    }
  }

  /** What the neighbour generator yields, repeats and all. */
  method Neighbours(g: GraphState, n: NodeId, direction: Direction, skipEvents: bool) returns (out: seq<NodeId>)
    requires Whole(g) && n in g.nodes
    ensures forall x :: x in out <==> IsNeighbour(g, n, x, direction, skipEvents)
    ensures forall x :: x in out <==> x in Neighbouring(g, n, direction, skipEvents)
  {
    hide IsNeighbour;
    forall x ensures x in Neighbouring(g, n, direction, skipEvents) <==> IsNeighbour(g, n, x, direction, skipEvents) {
      NeighbouringIs(g, n, x, direction, skipEvents);
    }
    if skipEvents && g.nodes[n].Fact? {
      out := FactNeighbours(g, n);
      return;
    }
    if skipEvents && n.EventUuid? {
      var es := EdgesForEvent(g, n.event);
      out := TargetList(es);
      return;
    }
    out := [];
    if direction != In && n.EventUuid? {
      var es := EdgesForEvent(g, n.event);
      out := TargetList(es);
    }
    if direction != Out {
      var into := EventsInto(g, n);
      out := out + into;
    }
  }

  function TargetList(es: seq<FactEdge>): (ts: seq<NodeId>)
    ensures forall x :: x in ts <==> x in TargetsIn(es)
  {
    if es == [] then [] else TargetList(es[..|es| - 1]) + [es[|es| - 1].target]
  }

  /** The targets of the known events among `evs`. */
  function EventTargets(g: GraphState, evs: seq<EventId>): set<NodeId> {
    if evs == [] then {}
    else
      var ev := evs[|evs| - 1];
      EventTargets(g, evs[..|evs| - 1]) + if IsEvent(g.nodes, ev) then Targets(g, ev) else {}
  }

  lemma {:induction false} EventTargetsAre(g: GraphState, evs: seq<EventId>)
    ensures EventTargets(g, evs) == set ev, t | ev in evs && IsEvent(g.nodes, ev) && t in Targets(g, ev) :: t
  {
    if evs != [] {
      var init, ev := evs[..|evs| - 1], evs[|evs| - 1];
      assert evs == init + [ev];
      EventTargetsAre(g, init);
    }
  }

  /** The facts that share an event with the fact `n`. */
  method FactNeighbours(g: GraphState, n: NodeId) returns (out: seq<NodeId>)
    requires Whole(g) && n in g.nodes && g.nodes[n].Fact?
    ensures forall x :: x in out <==> x in Neighbouring(g, n, Both, true)
  {
    var events := g.nodes[n].sourceEvents;
    out := [];
    for i := 0 to |events|
      invariant forall x :: x in out <==> x != n && x in EventTargets(g, events[..i])
    {
      var ts := SharedBy(g, events[i], n);
      assert events[..i + 1][..i] == events[..i];
      out := out + ts;
    }
    assert events[..|events|] == events;
    EventTargetsAre(g, events);
    assert Neighbouring(g, n, Both, true) == EventTargets(g, events) - {n};
  }

  /** The other targets of one source event, if the graph holds that event. */
  method SharedBy(g: GraphState, ev: EventId, n: NodeId) returns (ts: seq<NodeId>)
    requires Whole(g)
    ensures forall x :: x in ts <==> x != n && IsEvent(g.nodes, ev) && x in Targets(g, ev)
  {
    if IsEvent(g.nodes, ev) {
      var es := EdgesForEvent(g, ev);
      ts := OthersOf(es, n);
    } else {
      ts := [];
    }
  }

  function OthersOf(es: seq<FactEdge>, n: NodeId): (ts: seq<NodeId>)
    ensures forall x :: x in ts <==> x in TargetsIn(es) && x != n
  {
    if es == [] then []
    else
      var t := es[|es| - 1].target;
      OthersOf(es[..|es| - 1], n) + if t == n then [] else [t]
  }

  // ----- Explore -------------------------------------------------------------------------------

  ghost function Cap(maxNodes: int): nat {
    if maxNodes < 1 then 1 else maxNodes
  }

  /** Where a breadth-first search from `start` may stand after the rounds before `d`. */
  ghost predicate Round(adj: Adjacency<NodeId>, start: NodeId, d: nat, visited: set<NodeId>, frontier: set<NodeId>) {
    && visited == Ball(adj, start, d)
    && frontier <= visited
    && NextAll(adj, visited) <= visited + NextAll(adj, frontier)
  }

  /** The search before round `d`. */
  ghost predicate Standing(adj: Adjacency<NodeId>, start: NodeId, d: nat, found: seq<NodeId>, frontier: set<NodeId>,
                           maxNodes: int) {
    && Round(adj, start, d, Visited(start, found), frontier)
    && NoRepeats(start, found) && UnderCap(found, maxNodes)
  }

  /** Breadth-first search to `depth` hops, cut at `maxNodes` nodes. Frontier and neighbours may
      come in any order. */
  method Explore(g: GraphState, start: NodeId, depth: int, direction: Direction, skipEvents: bool, maxNodes: int)
      returns (found: seq<NodeId>, overflow: bool)
    requires Whole(g) && start in g.nodes && g.nodes[start].Fact?
    ensures Explored(Hops(g, direction, skipEvents), start, depth, maxNodes, found, overflow)
    ensures GraphInv(g) && !skipEvents && direction.Out? ==> found == [] && !overflow
    ensures GraphInv(g) && !skipEvents && direction.In? && depth >= 1 && !overflow ==>
              forall x :: x in found <==> Runs(g, x, start)
  {
    hide Hops, Standing, Explored, Whole, GraphInv, Runs;
    ghost var adj := Hops(g, direction, skipEvents);
    found, overflow := [], false;
    var frontier: set<NodeId> := {start};
    var d := 0;
    Begin(adj, start, maxNodes);
    while d < depth
      invariant 0 <= d && (d <= depth || d == 0) && !overflow
      invariant Standing(adj, start, d, found, frontier, maxNodes) && frontier <= g.nodes.Keys
      decreases depth - d
    {
      var next;
      ghost var found0 := found;
      StandingMeans(adj, start, d, found, frontier, maxNodes);
      found, next, overflow := ExploreRound(g, adj, start, frontier, found, direction, skipEvents, maxNodes);
      RoundResult(adj, start, d, found0, frontier, found, next, overflow, depth, maxNodes);
      if overflow || next == {} {
        ByDirection(g, start, depth, direction, skipEvents, maxNodes, found, overflow);
        return;
      }
      d, frontier := d + 1, next;
    }
    StandingMeans(adj, start, d, found, frontier, maxNodes);
    Complete(adj, start, depth, maxNodes, found);
    ByDirection(g, start, depth, direction, skipEvents, maxNodes, found, overflow);
  }

  /** Along the edges there is nothing to be found from a fact. */
  lemma OutFindsNothing(g: GraphState, start: NodeId, depth: int, maxNodes: int, found: seq<NodeId>, overflow: bool)
    requires GraphInv(g) && start in g.nodes && g.nodes[start].Fact?
    requires Explored(Hops(g, Out, false), start, depth, maxNodes, found, overflow)
    ensures found == [] && !overflow
  {
    var adj := Hops(g, Out, false);
    FactStart(g, start);
    assert Next(adj, start) == {} by {
      forall x ensures x !in Next(adj, start) {
        NeighbouringIs(g, start, x, Out, false);
        FactsRunNowhere(g, start, x);
      }
    }
    var all := Ball(adj, start, if depth < 0 then 0 else depth);
    ClosedHoldsBall(adj, {start}, start, if depth < 0 then 0 else depth);
    SubsetSize(all, {start});
    NoRepeatsSize(start, found);
    SubsetSize(Visited(start, found), {start});
  }

  lemma FactStart(g: GraphState, start: NodeId)
    requires GraphInv(g) && start in g.nodes && g.nodes[start].Fact?
    ensures !start.EventUuid?
  {
  }

  /** Against the edges, from a fact, there are its events, and no more behind them. */
  lemma InFindsEvents(g: GraphState, start: NodeId, depth: int, maxNodes: int, found: seq<NodeId>)
    requires GraphInv(g) && start in g.nodes && g.nodes[start].Fact? && depth >= 1
    requires Explored(Hops(g, In, false), start, depth, maxNodes, found, false)
    ensures forall x :: x in found <==> Runs(g, x, start)
  {
    var adj := Hops(g, In, false);
    FactStart(g, start);
    forall n, x | n in g.nodes ensures x in Next(adj, n) <==> Runs(g, x, n) {
      NeighbouringIs(g, n, x, In, false);
    }
    forall x, y ensures !(Runs(g, x, start) && Runs(g, y, x)) {
      TwoRuns(g, y, x, start);
    }
    var events := Next(adj, start);
    InBall(adj, start, events, depth);
    forall x ensures x in found <==> x in Visited(start, found) && x != start {
    }
    forall x | Runs(g, x, start) ensures x != start {
    }
  }

  /** No edge leads to where another one starts. */
  lemma TwoRuns(g: GraphState, a: NodeId, b: NodeId, c: NodeId)
    requires GraphInv(g)
    ensures !(Runs(g, a, b) && Runs(g, b, c))
  {
  }

  lemma InBall(adj: Adjacency<NodeId>, start: NodeId, events: set<NodeId>, depth: int)
    requires depth >= 1 && Next(adj, start) == events && forall x | x in events :: Next(adj, x) == {}
    ensures Ball(adj, start, depth) == {start} + events
  {
    ClosedHoldsBall(adj, {start} + events, start, depth);
    assert Ball(adj, start, 0) == {start};
    assert Ball(adj, start, 1) >= {start} + NextAll(adj, {start});
    BallGrows(adj, start, 1, depth);
  }

  /** What the direction decides, from a fact of a coherent graph. */
  lemma ByDirection(g: GraphState, start: NodeId, depth: int, direction: Direction, skipEvents: bool, maxNodes: int,
                    found: seq<NodeId>, overflow: bool)
    requires start in g.nodes && g.nodes[start].Fact?
    requires Explored(Hops(g, direction, skipEvents), start, depth, maxNodes, found, overflow)
    ensures GraphInv(g) && !skipEvents && direction.Out? ==> found == [] && !overflow
    ensures GraphInv(g) && !skipEvents && direction.In? && depth >= 1 && !overflow ==>
              forall x :: x in found <==> Runs(g, x, start)
  {
    hide GraphInv, Hops, Explored, Runs;
    if GraphInv(g) && !skipEvents && direction.Out? {
      OutFindsNothing(g, start, depth, maxNodes, found, overflow);
    }
    if GraphInv(g) && !skipEvents && direction.In? && depth >= 1 && !overflow {
      InFindsEvents(g, start, depth, maxNodes, found);
    }
  }

  lemma Begin(adj: Adjacency<NodeId>, start: NodeId, maxNodes: int)
    ensures Standing(adj, start, 0, [], {start}, maxNodes)
  {
  }

  lemma StandingMeans(adj: Adjacency<NodeId>, start: NodeId, d: nat, found: seq<NodeId>, frontier: set<NodeId>,
                      maxNodes: int)
    requires Standing(adj, start, d, found, frontier, maxNodes)
    ensures Visited(start, found) == Ball(adj, start, d) && NoRepeats(start, found) && UnderCap(found, maxNodes)
  {
  }

  /** What one round leads to: a cut search, an exhausted one, or the next round. */
  lemma RoundResult(adj: Adjacency<NodeId>, start: NodeId, d: nat, found0: seq<NodeId>, frontier: set<NodeId>,
                    found: seq<NodeId>, next: set<NodeId>, overflow: bool, depth: int, maxNodes: int)
    requires d < depth && Standing(adj, start, d, found0, frontier, maxNodes) && NoRepeats(start, found)
    requires Visited(start, found) == Visited(start, found0) + next && next <= NextAll(adj, frontier)
    requires overflow ==> |found| == Cap(maxNodes)
    requires !overflow ==> NextAll(adj, frontier) <= Visited(start, found) && UnderCap(found, maxNodes)
    ensures overflow ==> Explored(adj, start, depth, maxNodes, found, true)
    ensures !overflow ==> Standing(adj, start, d + 1, found, next, maxNodes)
    ensures !overflow && next == {} ==> Explored(adj, start, depth, maxNodes, found, false)
  {
    NextBall(adj, start, d, Visited(start, found0), frontier, found, next, overflow);
    if overflow {
      CutShort(adj, start, depth, maxNodes, found, d);
    } else if next == {} {
      Exhausted(adj, start, depth, maxNodes, found, d + 1);
    }
  }

  predicate UnderCap(found: seq<NodeId>, maxNodes: int) {
    found == [] || |found| < maxNodes
  }

  lemma Complete(adj: Adjacency<NodeId>, start: NodeId, depth: int, maxNodes: int, found: seq<NodeId>)
    requires NoRepeats(start, found) && UnderCap(found, maxNodes)
    requires Visited(start, found) == Ball(adj, start, if depth < 0 then 0 else depth)
    ensures Explored(adj, start, depth, maxNodes, found, false)
  {
    NoRepeatsSize(start, found);
  }

  lemma Exhausted(adj: Adjacency<NodeId>, start: NodeId, depth: int, maxNodes: int, found: seq<NodeId>, d: nat)
    requires NoRepeats(start, found) && UnderCap(found, maxNodes) && 0 < d <= depth
    requires Visited(start, found) == Ball(adj, start, d - 1) == Ball(adj, start, d)
    ensures Explored(adj, start, depth, maxNodes, found, false)
  {
    BallStable(adj, start, d - 1, depth);
    Complete(adj, start, depth, maxNodes, found);
  }

  lemma CutShort(adj: Adjacency<NodeId>, start: NodeId, depth: int, maxNodes: int, found: seq<NodeId>, d: nat)
    requires NoRepeats(start, found) && |found| == Cap(maxNodes) && d < depth
    requires Ball(adj, start, d) <= Visited(start, found) <= Ball(adj, start, d + 1)
    ensures Explored(adj, start, depth, maxNodes, found, true)
  {
    BallGrows(adj, start, d + 1, depth);
    NoRepeatsSize(start, found);
    SubsetSize(Visited(start, found), Ball(adj, start, depth));
  }

  lemma SubsetSize(a: set<NodeId>, b: set<NodeId>)
    requires a <= b
    ensures |a| <= |b|
  {
    assert b == a + (b - a);
  }

  function Visited(start: NodeId, found: seq<NodeId>): set<NodeId> {
    {start} + set x | x in found
  }

  predicate NoRepeats(start: NodeId, found: seq<NodeId>) {
    start !in found && Simple(found)
  }

  lemma {:induction false} NoRepeatsSize(start: NodeId, found: seq<NodeId>)
    requires NoRepeats(start, found)
    ensures |Visited(start, found)| == 1 + |found|
  {
    if found != [] {
      var init, x := found[..|found| - 1], found[|found| - 1];
      assert found == init + [x];
      NoRepeatsSize(start, init);
      assert Visited(start, found) == Visited(start, init) + {x};
    } else {
      assert Visited(start, found) == {start};
    }
  }

  /** The result of an exploration, in terms of distance alone: without overflow it is everything
      within `depth` hops but the start; with overflow it is exactly the cap, none of it farther
      than anything left out; and overflow is reported exactly when the cap is reached. */
  ghost predicate Explored(adj: Adjacency<NodeId>, start: NodeId, depth: int, maxNodes: int, found: seq<NodeId>,
                           overflow: bool) {
    var k: nat := if depth < 0 then 0 else depth;
    && NoRepeats(start, found)
    && Visited(start, found) <= Ball(adj, start, k)
    && (!overflow ==> Visited(start, found) == Ball(adj, start, k))
    && (overflow ==> |found| == Cap(maxNodes)
                     && exists d ::
                          0 <= d < k && Ball(adj, start, d) <= Visited(start, found) <= Ball(adj, start, d + 1))
    && (overflow <==> |Ball(adj, start, k)| - 1 >= Cap(maxNodes))
  }

  /** One round: the neighbours of the frontier, until the cap is reached. */
  method ExploreRound(g: GraphState, ghost adj: Adjacency<NodeId>, start: NodeId, frontier: set<NodeId>,
                      found0: seq<NodeId>,
                      direction: Direction, skipEvents: bool, maxNodes: int)
      returns (found: seq<NodeId>, next: set<NodeId>, overflow: bool)
    requires Whole(g) && frontier <= g.nodes.Keys && adj == Hops(g, direction, skipEvents)
    requires NoRepeats(start, found0) && UnderCap(found0, maxNodes)
    ensures NoRepeats(start, found) && next <= g.nodes.Keys
    ensures Visited(start, found) == Visited(start, found0) + next && next <= NextAll(adj, frontier)
    ensures overflow ==> |found| == Cap(maxNodes)
    ensures !overflow ==> NextAll(adj, frontier) <= Visited(start, found) && UnderCap(found, maxNodes)
  {
    found, next, overflow := found0, {}, false;
    var left := frontier;
    while left != {}
      invariant left <= frontier && !overflow
      invariant NoRepeats(start, found) && UnderCap(found, maxNodes) && next <= g.nodes.Keys
      invariant Visited(start, found) == Visited(start, found0) + next
      invariant next <= NextAll(adj, frontier)
      invariant NextAll(adj, frontier - left) <= Visited(start, found)
      decreases left
    {
      var n :| n in left;
      var ns := NodeNeighbours(g, adj, n, direction, skipEvents);
      NextAllGrows(adj, frontier - left, n);
      found, next, overflow := Visit(start, ns, found, next, maxNodes, found0);
      if overflow {
        return;
      }
      left := left - {n};
      assert frontier - left == frontier - (left + {n}) + {n};
    }
    assert frontier - left == frontier;
  }

  lemma NextAllGrows(adj: Adjacency<NodeId>, ns: set<NodeId>, n: NodeId)
    ensures NextAll(adj, ns + {n}) == NextAll(adj, ns) + Next(adj, n)
  {
  }

  lemma NeighboursAreNodes(g: GraphState, n: NodeId, direction: Direction, skipEvents: bool, x: NodeId)
    requires Whole(g) && x in Neighbouring(g, n, direction, skipEvents)
    ensures x in g.nodes
  {
  }

  method NodeNeighbours(g: GraphState, ghost adj: Adjacency<NodeId>, n: NodeId, direction: Direction, skipEvents: bool)
      returns (ns: seq<NodeId>)
    requires Whole(g) && n in g.nodes && adj == Hops(g, direction, skipEvents)
    ensures forall x :: x in ns <==> x in Next(adj, n)
    ensures forall x | x in ns :: x in g.nodes
  {
    ns := Neighbours(g, n, direction, skipEvents);
    assert n in g.nodes && Next(adj, n) == Neighbouring(g, n, direction, skipEvents);
    forall x | x in ns ensures x in g.nodes {
      NeighboursAreNodes(g, n, direction, skipEvents, x);
    }
  }

  /** The neighbours of one node. */
  method Visit(start: NodeId, ns: seq<NodeId>, found1: seq<NodeId>, next1: set<NodeId>, maxNodes: int,
               ghost found0: seq<NodeId>)
      returns (found: seq<NodeId>, next: set<NodeId>, overflow: bool)
    requires NoRepeats(start, found1) && UnderCap(found1, maxNodes)
    requires Visited(start, found1) == Visited(start, found0) + next1
    ensures NoRepeats(start, found) && Visited(start, found) == Visited(start, found0) + next
    ensures next1 <= next && forall x | x in next :: x in next1 || x in ns
    ensures overflow ==> |found| == Cap(maxNodes)
    ensures !overflow ==> UnderCap(found, maxNodes) && forall x | x in ns :: x in Visited(start, found)
    ensures Visited(start, found1) <= Visited(start, found)
  {
    found, next, overflow := found1, next1, false;
    for i := 0 to |ns|
      invariant NoRepeats(start, found) && UnderCap(found, maxNodes) && !overflow
      invariant Visited(start, found) == Visited(start, found0) + next
      invariant next1 <= next && forall x | x in next :: x in next1 || x in ns
      invariant Visited(start, found1) <= Visited(start, found)
      invariant forall j | 0 <= j < i :: ns[j] in Visited(start, found)
    {
      var t := ns[i];
      if t != start && t !in found {
        assert Visited(start, found + [t]) == Visited(start, found) + {t};
        found := found + [t];
        next := next + {t};
        if |found| >= maxNodes {
          overflow := true;
          return;
        }
      }
    }
  }

  /** What a round adds, in terms of balls. */
  lemma NextBall(adj: Adjacency<NodeId>, start: NodeId, d: nat, before: set<NodeId>, frontier: set<NodeId>,
                 found: seq<NodeId>, next: set<NodeId>, overflow: bool)
    requires Round(adj, start, d, before, frontier)
    requires Visited(start, found) == before + next && next <= NextAll(adj, frontier)
    requires !overflow ==> NextAll(adj, frontier) <= Visited(start, found)
    ensures Ball(adj, start, d) <= Visited(start, found) <= Ball(adj, start, d + 1)
    ensures !overflow ==> Round(adj, start, d + 1, Visited(start, found), next)
  {
  }
}
