/** The hook that streams graph deltas through a bounded queue, and the page that applies them. */
module StreamHook {
  import opened Core
  import opened GraphModel
  import opened FactGraphs
  import opened Extraction
  import opened Ingest
  import opened Stores

  /** What is shown of a node. */
  datatype Shown = ShownEvent(tool: string, timestamp: int) | ShownFact(nodeType: string, value: string)

  datatype Message =
    | NodeAdded(id: NodeId, shown: Shown)
    | LinkFound(fact: NodeId, event: Option<EventId>)
    | EdgeAdded(edge: EdgeId)
    | IngestComplete(newNodes: nat, linkedNodes: nat, newEdges: nat)

  function Show(r: Record): Shown {
    match r
    case EventRecord(_, tool, at, _) => ShownEvent(tool, at)
    case FactRecord(_, t, v, _) => ShownFact(t, v)
  }

  // ----- The bounded queue ---------------------------------------------------------------------

  /** What `put` leaves of a queue of the given capacity; none at all means no bound. */
  function Enqueued<T>(q: seq<T>, x: T, capacity: int): seq<T> {
    if 0 < capacity <= |q| then q[1..] + [x] else q + [x]
  }

  function EnqueuedAll<T>(q: seq<T>, xs: seq<T>, capacity: int): seq<T> {
    if xs == [] then q else Enqueued(EnqueuedAll(q, xs[..|xs| - 1], capacity), xs[|xs| - 1], capacity)
  }

  /** The last `n` elements, or all of them. */
  function Last<T>(xs: seq<T>, n: nat): seq<T> {
    if |xs| <= n then xs else xs[|xs| - n..]
  }

  datatype QueueOp<T> = Put(x: T) | Drain

  /** The queue after a run of puts and drains. */
  function RunQueue<T>(ops: seq<QueueOp<T>>, capacity: int): seq<T> {
    if ops == [] then []
    else
      var q := RunQueue(ops[..|ops| - 1], capacity);
      match ops[|ops| - 1]
      case Put(x) => Enqueued(q, x, capacity)
      case Drain => []
  }

  /** What has been put since the last drain. */
  function SinceDrain<T>(ops: seq<QueueOp<T>>): seq<T> {
    if ops == [] then []
    else match ops[|ops| - 1]
      case Put(x) => SinceDrain(ops[..|ops| - 1]) + [x]
      case Drain => []
  }

  /** At all times the queue is the last `capacity` of the messages put since it was last drained,
      in order; with no positive capacity it is all of them. */
  lemma {:induction false} QueueIsLast<T>(ops: seq<QueueOp<T>>, capacity: int)
    ensures RunQueue(ops, capacity) == if capacity > 0 then Last(SinceDrain(ops), capacity) else SinceDrain(ops)
  {
    if ops != [] {
      QueueIsLast(ops[..|ops| - 1], capacity);
    }
  }

  /** So no message is lost between two drains exactly when there is no bound or they fit in it. */
  lemma NothingDroppedIff<T>(ops: seq<QueueOp<T>>, capacity: int)
    ensures RunQueue(ops, capacity) == SinceDrain(ops) <==> capacity <= 0 || |SinceDrain(ops)| <= capacity
  {
    QueueIsLast(ops, capacity);
  }

  lemma {:induction false} EnqueuedConcat<T>(q: seq<T>, xs: seq<T>, ys: seq<T>, capacity: int)
    ensures EnqueuedAll(q, xs + ys, capacity) == EnqueuedAll(EnqueuedAll(q, xs, capacity), ys, capacity)
  {
    if ys == [] {
      assert xs + ys == xs;
    } else {
      assert (xs + ys)[..|xs + ys| - 1] == xs + ys[..|ys| - 1];
      EnqueuedConcat(q, xs, ys[..|ys| - 1], capacity);
    }
  }

  lemma EnqueuedSnoc<T>(q: seq<T>, xs: seq<T>, x: T, capacity: int)
    ensures EnqueuedAll(q, xs + [x], capacity) == Enqueued(EnqueuedAll(q, xs, capacity), x, capacity)
  {
  }

  // ----- The messages of one ingest ------------------------------------------------------------

  function NodeMessages(rs: seq<Record>): seq<Message> {
    seq(|rs|, i requires 0 <= i < |rs| => NodeAdded(rs[i].Id(), Show(rs[i])))
  }

  function LinkMessages(rs: seq<Record>, event: Option<EventId>): seq<Message> {
    seq(|rs|, i requires 0 <= i < |rs| => LinkFound(rs[i].Id(), event))
  }

  function EdgeMessages(es: seq<FactEdge>): seq<Message> {
    seq(|es|, i requires 0 <= i < |es| => EdgeAdded(es[i].Id()))
  }

  function EventsIn(rs: seq<Record>): seq<Record> {
    if rs == [] then []
    else EventsIn(rs[..|rs| - 1]) + if rs[|rs| - 1].EventRecord? then [rs[|rs| - 1]] else []
  }

  /** Events, new facts, links, edges, and the summary that closes the batch. */
  function MessagesOf(b: Built, first: Option<EventId>): seq<Message> {
    NodeMessages(EventsIn(b.nodes)) + NodeMessages(b.created) + LinkMessages(b.linked, first) + EdgeMessages(b.edges)
      + [IngestComplete(|b.created|, |b.linked|, |b.edges|)]
  }

  /** The messages `ms` of a batch, one by one: each event of the delta and each new fact is announced
      with what is shown of it, each linked fact is linked to the first event, each edge is announced,
      and the summary has the numbers of new facts, linked facts and edges. */
  ghost predicate RightBatch(ms: seq<Message>, events: seq<Record>, b: Built, first: Option<EventId>) {
    var n, k := |events|, |events| + |b.created|;
    && (forall r :: r in events <==> r in b.nodes && r.EventRecord?)
    && |ms| == k + |b.linked| + |b.edges| + 1
    && (forall i | 0 <= i < n && events[i].EventRecord? ::
          ms[i] == NodeAdded(EventUuid(events[i].uuid), ShownEvent(events[i].tool, events[i].timestamp)))
    && (forall i | 0 <= i < |b.created| && b.created[i].FactRecord? ::
          ms[n + i] == NodeAdded(b.created[i].id, ShownFact(b.created[i].nodeType, b.created[i].value)))
    && (forall i | 0 <= i < |b.linked| :: ms[k + i] == LinkFound(b.linked[i].Id(), first))
    && (forall i | 0 <= i < |b.edges| ::
          ms[k + |b.linked| + i] == EdgeAdded(EdgeId(b.edges[i].event, b.edges[i].edgeType, b.edges[i].target)))
    && ms[|ms| - 1] == IngestComplete(|b.created|, |b.linked|, |b.edges|)
  }

  lemma {:induction false} EventsAreIn(rs: seq<Record>)
    ensures forall r :: r in EventsIn(rs) <==> r in rs && r.EventRecord?
  {
    if rs != [] {
      var init, last := rs[..|rs| - 1], rs[|rs| - 1];
      assert rs == init + [last];
      EventsAreIn(init);
    }
  }

  lemma BatchIsRight(b: Built, first: Option<EventId>)
    ensures RightBatch(MessagesOf(b, first), EventsIn(b.nodes), b, first)
  {
    EventsAreIn(b.nodes);
  }

  /** A queue that is within its bound takes in a batch as `QueueIsLast` says: the last of it stay. */
  lemma {:induction false} EnqueuedAllIsLast<T>(q: seq<T>, xs: seq<T>, capacity: int)
    requires capacity <= 0 || |q| <= capacity
    ensures EnqueuedAll(q, xs, capacity) == if capacity > 0 then Last(q + xs, capacity) else q + xs
  {
    hide Last, Enqueued;
    if xs == [] {
      assert q + xs == q;
      LastOfFew(q, capacity);
    } else {
      var init, x := xs[..|xs| - 1], xs[|xs| - 1];
      EnqueuedAllIsLast(q, init, capacity);
      assert q + xs == q + init + [x];
      LastSnoc(q + init, x, capacity);
    }
  }

  lemma LastOfFew<T>(xs: seq<T>, capacity: int)
    ensures 0 < capacity && |xs| <= capacity ==> Last(xs, capacity) == xs
  {
  }

  lemma LastSnoc<T>(xs: seq<T>, x: T, capacity: int)
    ensures capacity > 0 ==> Enqueued(Last(xs, capacity), x, capacity) == Last(xs + [x], capacity)
    ensures capacity <= 0 ==> Enqueued(xs, x, capacity) == xs + [x]
  {
  }

  /** The queue has taken in a batch. */
  ghost predicate TakesIn(q: seq<Message>, q': seq<Message>, capacity: int, b: Built, first: Option<EventId>) {
    exists ms, events ::
      RightBatch(ms, events, b, first) && q' == if capacity > 0 then Last(q + ms, capacity) else q + ms
  }

  lemma BatchTakenIn(q: seq<Message>, capacity: int, b: Built, first: Option<EventId>)
    requires capacity <= 0 || |q| <= capacity
    ensures TakesIn(q, EnqueuedAll(q, MessagesOf(b, first), capacity), capacity, b, first)
  {
    hide RightBatch, MessagesOf;
    BatchIsRight(b, first);
    EnqueuedAllIsLast(q, MessagesOf(b, first), capacity);
  }

  lemma EventMessagesStep(rs: seq<Record>, i: nat)
    requires i < |rs|
    ensures NodeMessages(EventsIn(rs[..i + 1]))
         == NodeMessages(EventsIn(rs[..i])) + if rs[i].EventRecord? then [NodeAdded(rs[i].Id(), Show(rs[i]))] else []
  {
    assert rs[..i + 1][..i] == rs[..i];
  }

  // ----- What a page shows ---------------------------------------------------------------------

  datatype Page = Page(nodes: map<NodeId, Shown>, edges: set<EdgeId>)

  const BLANK_PAGE := Page(map[], {})

  /** A message is applied by id: what is already on the page stays as it is, and an edge that lacks
      an end is refused. */
  function Applied(p: Page, m: Message): Page {
    match m
    case NodeAdded(id, shown) => if id in p.nodes then p else p.(nodes := p.nodes[id := shown])
    case EdgeAdded(k) => if Drawable(p, m) then p.(edges := p.edges + {k}) else p
    case _ => p
  }

  function AppliedAll(p: Page, ms: seq<Message>): Page {
    if ms == [] then p else Applied(AppliedAll(p, ms[..|ms| - 1]), ms[|ms| - 1])
  }

  /** The page can draw the message: both ends of an edge are there when it comes. */
  predicate Drawable(p: Page, m: Message) {
    m.EdgeAdded? ==> EventUuid(m.edge.event) in p.nodes && m.edge.target in p.nodes
  }

  ghost predicate DrawableAll(p: Page, ms: seq<Message>) {
    forall i | 0 <= i < |ms| :: Drawable(AppliedAll(p, ms[..i]), ms[i])
  }

  /** The page of a whole store. */
  function PageOf(s: Store): Page {
    Page(map id | id in s.nodes :: Show(s.nodes[id]), s.edges.Keys)
  }

  /** The page that a snapshot of the graph `g` draws. */
  ghost predicate Draws(p: Page, g: GraphState) {
    && p.nodes.Keys == g.nodes.Keys && p.edges == g.edges.Keys
    && forall id | id in g.nodes ::
         match g.nodes[id]
         case Event(tool, at, _) => p.nodes[id] == ShownEvent(tool, at)
         case Fact(t, v, _, _, _, _, _) => p.nodes[id] == ShownFact(t, v)
         case Bare => false
  }

  // ----- The hook ------------------------------------------------------------------------------

  class WebSocketHook {
    const capacity: int
    var queue: seq<Message>
    var latestSnapshot: Option<Page>

    constructor (capacity: int)
      ensures this.capacity == capacity && queue == [] && latestSnapshot == None && Bounded()
    {
      this.capacity, queue, latestSnapshot := capacity, [], None;
    }

    /** The queue is within its bound, if it has one. */
    predicate Bounded()
      reads this
    {
      capacity <= 0 || |queue| <= capacity
    }

    /** Puts one message, dropping the oldest when the queue is full. */
    method Enqueue(m: Message)
      modifies `queue
      ensures queue == Enqueued(old(queue), m, capacity)
      ensures old(Bounded()) ==> Bounded()
    {
      if capacity <= 0 || |queue| < capacity {
        queue := queue + [m];
      } else {
        queue := queue[1..];
        queue := queue + [m];
      }
    }

    /** Pops every queued message. */
    method DrainPending() returns (out: seq<Message>)
      modifies `queue
      ensures out == old(queue) && queue == []
    {
      out := [];
      while queue != []
        invariant out + queue == old(queue)
        decreases |queue|
      {
        out := out + [queue[0]];
        queue := queue[1..];
      }
    }

    method EnqueueEach(ms: seq<Message>)
      modifies `queue
      ensures queue == EnqueuedAll(old(queue), ms, capacity)
    {
      for i := 0 to |ms|
        invariant queue == EnqueuedAll(old(queue), ms[..i], capacity)
      {
        assert ms[..i + 1][..i] == ms[..i];
        Enqueue(ms[i]);
      }
      assert ms[..|ms|] == ms;
    }

    /** The messages of one ingest, then the snapshot; a graph with a node that carries no object
        raises before the snapshot is replaced, with the messages already queued. */
    method HandleIngest(payload: Payload, result: IngestResult, graph: FactGraph, ghost b: Built,
                        ghost items: seq<Item>)
      requires payload.Delivers(b) && result.Summarises(b, items) && graph.Valid()
      modifies this
      ensures queue == EnqueuedAll(old(queue), MessagesOf(b, if items == [] then None else Some(items[0].event)),
              capacity)
      ensures old(Bounded()) ==>
                TakesIn(old(queue), queue, capacity, b, if items == [] then None else Some(items[0].event))
      ensures latestSnapshot == old(latestSnapshot) ||
              (latestSnapshot.Some? && Draws(latestSnapshot.value, graph.View()))
      ensures (forall id | id in graph.nodes :: !graph.nodes[id].NoObj?) ==>
                latestSnapshot.Some? && Draws(latestSnapshot.value, graph.View())
    {
      hide EnqueuedAll, TakesIn, MessagesOf;
      var first := if result.eventIds == [] then None else Some(result.eventIds[0]);
      EnqueueEvents(payload);
      var created, linked := Records(payload.newFacts), Records(payload.linkedFacts);
      EnqueueEach(NodeMessages(created));
      EnqueueEach(LinkMessages(linked, first));
      EnqueueEach(EdgeMessages(payload.edges));
      Enqueue(IngestComplete(result.newNodes, result.linkedNodes, result.newEdges));
      BatchIsOne(old(queue), b, first, capacity);
      if old(Bounded()) {
        BatchTakenIn(old(queue), capacity, b, first);
      }
      var snapshot := BuildSnapshot(graph);
      if snapshot.Some? {
        latestSnapshot := snapshot;
      }
    }

    lemma BatchIsOne(q: seq<Message>, b: Built, first: Option<EventId>, c: int)
      ensures var q1 := EnqueuedAll(EnqueuedAll(q, NodeMessages(EventsIn(b.nodes)), c), NodeMessages(b.created), c);
              var q2 := EnqueuedAll(EnqueuedAll(q1, LinkMessages(b.linked, first), c), EdgeMessages(b.edges), c);
              Enqueued(q2, IngestComplete(|b.created|, |b.linked|, |b.edges|), c) ==
                  EnqueuedAll(q, MessagesOf(b, first), c)
    {
      var m1, m2, m3, m4 := NodeMessages(EventsIn(b.nodes)), NodeMessages(b.created), LinkMessages(b.linked, first),
          EdgeMessages(b.edges);
      var last := IngestComplete(|b.created|, |b.linked|, |b.edges|);
      EnqueuedConcat(q, m1, m2, c);
      EnqueuedConcat(q, m1 + m2, m3, c);
      EnqueuedConcat(q, m1 + m2 + m3, m4, c);
      var all := m1 + m2 + m3 + m4;
      assert (all + [last])[..|all|] == all;
    }

    method EnqueueEvents(payload: Payload)
      requires Proper(payload.nodes)
      modifies `queue
      ensures queue == EnqueuedAll(old(queue), NodeMessages(EventsIn(PayloadRecords(payload.nodes))), capacity)
    {
      ghost var rs := PayloadRecords(payload.nodes);
      for i := 0 to |payload.nodes|
        invariant queue == EnqueuedAll(old(queue), NodeMessages(EventsIn(rs[..i])), capacity)
      {
        var n := payload.nodes[i];
        EventMessagesStep(rs, i);
        assert rs[i] == PayloadRecord(n);
        ghost var ms := NodeMessages(EventsIn(rs[..i]));
        assert ms + [] == ms;
        if n.EventRef? {
          var r := PayloadRecord(n);
          EnqueuedSnoc(old(queue), ms, NodeAdded(r.Id(), Show(r)), capacity);
          Enqueue(NodeAdded(r.Id(), Show(r)));
        }
      }
      assert rs[..|rs|] == rs;
    }
  }

  /** The snapshot of a graph, none if some node carries no object. */
  method BuildSnapshot(graph: FactGraph) returns (p: Option<Page>)
    requires graph.Valid()
    ensures p.None? <==> exists id :: id in graph.nodes && graph.nodes[id].NoObj?
    ensures p.Some? ==> Draws(p.value, graph.View())
  {
    ghost var g := graph.View();
    var nodes: map<NodeId, Shown> := map[];
    var left := graph.nodes.Keys;
    while left != {}
      invariant left <= graph.nodes.Keys && nodes.Keys == graph.nodes.Keys - left
      invariant forall id | id in nodes :: !graph.nodes[id].NoObj? && nodes[id] == Show(PayloadRecord(graph.nodes[id]))
      decreases left
    {
      var id :| id in left;
      left := left - {id};
      if graph.nodes[id].NoObj? {
        return None;
      }
      nodes := nodes[id := Show(PayloadRecord(graph.nodes[id]))];
    }
    p := Some(Page(nodes, graph.edges.Keys));
  }
}
