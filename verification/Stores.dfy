/** The sharded key-value store: one key per node and per edge, and the graph a load rebuilds. */
module Stores {
  import opened Core
  import opened GraphModel
  import opened Provenance
  import opened Snapshot
  import opened Ingest

  datatype Store = Store(nodes: map<NodeId, Record>, edges: map<EdgeId, FactEdge>)

  const EMPTY_STORE := Store(map[], map[])

  function PutNodes(nodes: map<NodeId, Record>, rs: seq<Record>): map<NodeId, Record> {
    if rs == [] then nodes else PutNodes(nodes, rs[..|rs| - 1])[rs[|rs| - 1].Id() := rs[|rs| - 1]]
  }

  function PutEdges(edges: map<EdgeId, FactEdge>, es: seq<FactEdge>): map<EdgeId, FactEdge> {
    if es == [] then edges else PutEdges(edges, es[..|es| - 1])[es[|es| - 1].Id() := es[|es| - 1]]
  }

  /** The store after a delta: nodes first, then edges, one key at a time. */
  function Persist(s: Store, rs: seq<Record>, es: seq<FactEdge>): Store {
    Store(PutNodes(s.nodes, rs), PutEdges(s.edges, es))
  }

  lemma {:induction false} PutNodesConcat(nodes: map<NodeId, Record>, x: seq<Record>, y: seq<Record>)
    ensures PutNodes(nodes, x + y) == PutNodes(PutNodes(nodes, x), y)
  {
    if y == [] {
      assert x + y == x;
    } else {
      assert (x + y)[..|x + y| - 1] == x + y[..|y| - 1];
      PutNodesConcat(nodes, x, y[..|y| - 1]);
    }
  }

  lemma {:induction false} PutEdgesConcat(edges: map<EdgeId, FactEdge>, x: seq<FactEdge>, y: seq<FactEdge>)
    ensures PutEdges(edges, x + y) == PutEdges(PutEdges(edges, x), y)
  {
    if y == [] {
      assert x + y == x;
    } else {
      assert (x + y)[..|x + y| - 1] == x + y[..|y| - 1];
      PutEdgesConcat(edges, x, y[..|y| - 1]);
    }
  }

  // ----- Well-formed stores --------------------------------------------------------------------

  ghost predicate HonestRecord(r: Record) {
    r.FactRecord? ==> r.id == FactNodeId(KeyOf(r))
  }

  /** Every record sits under its own id, and a fact's id is the one its key determines. */
  ghost predicate Honest(nodes: map<NodeId, Record>) {
    forall id | id in nodes :: nodes[id].Id() == id && HonestRecord(nodes[id])
  }

  ghost predicate WellKeyed(edges: map<EdgeId, FactEdge>) {
    forall k | k in edges :: edges[k].Id() == k
  }

  /** Each stored edge has both its event and its fact stored. */
  ghost predicate Integral(s: Store) {
    forall k | k in s.edges :: EventUuid(k.event) in s.nodes && k.target.FactDigest? && k.target in s.nodes
  }

  ghost predicate StoreInv(s: Store) {
    Honest(s.nodes) && WellKeyed(s.edges) && Integral(s)
  }

  /** A fact sits under the id of its key, and `names` names that key. */
  predicate NamedRecord(names: Naming, r: Record) {
    r.FactRecord? ==> r.id == FactNodeId(KeyOf(r)) && Named(names, KeyOf(r))
  }

  ghost predicate NamedTable(names: Naming, nodes: map<NodeId, Record>) {
    forall id | id in nodes :: nodes[id].Id() == id && NamedRecord(names, nodes[id])
  }

  ghost predicate NamedStore(names: Naming, s: Store) {
    StoreInv(s) && NamedTable(names, s.nodes)
  }

  /** Any one well-formed table can be named: it holds one record per id. */
  lemma OwnNames(nodes: map<NodeId, Record>)
    requires Honest(nodes)
    ensures exists names :: NamedTable(names, nodes)
  {
    var names: Naming := map id | id in nodes && nodes[id].FactRecord? && id.FactDigest? :: KeyOf(nodes[id]);
    assert NamedTable(names, nodes);
  }

  // ----- The graph a store stands for ----------------------------------------------------------

  function Ends(edges: map<EdgeId, FactEdge>): set<NodeId> {
    (set k | k in edges :: EventUuid(k.event)) + (set k | k in edges :: k.target)
  }

  function Keys(nodes: map<NodeId, Record>): set<Key> {
    set id | id in nodes && nodes[id].FactRecord? :: KeyOf(nodes[id])
  }

  function KeyIndex(nodes: map<NodeId, Record>): map<Key, FactId> {
    map k | k in Keys(nodes) :: FactNodeId(k)
  }

  function Types(nodes: map<NodeId, Record>): set<string> {
    set id | id in nodes :: TypeOf(nodes[id])
  }

  function OfType(nodes: map<NodeId, Record>, t: string): set<NodeId> {
    set id | id in nodes && TypeOf(nodes[id]) == t
  }

  function TypeIndex(nodes: map<NodeId, Record>): map<string, set<NodeId>> {
    map t | t in Types(nodes) :: OfType(nodes, t)
  }

  function SeedNodes(s: Store): map<NodeId, Node> {
    map id | id in s.nodes.Keys + Ends(s.edges) :: if id in s.nodes then Seed(s.nodes[id]) else Bare
  }

  function Frame(s: Store): GraphState {
    GraphState(SeedNodes(s), s.edges, KeyIndex(s.nodes), TypeIndex(s.nodes))
  }

  /** The graph that loading the store gives, whatever order its records are listed in. */
  ghost function LoadState(s: Store): GraphState {
    Backfill(Frame(s))
  }

  // ----- What a loaded fact knows of its past ----------------------------------------------------

  predicate StoredEvent(s: Store, e: EventId) {
    EventUuid(e) in s.nodes && s.nodes[EventUuid(e)].EventRecord?
  }

  ghost predicate SeenIn(s: Store, e: EventId, id: NodeId) {
    StoredEvent(s, e) && exists k :: k in s.edges && k.event == e && k.target == id
  }

  function TimeOf(s: Store, e: EventId): int
    requires StoredEvent(s, e)
  {
    s.nodes[EventUuid(e)].timestamp
  }

  function ToolIn(s: Store, e: EventId): string
    requires StoredEvent(s, e)
  {
    s.nodes[EventUuid(e)].tool
  }

  /** The events of `q` in the order of time, then of id, none twice. */
  ghost predicate InOrder(s: Store, q: seq<EventId>)
    requires forall e | e in q :: StoredEvent(s, e)
  {
    forall i, j | 0 <= i < j < |q| :: TimeOf(s, q[i]) < TimeOf(s, q[j]) ||
        (TimeOf(s, q[i]) == TimeOf(s, q[j]) && q[i] < q[j])
  }

  lemma EventsOfFrame(s: Store, id: NodeId)
    ensures forall e :: IsEvent(Frame(s).nodes, e) <==> StoredEvent(s, e)
    ensures forall e | StoredEvent(s, e) ::
            At(Frame(s).nodes, e) == TimeOf(s, e) && ToolOf(Frame(s).nodes, e) == ToolIn(s, e)
    ensures forall e :: e in Sources(Frame(s), id) <==> SeenIn(s, e, id)
  {
  }

  /** What loading makes of a stored fact, whatever the store, torn or cut as the load may be: its
      source events are exactly the stored events with an edge to it, in order, once each; edges to
      events that are not stored are ignored; its tools are theirs; it was first and last seen at
      the least and the greatest of their times, and at the epoch if there are none. */
  lemma LoadedProvenanceIs(s: Store, id: NodeId)
    requires id in s.nodes && s.nodes[id].FactRecord?
    ensures id in LoadState(s).nodes && LoadState(s).nodes[id].Fact?
    ensures var n := LoadState(s).nodes[id];
            && (forall e :: e in n.sourceEvents <==> SeenIn(s, e, id)) && InOrder(s, n.sourceEvents)
            && (forall t :: t in n.sourceTools <==> exists e :: e in n.sourceEvents && ToolIn(s, e) == t)
            && (forall e | e in n.sourceEvents :: n.firstSeen <= TimeOf(s, e) <= n.lastSeen)
            && (if n.sourceEvents == [] then n.firstSeen == n.lastSeen == EPOCH
                else (exists e :: e in n.sourceEvents && TimeOf(s, e) == n.firstSeen)
                     && exists e :: e in n.sourceEvents && TimeOf(s, e) == n.lastSeen)
  {
    var f, n := Frame(s), LoadState(s).nodes[id];
    EventsOfFrame(s, id);
    assert n == Filled(f, id);
    var q := Chronology(f.nodes, Sources(f, id));
    ListedInOrder(s, q, Sources(f, id));
    hide Frame, Sources, SeenIn, InOrder, Mentioning;
    assert q != [] ==> q[0] in q && q[|q| - 1] in q;
    if q != [] {
      FirstAndLast(s, q);
    }
    assert forall t :: t in n.sourceTools <==> exists e :: e in q && ToolIn(s, e) == t;
  }

  lemma ListedInOrder(s: Store, q: seq<EventId>, evs: set<EventId>)
    requires Lists(Frame(s).nodes, q, evs) && forall e | e in evs :: StoredEvent(s, e)
    ensures (forall e | e in q :: StoredEvent(s, e)) && InOrder(s, q)
  {
    EventsOfFrame(s, EventUuid(0));
    forall i, j | 0 <= i < j < |q| ensures Earlier(Frame(s).nodes, q[i], q[j]) && q[i] in evs && q[j] in evs {
      assert q[i] in q && q[j] in q;
    }
  }

  lemma FirstAndLast(s: Store, q: seq<EventId>)
    requires (forall e | e in q :: StoredEvent(s, e)) && InOrder(s, q) && q != []
    ensures forall e | e in q :: TimeOf(s, q[0]) <= TimeOf(s, e) <= TimeOf(s, q[|q| - 1])
  {
    forall e | e in q ensures TimeOf(s, q[0]) <= TimeOf(s, e) <= TimeOf(s, q[|q| - 1]) {
      var i :| 0 <= i < |q| && q[i] == e;
    }
  }

  ghost predicate DistinctIds(rs: seq<Record>) {
    forall i, j | 0 <= i < j < |rs| :: rs[i].Id() != rs[j].Id()
  }

  lemma {:induction false} FrameOfRecords(rs: seq<Record>)
    requires DistinctIds(rs) && forall r | r in rs :: HonestRecord(r)
    ensures AddRecords(EMPTY_GRAPH, rs) == Frame(Store(PutNodes(map[], rs), map[]))
    ensures forall id :: id in PutNodes(map[], rs) <==> Listed(rs, id)
  {
    if rs != [] {
      var init, r := rs[..|rs| - 1], rs[|rs| - 1];
      assert rs == init + [r];
      FrameOfRecords(init);
      var nodes := PutNodes(map[], init);
      forall x | x in init ensures x.Id() != r.Id() {
        var i :| 0 <= i < |init| && init[i] == x;
        assert rs[i] == x;
      }
      FrameGrows(nodes, r);
    }
  }

  lemma FrameGrows(nodes: map<NodeId, Record>, r: Record)
    requires r.Id() !in nodes && HonestRecord(r)
    ensures AddRecord(Frame(Store(nodes, map[])), r) == Frame(Store(nodes[r.Id() := r], map[]))
  {
    KeysGrow(nodes, r);
    TypesGrow(nodes, r);
    SeedsGrow(nodes, r);
  }

  lemma SeedsGrow(nodes: map<NodeId, Record>, r: Record)
    ensures SeedNodes(Store(nodes[r.Id() := r], map[])) == SeedNodes(Store(nodes, map[]))[r.Id() := Seed(r)]
  {
  }

  lemma KeysGrow(nodes: map<NodeId, Record>, r: Record)
    requires r.Id() !in nodes
    ensures Keys(nodes[r.Id() := r]) == Keys(nodes) + (if r.FactRecord? then {KeyOf(r)} else {})
    ensures KeyIndex(nodes[r.Id() := r])
         == if r.FactRecord? then KeyIndex(nodes)[KeyOf(r) := FactNodeId(KeyOf(r))] else KeyIndex(nodes)
  {
    var more := nodes[r.Id() := r];
    forall k | k in Keys(nodes) ensures k in Keys(more) {
      var id :| id in nodes && nodes[id].FactRecord? && KeyOf(nodes[id]) == k;
      assert id in more && more[id] == nodes[id];
    }
    assert more[r.Id()] == r;
    assert Keys(more) == Keys(nodes) + if r.FactRecord? then {KeyOf(r)} else {};
  }

  lemma TypesGrow(nodes: map<NodeId, Record>, r: Record)
    requires r.Id() !in nodes
    ensures TypeIndex(nodes[r.Id() := r]) == AddToType(TypeIndex(nodes), TypeOf(r), r.Id())
  {
    var more, t := nodes[r.Id() := r], TypeOf(r);
    TypeNamesGrow(nodes, r);
    forall u ensures OfType(more, u) == if u == t then OfType(nodes, t) + {r.Id()} else OfType(nodes, u) {
      OfTypeGrows(nodes, r, u);
    }
    UnknownTypeIsEmpty(nodes, t);
    hide Types, OfType, TypeOf;
    assert TypeIndex(more) == AddToType(TypeIndex(nodes), t, r.Id());
  }

  lemma TypeNamesGrow(nodes: map<NodeId, Record>, r: Record)
    requires r.Id() !in nodes
    ensures Types(nodes[r.Id() := r]) == Types(nodes) + {TypeOf(r)}
  {
    var more := nodes[r.Id() := r];
    forall t | t in Types(nodes) ensures t in Types(more) {
      var id :| id in nodes && TypeOf(nodes[id]) == t;
      assert id in more && more[id] == nodes[id];
    }
    assert r.Id() in more && more[r.Id()] == r;
  }

  lemma OfTypeGrows(nodes: map<NodeId, Record>, r: Record, t: string)
    requires r.Id() !in nodes
    ensures OfType(nodes[r.Id() := r], t) == if t == TypeOf(r) then OfType(nodes, t) + {r.Id()} else OfType(nodes, t)
  {
  }

  lemma UnknownTypeIsEmpty(nodes: map<NodeId, Record>, t: string)
    ensures t !in Types(nodes) ==> OfType(nodes, t) == {}
  {
  }

  lemma {:induction false} FrameOfEdges(nodes: map<NodeId, Record>, es: seq<FactEdge>)
    ensures AddEdges(Frame(Store(nodes, map[])), es) == Frame(Store(nodes, PutEdges(map[], es)))
  {
    if es != [] {
      var init, e := es[..|es| - 1], es[|es| - 1];
      FrameOfEdges(nodes, init);
      EdgeGrows(nodes, PutEdges(map[], init), e);
    }
  }

  lemma EndsGrow(table: map<EdgeId, FactEdge>, e: FactEdge)
    ensures Ends(table[e.Id() := e]) == Ends(table) + {EventUuid(e.event), e.target}
  {
  }

  lemma EdgeGrows(nodes: map<NodeId, Record>, table: map<EdgeId, FactEdge>, e: FactEdge)
    ensures AddEdge(Frame(Store(nodes, table)), e) == Frame(Store(nodes, table[e.Id() := e]))
  {
    hide Seed, Ends, KeyIndex, TypeIndex;
    var more := table[e.Id() := e];
    EndsGrow(table, e);
    assert SeedNodes(Store(nodes, more)) ==
           Mention(Mention(SeedNodes(Store(nodes, table)), EventUuid(e.event)), e.target);
  }

  /** Rebuilding from any listing of the records and the edges gives the graph of the store. */
  lemma RebuildIsLoad(rs: seq<Record>, es: seq<FactEdge>)
    requires DistinctIds(rs) && forall r | r in rs :: HonestRecord(r)
    ensures Rebuild(rs, es) == LoadState(Store(PutNodes(map[], rs), PutEdges(map[], es)))
  {
    FrameOfRecords(rs);
    FrameOfEdges(PutNodes(map[], rs), es);
  }

  ghost predicate DistinctEdges(es: seq<FactEdge>) {
    forall i, j | 0 <= i < j < |es| :: es[i].Id() != es[j].Id()
  }

  lemma {:induction false} PutNodesContents(rs: seq<Record>)
    requires DistinctIds(rs)
    ensures forall id :: id in PutNodes(map[], rs) <==> Listed(rs, id)
    ensures forall r | r in rs :: r.Id() in PutNodes(map[], rs) && PutNodes(map[], rs)[r.Id()] == r
  {
    if rs != [] {
      var init, last := rs[..|rs| - 1], rs[|rs| - 1];
      assert rs == init + [last];
      PutNodesContents(init);
      forall r | r in rs ensures r.Id() in PutNodes(map[], rs) && PutNodes(map[], rs)[r.Id()] == r {
        var i :| 0 <= i < |rs| && rs[i] == r;
        if i < |init| {
          assert r == init[i] && r.Id() != last.Id();
        }
      }
    }
  }

  lemma {:induction false} PutEdgesContents(es: seq<FactEdge>)
    requires DistinctEdges(es)
    ensures forall k :: k in PutEdges(map[], es) <==> exists e :: e in es && e.Id() == k
    ensures forall e | e in es :: e.Id() in PutEdges(map[], es) && PutEdges(map[], es)[e.Id()] == e
  {
    if es != [] {
      var init, last := es[..|es| - 1], es[|es| - 1];
      assert es == init + [last];
      PutEdgesContents(init);
      forall e | e in es ensures e.Id() in PutEdges(map[], es) && PutEdges(map[], es)[e.Id()] == e {
        var i :| 0 <= i < |es| && es[i] == e;
        if i < |init| {
          assert e == init[i] && e.Id() != last.Id();
        }
      }
    }
  }

  lemma OneMoreListed(rs: seq<Record>, x: Record)
    requires DistinctIds(rs) && !Listed(rs, x.Id())
    ensures DistinctIds(rs + [x]) && forall id :: Listed(rs + [x], id) <==> Listed(rs, id) || id == x.Id()
  {
  }

  /** Rebuilding does not depend on the order of the listing: identical nodes, edges, indices and
      provenance, down to the order of each fact's source events. */
  lemma SnapshotDeterminism(rs: seq<Record>, es: seq<FactEdge>, rs': seq<Record>, es': seq<FactEdge>)
    requires DistinctIds(rs) && DistinctEdges(es) && forall r | r in rs :: HonestRecord(r)
    requires DistinctIds(rs') && forall r :: r in rs' <==> r in rs
    requires DistinctEdges(es') && forall e :: e in es' <==> e in es
    ensures Rebuild(rs, es) == Rebuild(rs', es')
  {
    RebuildIsLoad(rs, es);
    RebuildIsLoad(rs', es');
    PutNodesContents(rs);
    PutNodesContents(rs');
    PutEdgesContents(es);
    PutEdgesContents(es');
    assert PutNodes(map[], rs) == PutNodes(map[], rs');
    assert PutEdges(map[], es) == PutEdges(map[], es');
  }
}
