/** One ingest: an event per item, the extraction of each item, and the delta to be written. */
module Ingest {
  import opened Core
  import opened GraphModel
  import opened FactGraphs
  import opened Trees
  import opened Scans
  import opened Extraction

  /** A validated item, with the fresh event id and the two clock readings taken for it. */
  datatype Item = Item(model: Model, event: EventId, at: int, now: int)

  datatype Job = Job(tool: string, items: seq<Item>)

  // ----- Scalars that stay on the event --------------------------------------------------------

  /** The unmarked scalar fields of the item itself. Nested models contribute nothing. */
  function EventProperties(fs: seq<Field>): Properties {
    if fs == [] then map[]
    else
      var f, rest := fs[|fs| - 1], EventProperties(fs[..|fs| - 1]);
      if f.entity.None? && f.value.ScalarVal? then rest[f.name := f.value.scalar] else rest
  }

  predicate IsScalarNamed(f: Field, n: string) {
    f.entity.None? && f.value.ScalarVal? && f.name == n
  }

  /** Field `i` is the last unmarked scalar of this name, and `v` its value. */
  ghost predicate IsLastNamed(fs: seq<Field>, i: nat, n: string, v: Scalar) {
    && i < |fs| && IsScalarNamed(fs[i], n) && fs[i].value.scalar == v
    && forall j | i < j < |fs| :: !IsScalarNamed(fs[j], n)
  }

  /** A name is there exactly when some unmarked scalar field has it, with the value of the last one. */
  ghost predicate HoldsScalars(out: Properties, fs: seq<Field>) {
    && (forall f, n | f in fs && IsScalarNamed(f, n) :: n in out)
    && (forall n | n in out :: exists i :: IsLastNamed(fs, i, n, out[n]))
  }

  lemma {:induction false} EventPropertiesAre(fs: seq<Field>)
    ensures HoldsScalars(EventProperties(fs), fs)
  {
    if fs != [] {
      var init, f, out := fs[..|fs| - 1], fs[|fs| - 1], EventProperties(fs);
      assert fs == init + [f];
      EventPropertiesAre(init);
      forall n | n in out ensures exists i :: IsLastNamed(fs, i, n, out[n]) {
        if IsScalarNamed(f, n) {
          assert IsLastNamed(fs, |init|, n, out[n]);
        } else {
          var i :| IsLastNamed(init, i, n, out[n]);
          assert IsLastNamed(fs, i, n, out[n]);
        }
      }
    }
  }

  method CollectProperties(m: Model) returns (out: Properties)
    ensures out == EventProperties(m.fields) && HoldsScalars(out, m.fields)
  {
    out := map[];
    for i := 0 to |m.fields|
      invariant out == EventProperties(m.fields[..i])
    {
      var f := m.fields[i];
      assert m.fields[..i + 1][..i] == m.fields[..i];
      if f.entity.None? && f.value.ScalarVal? {
        out := out[f.name := f.value.scalar];
      }
    }
    assert m.fields[..|m.fields|] == m.fields;
    EventPropertiesAre(m.fields);
  }

  // ----- What an ingest computes ---------------------------------------------------------------

  function EventOf(tool: string, it: Item): Node {
    Event(tool, it.at, EventProperties(it.model.fields))
  }

  function EventRecordOf(tool: string, it: Item): Record {
    EventRecord(it.event, tool, it.at, EventProperties(it.model.fields))
  }

  /** The state of an ingest: the graph, the node records to write, and what goes into the summary. */
  datatype Built = Built(
    g: GraphState, nodes: seq<Record>, created: seq<Record>, linked: seq<Record>,
    edges: seq<FactEdge>, warnings: seq<Warning>, error: Option<Error>)

  function ItemStamp(tool: string, it: Item): Stamp {
    Stamp(it.event, tool, it.now)
  }

  /** What extracting one item leaves, from the graph `g` that already holds its event. */
  function ItemAcc(g: GraphState, tool: string, it: Item): Acc {
    EmitAll(Acc(AddEvent(g, it.event, EventOf(tool, it)), [], [], {}, []), ScanModel(it.model).sightings,
        ItemStamp(tool, it))
  }

  function BuildItem(b: Built, tool: string, it: Item): Built {
    var a, sc := ItemAcc(b.g, tool, it), ScanModel(it.model);
    if sc.error.Some? then b.(g := a.g, error := sc.error)
    else
      Built(a.g, b.nodes + [EventRecordOf(tool, it)] + a.created, b.created + a.created, b.linked + a.linked,
            b.edges + a.edges, b.warnings + sc.warnings, None)
  }

  /** The items in turn from state `b`, stopping at the first that fails. */
  function BuildFrom(b: Built, tool: string, items: seq<Item>): Built
    decreases items
  {
    if items == [] || b.error.Some? then b else BuildFrom(BuildItem(b, tool, items[0]), tool, items[1..])
  }

  function Start(g: GraphState): Built {
    Built(g, [], [], [], [], [], None)
  }

  predicate Listed(rs: seq<Record>, id: NodeId) {
    exists r :: r in rs && r.Id() == id
  }

  /** Every touched fact that is not yet among the records to write is appended, once. */
  function Refresh(nodes: seq<Record>, touched: seq<Record>): seq<Record>
    decreases touched
  {
    if touched == [] then nodes
    else Refresh(if Listed(nodes, touched[0].Id()) then nodes else nodes + [touched[0]], touched[1..])
  }

  lemma RefreshStep(nodes: seq<Record>, all: seq<Record>, i: nat)
    requires i <= |all|
    ensures i == |all| ==> Refresh(nodes, all[i..]) == nodes
    ensures i < |all| ==>
              Refresh(nodes, all[i..]) ==
                  Refresh(if Listed(nodes, all[i].Id()) then nodes else nodes + [all[i]], all[i + 1..])
  {
  }

  /** The whole ingest, as a function of the graph it starts from. */
  function Build(g: GraphState, job: Job): Built {
    var b := BuildFrom(Start(g), job.tool, job.items);
    b.(nodes := Refresh(b.nodes, b.created + b.linked))
  }

  // ----- The imperative construction -----------------------------------------------------------

  function PayloadRecord(n: NodeRef): Record
    requires n.EventRef? ==> n.event.Event?
    requires !n.NoObj?
  {
    match n
    case EventRef(uuid, e) => EventRecord(uuid, e.tool, e.timestamp, e.properties)
    case FactRef(f) => RecordOf(f)
  }

  ghost predicate Proper(ns: seq<NodeRef>) {
    forall n | n in ns :: !n.NoObj? && (n.EventRef? ==> n.event.Event?)
  }

  function PayloadRecords(ns: seq<NodeRef>): seq<Record>
    requires Proper(ns)
  {
    seq(|ns|, i requires 0 <= i < |ns| => PayloadRecord(ns[i]))
  }

  function FactRefs(fs: seq<FactNode>): seq<NodeRef> {
    seq(|fs|, i requires 0 <= i < |fs| => FactRef(fs[i]))
  }

  datatype IngestResult = IngestResult(eventIds: seq<EventId>, newNodes: nat, linkedNodes: nat, newEdges: nat,
      warnings: seq<Warning>) {
    /** The counts of a delta: a fact counts as new once, as linked once per item, an edge per occurrence. */
    ghost predicate Summarises(b: Built, items: seq<Item>) {
      && newNodes == |b.created| && linkedNodes == |b.linked| && newEdges == |b.edges| && warnings == b.warnings
      && |eventIds| == |items| && forall i | 0 <= i < |eventIds| :: eventIds[i] == items[i].event
    }
  }

  /** The accumulator of nodes and edges produced by one ingest. */
  class Payload {
    var nodes: seq<NodeRef>
    var edges: seq<FactEdge>
    var newFacts: seq<FactNode>
    var linkedFacts: seq<FactNode>

    constructor ()
      ensures nodes == [] && edges == [] && newFacts == [] && linkedFacts == []
    {
      nodes, edges, newFacts, linkedFacts := [], [], [], [];
    }

    /** The lists hold what `b` says. */
    ghost predicate Holds(b: Built)
      reads this
    {
      && Proper(nodes)
      && (forall n | n in nodes && n.FactRef? :: n.fact in newFacts)
      && (forall f | f in newFacts :: FactRef(f) in nodes)
      && PayloadRecords(nodes) == b.nodes
      && edges == b.edges
      && Records(newFacts) == b.created
      && Records(linkedFacts) == b.linked
    }

    method AddItem(event: NodeRef, ex: Extractor, ghost b: Built, ghost b': Built)
      requires Holds(b) && event.EventRef? && event.event.Event?
      requires b'.nodes == b.nodes + [PayloadRecord(event)] + Records(ex.newFacts)
      requires b'.created == b.created + Records(ex.newFacts) && b'.linked == b.linked + Records(ex.linkedFacts)
      requires b'.edges == b.edges + ex.newEdges
      modifies this
      ensures Holds(b')
      ensures |newFacts| == |old(newFacts)| + |ex.newFacts| && |linkedFacts| == |old(linkedFacts)| + |ex.linkedFacts|
    {
      hide RecordOf;
      ghost var before := nodes;
      nodes := nodes + [event] + FactRefs(ex.newFacts);
      assert forall i | 0 <= i < |ex.newFacts| :: nodes[|before| + 1 + i] == FactRef(ex.newFacts[i]);
      assert PayloadRecords(nodes) == PayloadRecords(before) + [PayloadRecord(event)] + Records(ex.newFacts);
      assert Records(newFacts + ex.newFacts) == b.created + Records(ex.newFacts);
      assert Records(linkedFacts + ex.linkedFacts) == b.linked + Records(ex.linkedFacts);
      newFacts := newFacts + ex.newFacts;
      linkedFacts := linkedFacts + ex.linkedFacts;
      edges := edges + ex.newEdges;
    }

    /** What the caller gets: the records to write and the edges of `b`, and the facts it names. */
    ghost predicate Delivers(b: Built)
      reads this
    {
      && Proper(nodes) && PayloadRecords(nodes) == b.nodes && edges == b.edges
      && Records(newFacts) == b.created && Records(linkedFacts) == b.linked
    }

    /** Appends each touched fact that the list does not hold yet. */
    method RefreshNodes(ghost b: Built)
      requires Holds(b)
      modifies `nodes
      ensures Delivers(b.(nodes := Refresh(b.nodes, b.created + b.linked)))
    {
      hide Listed, Sound, Refresh;
      var touched := newFacts + linkedFacts;
      ghost var all := b.created + b.linked;
      assert forall i | 0 <= i < |touched| :: all[i] == RecordOf(touched[i]);
      var refreshed: set<NodeId> := {};
      SoundAtStart(b, touched);
      ghost var rs := b.nodes;
      for i := 0 to |touched|
        invariant Proper(nodes) && rs == PayloadRecords(nodes)
        invariant Refresh(rs, all[i..]) == Refresh(b.nodes, all)
        invariant Sound(refreshed, touched, i)
      {
        refreshed := RefreshOne(refreshed, touched, i);
        RefreshStep(rs, all, i);
        rs := PayloadRecords(nodes);
      }
      RefreshStep(rs, all, |touched|);
    }

    /** Step `i` of the refresh. */
    method RefreshOne(refreshed: set<NodeId>, touched: seq<FactNode>, i: nat) returns (refreshed': set<NodeId>)
      requires Proper(nodes) && i < |touched| && Sound(refreshed, touched, i)
      modifies `nodes
      ensures Proper(nodes) && Sound(refreshed', touched, i + 1)
      ensures PayloadRecords(nodes) == var rs, r := old(PayloadRecords(nodes)), RecordOf(touched[i]);
                                       if Listed(rs, r.Id()) then rs else rs + [r]
    {
      var f := touched[i];
      refreshed' := refreshed;
      FactIdsListed(nodes, f.id);
      if f.id !in refreshed {
        if n :| n in nodes && n.FactRef? && n.fact.id == f.id {
          var k :| 0 <= k < |newFacts| && newFacts[k] == n.fact;
          assert touched[k].id == f.id;
        }
        Touch(f);
        refreshed' := refreshed + {f.id};
      }
    }

    /** The new facts are listed, the ids refreshed so far too, and no other fact is. */
    ghost predicate Sound(refreshed: set<NodeId>, touched: seq<FactNode>, i: nat)
      requires i <= |touched|
      reads this
    {
      && (forall n | n in nodes && n.FactRef? :: n.fact in newFacts || n.fact.id in refreshed)
      && (forall f | f in newFacts :: FactRef(f) in nodes)
      && touched == newFacts + linkedFacts
      && (forall id | id in refreshed :: id.FactDigest? && Lists(id))
      && (forall j | 0 <= j < i :: touched[j].id in refreshed)
    }

    lemma SoundAtStart(b: Built, touched: seq<FactNode>)
      requires Holds(b) && touched == newFacts + linkedFacts
      ensures Sound({}, touched, 0)
    {
    }

    ghost predicate Lists(id: FactId)
      reads this
    {
      exists n :: n in nodes && n.FactRef? && n.fact.id == id
    }

    /** One touched fact, none of whose namesakes is listed unless it is itself. */
    method Touch(f: FactNode)
      requires Proper(nodes)
      requires Lists(f.id) ==> FactRef(f) in nodes
      modifies `nodes
      ensures Proper(nodes) && Lists(f.id)
      ensures PayloadRecords(nodes) == if old(Lists(f.id)) then old(PayloadRecords(nodes))
              else old(PayloadRecords(nodes)) + [RecordOf(f)]
      ensures forall n :: n in nodes <==> n in old(nodes) || n == FactRef(f)
    {
      if FactRef(f) !in nodes {
        ghost var ns := nodes;
        nodes := nodes + [FactRef(f)];
        assert PayloadRecords(nodes) == PayloadRecords(ns) + [RecordOf(f)];
        assert FactRef(f) in nodes;
      }
    }
  }

  /** A fact's id is among the ids of the records exactly when some listed object carries it. */
  lemma FactIdsListed(ns: seq<NodeRef>, id: FactId)
    requires Proper(ns)
    ensures Listed(PayloadRecords(ns), id) <==> exists n :: n in ns && n.FactRef? && n.fact.id == id
  {
    var rs := PayloadRecords(ns);
    if n :| n in ns && n.FactRef? && n.fact.id == id {
      var i :| 0 <= i < |ns| && ns[i] == n;
      assert rs[i] in rs;
    }
    if r :| r in rs && r.Id() == id {
      var i :| 0 <= i < |rs| && rs[i] == r;
      assert ns[i] in ns;
    }
  }

  /** The event of one item, and its extraction. */
  method ExtractItem(graph: FactGraph, tool: string, it: Item)
      returns (event: NodeRef, ex: Extractor, err: Option<Error>)
    requires graph.Valid()
    modifies graph, graph.Facts()
    ensures graph.Valid() && fresh(graph.Facts() - old(graph.Facts()))
    ensures event == EventRef(it.event, EventOf(tool, it))
    ensures ex.graph == graph && ex.View() == ItemAcc(old(graph.View()), tool, it)
    ensures ex.warnings == ScanModel(it.model).warnings && err == ScanModel(it.model).error
  {
    hide Extracts, WarningsAt, HoldsScalars, ScanModel, EmitAll;
    var properties := CollectProperties(it.model);
    event := EventRef(it.event, Event(tool, it.at, properties));
    graph.AddEvent(it.event, event.event);
    ex := new Extractor(graph, ItemStamp(tool, it));
    err := ex.Walk(it.model);
  }

  /** One item: the graph, the accumulator and the counts move from `b` to `b'`. */
  method IngestItem(graph: FactGraph, payload: Payload, sofar: IngestResult, tool: string, it: Item,
                    ghost done: seq<Item>, ghost b: Built)
      returns (result: IngestResult, err: Option<Error>, ghost b': Built)
    requires graph.Valid() && graph.View() == b.g && payload.Holds(b) && sofar.Summarises(b, done)
    modifies graph, graph.Facts(), payload
    ensures graph.Valid() && fresh(graph.Facts() - old(graph.Facts()))
    ensures b' == BuildItem(b, tool, it) && graph.View() == b'.g && err == b'.error
    ensures err.None? ==> payload.Holds(b') && result.Summarises(b', done + [it])
  {
    var event, ex, e := ExtractItem(graph, tool, it);
    err, b', result := e, BuildItem(b, tool, it), sofar;
    if err.None? {
      payload.AddItem(event, ex, b, b');
      result := IngestResult(sofar.eventIds + [it.event], sofar.newNodes + |ex.newFacts|,
          sofar.linkedNodes + |ex.linkedFacts|,
                             sofar.newEdges + |ex.newEdges|, sofar.warnings + ex.warnings);
    }
  }

  /** The items in turn, up to the first that fails. */
  method IngestItems(graph: FactGraph, payload: Payload, job: Job)
      returns (result: IngestResult, err: Option<Error>, ghost b: Built)
    requires graph.Valid() && payload.Holds(Start(graph.View()))
    modifies graph, graph.Facts(), payload
    ensures graph.Valid() && fresh(graph.Facts() - old(graph.Facts()))
    ensures b == BuildFrom(Start(old(graph.View())), job.tool, job.items) && graph.View() == b.g && err == b.error
    ensures err.None? ==> payload.Holds(b) && result.Summarises(b, job.items)
  {
    hide BuildItem;
    result, err := IngestResult([], 0, 0, 0, []), None;
    b := Start(graph.View());
    ghost var whole := BuildFrom(b, job.tool, job.items);
    for i := 0 to |job.items|
      invariant graph.Valid() && fresh(graph.Facts() - old(graph.Facts()))
      invariant whole == BuildFrom(b, job.tool, job.items[i..])
      invariant graph.View() == b.g && err == b.error == None
      invariant payload.Holds(b) && result.Summarises(b, job.items[..i])
    {
      var it := job.items[i];
      assert job.items[i..][0] == it && job.items[i..][1..] == job.items[i + 1..];
      result, err, b := IngestItem(graph, payload, result, job.tool, it, job.items[..i], b);
      assert job.items[..i] + [it] == job.items[..i + 1];
      if err.Some? {
        return;
      }
    }
    assert job.items[..|job.items|] == job.items;
  }

  /** Mutates the graph with the job's items and returns the delta and the summary. On a failure
      the graph keeps what came before it, and there is no delta. */
  method BuildPayload(graph: FactGraph, job: Job) returns (payload: Payload, result: IngestResult, err: Option<Error>)
    requires graph.Valid()
    modifies graph, graph.Facts()
    ensures graph.Valid() && fresh(graph.Facts() - old(graph.Facts())) && fresh(payload)
    ensures var b := Build(old(graph.View()), job);
            && graph.View() == b.g && err == b.error
            && (err.None? ==> payload.Delivers(b) && result.Summarises(b, job.items))
  {
    hide BuildFrom, Refresh, Listed;
    payload := new Payload();
    assert PayloadRecords([]) == [] && Records([]) == [];
    ghost var b;
    result, err, b := IngestItems(graph, payload, job);
    if err.None? {
      payload.RefreshNodes(b);
    }
  }
}
