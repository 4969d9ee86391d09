/** What an ingest writes, as a function of the job alone. */
module Deltas {
  import opened Core
  import opened GraphModel
  import opened Scans
  import opened Extraction
  import opened Snapshot
  import opened Ingest
  import opened Stores

  // ----- The job's own reading -----------------------------------------------------------------

  function Sightings(it: Item): seq<Sighting> {
    ScanModel(it.model).sightings
  }

  function EdgeFor(s: Sighting, event: EventId): FactEdge {
    FactEdge(event, FactNodeId(s.key), s.edgeType, s.description)
  }

  function EdgesFor(ss: seq<Sighting>, event: EventId): seq<FactEdge> {
    seq(|ss|, i requires 0 <= i < |ss| => EdgeFor(ss[i], event))
  }

  function KeysSeen(ss: seq<Sighting>): set<Key> {
    set s | s in ss :: s.key
  }

  /** The edges of a job, one per occurrence, in order. */
  function JobEdges(items: seq<Item>): seq<FactEdge> {
    if items == [] then []
    else
      var it := items[|items| - 1];
      JobEdges(items[..|items| - 1]) + EdgesFor(Sightings(it), it.event)
  }

  function JobKeys(items: seq<Item>): set<Key> {
    if items == [] then {}
    else JobKeys(items[..|items| - 1]) + KeysSeen(Sightings(items[|items| - 1]))
  }

  /** The first failure among the items, if any. */
  function JobError(items: seq<Item>): Option<Error> {
    if items == [] then None
    else if ScanModel(items[0].model).error.Some? then ScanModel(items[0].model).error
    else JobError(items[1..])
  }

  /** A record without the text shown for the fact, which depends on who saw it first. */
  function Erase(r: Record): Record {
    if r.FactRecord? then r.(value := "") else r
  }

  function Erased(rs: seq<Record>): set<Record> {
    set r | r in rs :: Erase(r)
  }

  function FactOf(k: Key): Record {
    FactRecord(FactNodeId(k), k.nodeType, "", k.canonical)
  }

  ghost function EventRecords(tool: string, items: seq<Item>): set<Record> {
    set i | 0 <= i < |items| :: EventRecordOf(tool, items[i])
  }

  /** The records of a job: its events and the facts its sightings name. */
  ghost function JobRecords(job: Job): set<Record> {
    EventRecords(job.tool, job.items) + set k | k in JobKeys(job.items) :: FactOf(k)
  }

  ghost predicate DistinctEvents(items: seq<Item>) {
    forall i, j | 0 <= i < j < |items| :: items[i].event != items[j].event
  }

  /** Every key sighted is one that `names` names. */
  ghost predicate SightingsNamed(names: Naming, ss: seq<Sighting>) {
    forall s | s in ss :: Named(names, s.key)
  }

  ghost predicate JobNamed(names: Naming, items: seq<Item>) {
    forall i | 0 <= i < |items| :: SightingsNamed(names, Sightings(items[i]))
  }

  // ----- Graphs whose key index can be trusted -------------------------------------------------

  /** The index maps each key, a named one, to its own id, under which that fact sits. It is all an
      ingest needs of the graph it starts from, which may be stale, torn or truncated. */
  ghost predicate WellIndexed(names: Naming, g: GraphState) {
    forall k | k in g.byKey ::
      && Named(names, k) && g.byKey[k] == FactNodeId(k) && g.byKey[k] in g.nodes
      && g.nodes[g.byKey[k]].Fact?
      && Key(g.nodes[g.byKey[k]].nodeType, g.nodes[g.byKey[k]].canonical) == k
  }

  lemma EmitKeepsIndex(names: Naming, a: Acc, s: Sighting, st: Stamp)
    requires WellIndexed(names, a.g) && Named(names, s.key)
    ensures WellIndexed(names, Emit(a, s, st).g) && TargetOf(a.g, s.key) == FactNodeId(s.key)
    ensures Emit(a, s, st).g.byKey.Keys == a.g.byKey.Keys + {s.key}
    ensures var r := RecordFor(a.g, s.key, s.value); NamedRecord(names, r) && r.FactRecord? && KeyOf(r) == s.key
  {
    var up := Upsert(a.g, s.key, s.value, st);
    forall k | k in up.byKey
      ensures Named(names, k) && up.byKey[k] == FactNodeId(k) && up.byKey[k] in up.nodes
           && up.nodes[up.byKey[k]].Fact? && Key(up.nodes[up.byKey[k]].nodeType, up.nodes[up.byKey[k]].canonical) == k
    {
    }
  }

  // ----- One extraction ------------------------------------------------------------------------

  ghost predicate FactsOnly(names: Naming, rs: seq<Record>) {
    forall r | r in rs :: r.FactRecord? && NamedRecord(names, r)
  }

  function RecordKeys(rs: seq<Record>): set<Key> {
    set r | r in rs && r.FactRecord? :: KeyOf(r)
  }

  /** The accumulator `a` after the sightings `ss`, started from `g`. */
  ghost predicate Extracted(names: Naming, g: GraphState, a: Acc, ss: seq<Sighting>, event: EventId) {
    && WellIndexed(names, a.g) && a.g.byKey.Keys == g.byKey.Keys + KeysSeen(ss)
    && a.edges == EdgesFor(ss, event)
    && FactsOnly(names, a.created) && DistinctIds(a.created) && RecordKeys(a.created) == KeysSeen(ss) - g.byKey.Keys
    && FactsOnly(names, a.linked) && RecordKeys(a.linked) <= KeysSeen(ss)
    && KeysSeen(ss) * g.byKey.Keys <= RecordKeys(a.linked)
    && (forall k | FactNodeId(k) in a.seen && Named(names, k) :: k in RecordKeys(a.linked))
  }

  lemma {:induction false} ExtractionDelta(names: Naming, g: GraphState, ss: seq<Sighting>, st: Stamp)
    requires WellIndexed(names, g) && SightingsNamed(names, ss)
    ensures Extracted(names, g, EmitAll(Acc(g, [], [], {}, []), ss, st), ss, st.event)
  {
    if ss != [] {
      var init, s := ss[..|ss| - 1], ss[|ss| - 1];
      assert ss == init + [s];
      ExtractionDelta(names, g, init, st);
      OneSighting(names, g, EmitAll(Acc(g, [], [], {}, []), init, st), init, s, st);
    }
  }

  lemma KeysSeenGrow(ss: seq<Sighting>, s: Sighting)
    ensures KeysSeen(ss + [s]) == KeysSeen(ss) + {s.key}
  {
  }

  lemma EdgesForGrow(ss: seq<Sighting>, s: Sighting, event: EventId)
    ensures EdgesFor(ss + [s], event) == EdgesFor(ss, event) + [EdgeFor(s, event)]
  {
  }

  lemma OneSighting(names: Naming, g: GraphState, a: Acc, ss: seq<Sighting>, s: Sighting, st: Stamp)
    requires Extracted(names, g, a, ss, st.event) && Named(names, s.key)
    ensures Extracted(names, g, Emit(a, s, st), ss + [s], st.event)
  {
    hide WellIndexed, KeysSeen, RecordKeys, FactsOnly, DistinctIds, EdgesFor, NamedRecord, Upsert, AddEdge, RecordFor,
         TargetOf;
    var a', r := Emit(a, s, st), RecordFor(a.g, s.key, s.value);
    EmitKeepsIndex(names, a, s, st);
    KeysSeenGrow(ss, s);
    EdgesForGrow(ss, s, st.event);
    if s.key in a.g.byKey {
      assert a'.created == a.created;
      assert KeysSeen(ss + [s]) - g.byKey.Keys == KeysSeen(ss) - g.byKey.Keys;
      LinkedGrows(names, a, a', s.key, r);
    } else {
      assert a'.linked == a.linked && a'.seen == a.seen;
      RecordKeysGrow(a.created, r);
      StillDistinct(names, a.created, r);
    }
  }

  lemma LinkedGrows(names: Naming, a: Acc, a': Acc, key: Key, r: Record)
    requires r.FactRecord? && NamedRecord(names, r) && KeyOf(r) == key && Named(names, key)
    requires FactsOnly(names, a.linked)
    requires forall k | FactNodeId(k) in a.seen && Named(names, k) :: k in RecordKeys(a.linked)
    requires a'.linked == if FactNodeId(key) !in a.seen then a.linked + [r] else a.linked
    requires a'.seen == a.seen + {FactNodeId(key)}
    ensures FactsOnly(names, a'.linked) && RecordKeys(a'.linked) == RecordKeys(a.linked) + {key}
    ensures forall k | FactNodeId(k) in a'.seen && Named(names, k) :: k in RecordKeys(a'.linked)
  {
    RecordKeysGrow(a.linked, r);
    forall k | FactNodeId(k) in a'.seen && Named(names, k) ensures k in RecordKeys(a'.linked) {
    }
  }

  lemma RecordKeysGrow(rs: seq<Record>, r: Record)
    requires r.FactRecord?
    ensures RecordKeys(rs + [r]) == RecordKeys(rs) + {KeyOf(r)}
  {
  }

  lemma StillDistinct(names: Naming, rs: seq<Record>, r: Record)
    requires FactsOnly(names, rs) && DistinctIds(rs) && r.FactRecord? && NamedRecord(names, r)
    requires KeyOf(r) !in RecordKeys(rs)
    ensures FactsOnly(names, rs + [r]) && DistinctIds(rs + [r])
  {
    forall i | 0 <= i < |rs| ensures rs[i].Id() != r.Id() {
      assert rs[i] in rs;
    }
  }

  // ----- A whole ingest ------------------------------------------------------------------------

  /** The state `b` after the items `done`, started from `g`. */
  ghost predicate BuiltSoFar(names: Naming, g: GraphState, b: Built, tool: string, done: seq<Item>) {
    && b.error.None? && WellIndexed(names, b.g) && b.g.byKey.Keys == g.byKey.Keys + JobKeys(done)
    && b.edges == JobEdges(done)
    && FactsOnly(names, b.created) && DistinctIds(b.created) && RecordKeys(b.created) == JobKeys(done) - g.byKey.Keys
    && FactsOnly(names, b.linked) && RecordKeys(b.linked) <= JobKeys(done)
    && JobKeys(done) * g.byKey.Keys <= RecordKeys(b.linked)
    && (forall r | r in b.nodes && r.FactRecord? :: r in b.created)
    && (forall r | r in b.created :: r in b.nodes)
    && (forall r :: r in b.nodes && r.EventRecord? <==> r in EventRecords(tool, done))
    && DistinctIds(b.nodes)
  }

  lemma JobGrows(done: seq<Item>, it: Item)
    ensures JobKeys(done + [it]) == JobKeys(done) + KeysSeen(Sightings(it))
    ensures JobEdges(done + [it]) == JobEdges(done) + EdgesFor(Sightings(it), it.event)
  {
  }

  lemma EventsGrow(tool: string, done: seq<Item>, it: Item)
    ensures EventRecords(tool, done + [it]) == EventRecords(tool, done) + {EventRecordOf(tool, it)}
  {
    var more := done + [it];
    forall r | r in EventRecords(tool, done) ensures r in EventRecords(tool, more) {
      var i :| 0 <= i < |done| && r == EventRecordOf(tool, done[i]);
      assert more[i] == done[i];
    }
    assert more[|done|] == it;
  }

  lemma AddEventKeepsIndex(names: Naming, g: GraphState, id: EventId, e: Node)
    requires WellIndexed(names, g)
    ensures WellIndexed(names, AddEvent(g, id, e))
  {
  }

  lemma {:induction false} RecordKeysConcat(x: seq<Record>, y: seq<Record>)
    ensures RecordKeys(x + y) == RecordKeys(x) + RecordKeys(y)
  {
  }

  lemma DistinctConcat(x: seq<Record>, y: seq<Record>)
    requires DistinctIds(x) && DistinctIds(y)
    requires forall p, q | p in x && q in y :: p.Id() != q.Id()
    ensures DistinctIds(x + y)
  {
  }

  lemma CreatedStayApart(names: Naming, x: seq<Record>, y: seq<Record>)
    requires FactsOnly(names, x) && FactsOnly(names, y) && RecordKeys(x) !! RecordKeys(y)
    ensures forall p, q | p in x && q in y :: p.Id() != q.Id()
  {
    forall p, q | p in x && q in y ensures p.Id() != q.Id() {
      assert KeyOf(p) in RecordKeys(x) && KeyOf(q) in RecordKeys(y);
    }
  }

  lemma OneItem(names: Naming, g: GraphState, b: Built, tool: string, done: seq<Item>, it: Item)
    requires BuiltSoFar(names, g, b, tool, done) && ScanModel(it.model).error.None?
    requires SightingsNamed(names, Sightings(it)) && DistinctEvents(done + [it])
    ensures BuiltSoFar(names, g, BuildItem(b, tool, it), tool, done + [it])
  {
    hide KeysSeen, RecordKeys, FactsOnly, DistinctIds, WellIndexed, EdgesFor, JobKeys, JobEdges, EventRecords, EmitAll,
         DistinctEvents, EventRecordOf;
    var g1, ss := AddEvent(b.g, it.event, EventOf(tool, it)), Sightings(it);
    AddEventKeepsIndex(names, b.g, it.event, EventOf(tool, it));
    ExtractionDelta(names, g1, ss, ItemStamp(tool, it));
    var a, b' := ItemAcc(b.g, tool, it), BuildItem(b, tool, it);
    assert Extracted(names, g1, a, ss, it.event);
    JobGrows(done, it);
    ItemCreated(names, g, b, a, tool, done, it);
    ItemNodes(names, b, a, tool, done, it);
  }

  lemma ItemCreated(names: Naming, g: GraphState, b: Built, a: Acc, tool: string, done: seq<Item>, it: Item)
    requires BuiltSoFar(names, g, b, tool, done)
    requires Extracted(names, AddEvent(b.g, it.event, EventOf(tool, it)), a, Sightings(it), it.event)
    ensures var c, l, ks := b.created + a.created, b.linked + a.linked, JobKeys(done) + KeysSeen(Sightings(it));
            && FactsOnly(names, c) && DistinctIds(c) && RecordKeys(c) == ks - g.byKey.Keys
            && FactsOnly(names, l) && RecordKeys(l) <= ks && ks * g.byKey.Keys <= RecordKeys(l)
    ensures forall p, q | p in b.created && q in a.created :: p.Id() != q.Id()
  {
    RecordKeysConcat(b.created, a.created);
    RecordKeysConcat(b.linked, a.linked);
    CreatedStayApart(names, b.created, a.created);
    DistinctConcat(b.created, a.created);
  }

  lemma ItemNodes(names: Naming, b: Built, a: Acc, tool: string, done: seq<Item>, it: Item)
    requires DistinctIds(b.nodes) && DistinctIds(a.created) && FactsOnly(names, a.created)
    requires DistinctEvents(done + [it])
    requires forall r | r in b.nodes && r.FactRecord? :: r in b.created
    requires forall r | r in b.created :: r in b.nodes
    requires forall r :: r in b.nodes && r.EventRecord? <==> r in EventRecords(tool, done)
    requires forall p, q | p in b.created && q in a.created :: p.Id() != q.Id()
    ensures var ns, c := b.nodes + [EventRecordOf(tool, it)] + a.created, b.created + a.created;
            && DistinctIds(ns)
            && (forall r | r in ns && r.FactRecord? :: r in c)
            && (forall r | r in c :: r in ns)
            && (forall r :: r in ns && r.EventRecord? <==> r in EventRecords(tool, done + [it]))
  {
    var e := EventRecordOf(tool, it);
    EventsGrow(tool, done, it);
    forall r | r in b.nodes ensures r.Id() != e.Id() {
      if r.EventRecord? {
        var i :| 0 <= i < |done| && r == EventRecordOf(tool, done[i]);
        assert (done + [it])[i] == done[i] && (done + [it])[|done|] == it;
      }
    }
    DistinctConcat(b.nodes, [e]);
    forall p, q | p in b.nodes + [e] && q in a.created ensures p.Id() != q.Id() {
    }
    DistinctConcat(b.nodes + [e], a.created);
  }

  lemma SoFarIsFine(names: Naming, g: GraphState, b: Built, tool: string, done: seq<Item>)
    requires BuiltSoFar(names, g, b, tool, done)
    ensures b.error.None?
  {
  }

  /** The rest of the items, from a state that is right so far. */
  lemma {:induction false} RestOfItems(names: Naming, g: GraphState, b: Built, tool: string, done: seq<Item>,
      rest: seq<Item>)
    requires BuiltSoFar(names, g, b, tool, done) && JobNamed(names, rest) && DistinctEvents(done + rest)
    ensures BuildFrom(b, tool, rest).error == JobError(rest)
    ensures JobError(rest).None? ==> BuiltSoFar(names, g, BuildFrom(b, tool, rest), tool, done + rest)
    decreases rest
  {
    hide BuiltSoFar, ItemAcc;
    SoFarIsFine(names, g, b, tool, done);
    if rest == [] {
      assert done + rest == done;
    } else {
      var it := rest[0];
      var b' := BuildItem(b, tool, it);
      if ScanModel(it.model).error.None? {
        assert SightingsNamed(names, Sightings(it));
        assert done + rest == done + [it] + rest[1..];
        assert DistinctEvents(done + [it]) by {
          assert forall i | 0 <= i <= |done| :: (done + [it])[i] == (done + rest)[i];
        }
        OneItem(names, g, b, tool, done, it);
        forall i | 0 <= i < |rest[1..]| ensures SightingsNamed(names, Sightings(rest[1..][i])) {
          assert rest[1..][i] == rest[i + 1];
        }
        RestOfItems(names, g, b', tool, done + [it], rest[1..]);
      } else {
        assert BuildFrom(b', tool, rest[1..]) == b';
      }
    }
  }

  lemma {:induction false} RefreshAdds(nodes: seq<Record>, touched: seq<Record>)
    requires DistinctIds(nodes)
    ensures var ns := Refresh(nodes, touched);
            && DistinctIds(ns)
            && (forall r | r in nodes :: r in ns)
            && (forall r | r in ns :: r in nodes || r in touched)
            && (forall r | r in touched :: Listed(ns, r.Id()))
    decreases touched
  {
    if touched != [] {
      var t := touched[0];
      var next := if Listed(nodes, t.Id()) then nodes else nodes + [t];
      assert Listed(next, t.Id()) by {
        assert !Listed(nodes, t.Id()) ==> t in next;
      }
      var w :| w in next && w.Id() == t.Id();
      assert DistinctIds(next);
      RefreshAdds(next, touched[1..]);
      assert w in Refresh(next, touched[1..]);
      forall r | r in touched ensures Listed(Refresh(nodes, touched), r.Id()) {
        if r != t {
          assert r in touched[1..];
        }
      }
    }
  }

  // ----- The two main results ------------------------------------------------------------------

  /** All items, from the graph an ingest starts with. */
  lemma WholeJob(names: Naming, g: GraphState, job: Job)
    requires WellIndexed(names, g) && JobNamed(names, job.items) && DistinctEvents(job.items)
    ensures var b := BuildFrom(Start(g), job.tool, job.items);
            && b.error == JobError(job.items) && (b.error.None? ==> BuiltSoFar(names, g, b, job.tool, job.items))
  {
    assert [] + job.items == job.items;
    RestOfItems(names, g, Start(g), job.tool, [], job.items);
  }

  /** What an ingest writes does not depend on the graph it started from: it fails exactly when the
      job's own reading fails, and otherwise its edges, its events and its facts (up to the text
      shown) are those of the job. Only the split into new and linked facts sees the graph. */
  lemma DeltaIndependence(names: Naming, g: GraphState, job: Job)
    requires WellIndexed(names, g) && JobNamed(names, job.items) && DistinctEvents(job.items)
    ensures var b := Build(g, job);
            && b.error == JobError(job.items)
            && (b.error.None? ==>
                && b.edges == JobEdges(job.items)
                && Erased(b.nodes) == JobRecords(job)
                && (forall r | r in b.nodes :: NamedRecord(names, r)))
  {
    var b := BuildFrom(Start(g), job.tool, job.items);
    WholeJob(names, g, job);
    hide BuildFrom, WellIndexed, JobNamed, DistinctEvents;
    if b.error.None? {
      ErasedNodes(names, g, b, job);
    }
  }

  lemma ErasedNodes(names: Naming, g: GraphState, b: Built, job: Job)
    requires BuiltSoFar(names, g, b, job.tool, job.items)
    ensures Erased(Refresh(b.nodes, b.created + b.linked)) == JobRecords(job)
    ensures forall r | r in Refresh(b.nodes, b.created + b.linked) :: NamedRecord(names, r)
  {
    RefreshAdds(b.nodes, b.created + b.linked);
    var ns := Refresh(b.nodes, b.created + b.linked);
    forall r | r in ns
      ensures NamedRecord(names, r) && Erase(r) in JobRecords(job)
    {
      if r.FactRecord? {
        assert r in b.created || r in b.linked;
        assert KeyOf(r) in RecordKeys(b.created) || KeyOf(r) in RecordKeys(b.linked);
        assert Erase(r) == FactOf(KeyOf(r));
      }
    }
    forall x | x in JobRecords(job) ensures x in Erased(ns) {
      if x.EventRecord? {
        assert x in ns && Erase(x) == x;
      } else {
        var k :| k in JobKeys(job.items) && x == FactOf(k);
        assert k in RecordKeys(b.created) || k in RecordKeys(b.linked);
        var t :| t in b.created + b.linked && KeyOf(t) == k;
        assert Listed(ns, t.Id());
        var r :| r in ns && r.Id() == t.Id();
        assert r in b.created || r in b.linked;
        assert Erase(r) == x;
      }
    }
  }

  ghost predicate HasEvent(items: seq<Item>, id: NodeId) {
    exists i :: 0 <= i < |items| && id == EventUuid(items[i].event)
  }

  ghost predicate HasTarget(es: seq<FactEdge>, id: NodeId) {
    exists e :: e in es && e.target == id
  }

  ghost predicate IsIdOf(ks: set<Key>, id: NodeId) {
    exists k :: k in ks && FactNodeId(k) == id
  }

  lemma DeltaDistinct(names: Naming, g: GraphState, job: Job)
    requires WellIndexed(names, g) && JobNamed(names, job.items) && DistinctEvents(job.items)
    requires Build(g, job).error.None?
    ensures DistinctIds(Build(g, job).nodes)
  {
    hide BuildFrom, WellIndexed, JobNamed, DistinctEvents;
    var b := BuildFrom(Start(g), job.tool, job.items);
    WholeJob(names, g, job);
    RefreshAdds(b.nodes, b.created + b.linked);
  }

  /** The records of a delta have pairwise distinct ids, and those are exactly the ids of the new
      events together with the targets of the edges. */
  lemma DeltaExactness(names: Naming, g: GraphState, job: Job)
    requires WellIndexed(names, g) && JobNamed(names, job.items) && DistinctEvents(job.items)
    requires Build(g, job).error.None?
    ensures var b := Build(g, job);
            DistinctIds(b.nodes) && forall id :: Listed(b.nodes, id) <==>
                HasEvent(job.items, id) || HasTarget(b.edges, id)
  {
    var b := Build(g, job);
    DeltaDistinct(names, g, job);
    DeltaIndependence(names, g, job);
    forall id
      ensures Listed(b.nodes, id) <==> HasEvent(job.items, id) || HasTarget(b.edges, id)
    {
      IdsOfRecords(b.nodes, job, id);
      TargetsAreKeys(job.items, id);
    }
  }

  lemma IdsOfRecords(rs: seq<Record>, job: Job, id: NodeId)
    requires Erased(rs) == JobRecords(job)
    ensures Listed(rs, id) <==> HasEvent(job.items, id) || IsIdOf(JobKeys(job.items), id)
  {
    if r :| r in rs && r.Id() == id {
      assert Erase(r) in Erased(rs) && Erase(r).Id() == id;
    }
    if i :| 0 <= i < |job.items| && id == EventUuid(job.items[i].event) {
      var x := EventRecordOf(job.tool, job.items[i]);
      assert x in JobRecords(job);
      var r :| r in rs && Erase(r) == x;
    }
    if k :| k in JobKeys(job.items) && FactNodeId(k) == id {
      assert FactOf(k) in JobRecords(job);
      var r :| r in rs && Erase(r) == FactOf(k);
    }
  }

  lemma {:induction false} TargetsAreKeys(items: seq<Item>, id: NodeId)
    ensures HasTarget(JobEdges(items), id) <==> IsIdOf(JobKeys(items), id)
  {
    if items != [] {
      var init, it := items[..|items| - 1], items[|items| - 1];
      TargetsAreKeys(init, id);
      var ss := Sightings(it);
      if e :| e in JobEdges(items) && e.target == id {
        if e !in JobEdges(init) {
          var i :| 0 <= i < |ss| && EdgesFor(ss, it.event)[i] == e;
          assert ss[i].key in JobKeys(items);
        } else {
          var k :| k in JobKeys(init) && FactNodeId(k) == id;
          assert k in JobKeys(items);
        }
      }
      if k :| k in JobKeys(items) && FactNodeId(k) == id {
        if k !in JobKeys(init) {
          var i :| 0 <= i < |ss| && ss[i].key == k;
          assert EdgesFor(ss, it.event)[i] in JobEdges(items);
        } else {
          var e :| e in JobEdges(init) && e.target == id;
          assert e in JobEdges(items);
        }
      }
    }
  }
}
