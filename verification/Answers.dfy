/** What the summary of an ingest tells its caller, count by count. */
module Answers {
  import opened Core
  import opened GraphModel
  import opened FactGraphs
  import opened Trees
  import opened Scans
  import opened Extraction
  import opened Ingest
  import opened Stores
  import opened Deltas
  import opened Accounting

  /** The warnings of all items, in order. */
  function JobWarnings(items: seq<Item>): seq<Warning> {
    if items == [] then []
    else JobWarnings(items[..|items| - 1]) + ScanModel(items[|items| - 1].model).warnings
  }

  /** The `j`-th sighting finds its fact: its key was known, or an earlier sighting has the same. */
  predicate FindsAgain(known: set<Key>, ss: seq<Sighting>, j: nat) {
    j < |ss| && (ss[j].key in known || exists i :: 0 <= i < j && ss[i].key == ss[j].key)
  }

  /** The facts found again. */
  function FoundAgain(known: set<Key>, ss: seq<Sighting>): set<NodeId> {
    set j | 0 <= j < |ss| && FindsAgain(known, ss, j) :: FactNodeId(ss[j].key)
  }

  /** The facts found again, counted once for each item that does. */
  function LinkedCount(known: set<Key>, items: seq<Item>): nat {
    if items == [] then 0
    else
      var init := items[..|items| - 1];
      LinkedCount(known, init) + |FoundAgain(known + JobKeys(init), Sightings(items[|items| - 1]))|
  }

  /** What the answer to a caller says of an ingest of `items` into the store `s`. */
  ghost predicate RightSummary(s: Store, items: seq<Item>, r: IngestResult) {
    && |r.eventIds| == |items| && (forall i | 0 <= i < |items| :: r.eventIds[i] == items[i].event)
    && r.newNodes == |JobKeys(items) - Keys(s.nodes)|
    && r.linkedNodes == LinkedCount(Keys(s.nodes), items)
    && r.newEdges == |JobEdges(items)| && r.warnings == JobWarnings(items)
  }

  // ----- One item --------------------------------------------------------------------------------

  /** The index goes by fact ids. */
  predicate PlainIndex(g: GraphState) {
    forall k | k in g.byKey :: g.byKey[k] == FactNodeId(k)
  }

  lemma FoundAgainSnoc(known: set<Key>, ss: seq<Sighting>, s: Sighting)
    ensures FoundAgain(known, ss + [s]) ==
            FoundAgain(known, ss) + if s.key in known + KeysSeen(ss) then {FactNodeId(s.key)} else {}
  {
    var more := ss + [s];
    assert more[|ss|] == s;
    assert forall j | 0 <= j < |ss| :: more[j] == ss[j] && (FindsAgain(known, more, j) <==> FindsAgain(known, ss, j));
    if s.key in KeysSeen(ss) {
      var t :| t in ss && t.key == s.key;
      var i :| 0 <= i < |ss| && ss[i] == t;
      assert more[i].key == s.key;
      assert FindsAgain(known, more, |ss|);
    }
    assert FindsAgain(known, more, |ss|) <==> s.key in known + KeysSeen(ss);
  }

  lemma EmitReports(a: Acc, s: Sighting, st: Stamp)
    requires PlainIndex(a.g)
    ensures var b := Emit(a, s, st);
            && PlainIndex(b.g) && b.g.byKey.Keys == a.g.byKey.Keys + {s.key}
            && b.edges == a.edges + [EdgeFor(s, st.event)]
            && b.seen == a.seen + if s.key in a.g.byKey then {FactNodeId(s.key)} else {}
  {
    hide RecordFor;
  }

  lemma {:induction false} EmitAllReports(a: Acc, ss: seq<Sighting>, st: Stamp)
    requires PlainIndex(a.g)
    ensures var b := EmitAll(a, ss, st);
            && PlainIndex(b.g) && b.g.byKey.Keys == a.g.byKey.Keys + KeysSeen(ss)
            && b.edges == a.edges + EdgesFor(ss, st.event)
            && b.seen == a.seen + FoundAgain(a.g.byKey.Keys, ss)
  {
    hide Emit, PlainIndex, FoundAgain;
    if ss == [] {
      NothingFoundAgain(a.g.byKey.Keys);
      assert a.edges + EdgesFor(ss, st.event) == a.edges;
    } else {
      var init, s := ss[..|ss| - 1], ss[|ss| - 1];
      assert ss == init + [s];
      EmitAllReports(a, init, st);
      EmitReports(EmitAll(a, init, st), s, st);
      FoundAgainSnoc(a.g.byKey.Keys, init, s);
      KeysSeenGrow(init, s);
      EdgesForGrow(init, s, st.event);
    }
  }

  lemma NothingFoundAgain(known: set<Key>)
    ensures FoundAgain(known, []) == {}
  {
  }

  // ----- Item after item -------------------------------------------------------------------------

  /** The state after the items `done`, started from a graph that indexes the keys `known`. */
  ghost predicate Counted(known: set<Key>, b: Built, done: seq<Item>) {
    && b.error.None? && PlainIndex(b.g) && b.g.byKey.Keys == known + JobKeys(done)
    && |b.created| + |known| == |b.g.byKey| && |b.linked| == LinkedCount(known, done)
    && b.edges == JobEdges(done) && b.warnings == JobWarnings(done)
  }

  lemma CountItem(known: set<Key>, b: Built, tool: string, done: seq<Item>, it: Item)
    requires Counted(known, b, done) && ScanModel(it.model).error.None?
    ensures Counted(known, BuildItem(b, tool, it), done + [it])
  {
    hide ScanModel, ItemAcc, PlainIndex, JobKeys, JobEdges, JobWarnings, LinkedCount, EventRecordOf;
    var a := ItemAcc(b.g, tool, it);
    ItemReports(b.g, tool, it);
    JobGrows(done, it);
    ReportGrows(known, done, it);
  }

  lemma ReportGrows(known: set<Key>, done: seq<Item>, it: Item)
    ensures JobWarnings(done + [it]) == JobWarnings(done) + ScanModel(it.model).warnings
    ensures LinkedCount(known, done + [it]) ==
            LinkedCount(known, done) + |FoundAgain(known + JobKeys(done), Sightings(it))|
  {
    hide ScanModel, FoundAgain, JobKeys;
    assert (done + [it])[..|done|] == done;
  }

  /** What extracting one item adds. */
  lemma ItemReports(g: GraphState, tool: string, it: Item)
    requires PlainIndex(g)
    ensures var a := ItemAcc(g, tool, it);
            && PlainIndex(a.g) && a.g.byKey.Keys == g.byKey.Keys + KeysSeen(Sightings(it))
            && a.edges == EdgesFor(Sightings(it), it.event)
            && |a.created| + |g.byKey| == |a.g.byKey|
            && |a.linked| == |FoundAgain(g.byKey.Keys, Sightings(it))|
  {
    hide ScanModel, EmitAll, PlainIndex, FoundAgain, EdgesFor;
    var start := Acc(AddEvent(g, it.event, EventOf(tool, it)), [], [], {}, []);
    EventKeepsIndex(g, it.event, EventOf(tool, it));
    EmitAllReports(start, Sightings(it), ItemStamp(tool, it));
    EmitCounts(start, Sightings(it), ItemStamp(tool, it));
  }

  lemma EventKeepsIndex(g: GraphState, id: EventId, e: Node)
    requires PlainIndex(g)
    ensures PlainIndex(AddEvent(g, id, e)) && AddEvent(g, id, e).byKey == g.byKey
  {
  }

  lemma {:induction false} CountItems(known: set<Key>, b: Built, tool: string, done: seq<Item>, rest: seq<Item>)
    requires Counted(known, b, done)
    ensures BuildFrom(b, tool, rest).error == JobError(rest)
    ensures JobError(rest).None? ==> Counted(known, BuildFrom(b, tool, rest), done + rest)
    decreases rest
  {
    hide Counted, ScanModel;
    assert b.error.None? by {
      CountedIsFine(known, b, done);
    }
    if rest == [] {
      assert done + rest == done;
    } else {
      var it := rest[0];
      if ScanModel(it.model).error.None? {
        CountItem(known, b, tool, done, it);
        assert done + rest == done + [it] + rest[1..];
        CountItems(known, BuildItem(b, tool, it), tool, done + [it], rest[1..]);
      } else {
        assert BuildFrom(BuildItem(b, tool, it), tool, rest[1..]) == BuildItem(b, tool, it);
      }
    }
  }

  lemma CountedIsFine(known: set<Key>, b: Built, done: seq<Item>)
    requires Counted(known, b, done)
    ensures b.error.None?
  {
  }

  /** From any store, whatever its keys and those of the job: an ingest fails exactly when some item has
      to be refused, with the first error, and otherwise its summary reports what it did. */
  lemma IngestReports(s: Store, job: Job, r: IngestResult)
    ensures Build(LoadState(s), job).error == JobError(job.items)
    ensures Build(LoadState(s), job).error.None? && r.Summarises(Build(LoadState(s), job), job.items) ==>
              RightSummary(s, job.items, r)
  {
    hide BuildFrom, JobError, LoadState, Counted, Refresh, JobKeys, JobEdges, JobWarnings, LinkedCount;
    var g, b := LoadState(s), BuildFrom(Start(LoadState(s)), job.tool, job.items);
    CountStart(s);
    assert [] + job.items == job.items;
    CountItems(Keys(s.nodes), Start(g), job.tool, [], job.items);
    if b.error.None? {
      CountEnd(Keys(s.nodes), b, job.items);
    }
  }

  lemma CountStart(s: Store)
    ensures Counted(Keys(s.nodes), Start(LoadState(s)), [])
  {
    var g := LoadState(s);
    assert g.byKey.Keys == Keys(s.nodes) && |g.byKey| == |g.byKey.Keys|;
  }

  lemma CountEnd(known: set<Key>, b: Built, items: seq<Item>)
    requires Counted(known, b, items)
    ensures |b.created| == |JobKeys(items) - known| && |b.linked| == LinkedCount(known, items)
    ensures b.edges == JobEdges(items) && b.warnings == JobWarnings(items)
  {
    var ks := JobKeys(items);
    assert |b.g.byKey| == |b.g.byKey.Keys|;
    assert known + ks == known + (ks - known);
  }

  /** The warnings are those of the values, at any depth of any item, whose canonical text is empty. */
  lemma {:induction false} WarningsOccur(items: seq<Item>, w: Warning)
    requires forall i | 0 <= i < |items| :: ScanModel(items[i].model).error.None?
    ensures w in JobWarnings(items) <==> exists i, spot :: 0 <= i < |items| && DroppedAt(items[i].model, spot, w)
  {
    hide ScanModel, DroppedAt;
    if items != [] {
      var n := |items| - 1;
      var init, m := items[..n], items[n].model;
      WarningsOccur(init, w);
      var _, at := ScanModelFinds(m);
      var ws := ScanModel(m).warnings;
      if w in ws {
        var k :| 0 <= k < |ws| && ws[k] == w;
        assert IsAt(at, ws, at[k], w);
        assert DroppedAt(items[n].model, at[k], w);
      }
      forall spot | DroppedAt(m, spot, w) ensures w in ws {
        assert IsAt(at, ws, spot, w);
      }
      assert forall i, spot | 0 <= i < n :: DroppedAt(init[i].model, spot, w) <==> DroppedAt(items[i].model, spot, w);
    }
  }
}
