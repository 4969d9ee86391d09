/** Pages that join late: a snapshot, then every message sent since some earlier moment. */
module LateJoiner {
  import opened Core
  import opened GraphModel
  import opened Snapshot
  import opened Ingest
  import opened Stores
  import opened Deltas
  import opened Protocol
  import opened Serial
  import opened Confluence
  import opened Coherence
  import opened Incremental
  import opened Conservation
  import opened StreamHook

  /** The store after the first `k` ingests. */
  ghost function StoreAt(base: Store, jobs: seq<Job>, k: nat): Store
    requires k <= |jobs|
  {
    SerialStore(base, jobs[..k])
  }

  /** What the hook is told of one ingest on the store `s`: nothing if it raised. */
  ghost function Batch(s: Store, job: Job): seq<Message> {
    var b := Build(LoadState(s), job);
    if b.error.Some? then [] else MessagesOf(b, if job.items == [] then None else Some(job.items[0].event))
  }

  /** The messages of the ingests from the s-th up to the u-th. */
  ghost function Sent(base: Store, jobs: seq<Job>, s: nat, u: nat): seq<Message>
    requires s <= u <= |jobs|
  {
    if s == u then [] else Sent(base, jobs, s, u - 1) + Batch(StoreAt(base, jobs, u - 1), jobs[u - 1])
  }

  // ----- Applying runs of messages -------------------------------------------------------------

  lemma AppliedSnoc(p: Page, ms: seq<Message>, m: Message)
    ensures AppliedAll(p, ms + [m]) == Applied(AppliedAll(p, ms), m)
    ensures DrawableAll(p, ms + [m]) <==> DrawableAll(p, ms) && Drawable(AppliedAll(p, ms), m)
  {
    hide Applied, Drawable;
    var more := ms + [m];
    assert more[..|ms|] == ms && more[|ms|] == m;
    assert forall i | 0 <= i < |ms| :: more[..i] == ms[..i] && more[i] == ms[i];
  }

  lemma AppliedNothing(p: Page)
    ensures AppliedAll(p, []) == p && DrawableAll(p, [])
  {
  }

  lemma {:induction false} AppliedConcat(p: Page, x: seq<Message>, y: seq<Message>)
    ensures AppliedAll(p, x + y) == AppliedAll(AppliedAll(p, x), y)
    ensures DrawableAll(p, x + y) <==> DrawableAll(p, x) && DrawableAll(AppliedAll(p, x), y)
  {
    hide Applied, Drawable, AppliedAll, DrawableAll;
    if y == [] {
      assert x + y == x;
      AppliedNothing(AppliedAll(p, x));
    } else {
      var y', m := y[..|y| - 1], y[|y| - 1];
      AppliedConcat(p, x, y');
      AppliedSnoc(p, x + y', m);
      AppliedSnoc(AppliedAll(p, x), y', m);
      assert x + y == (x + y') + [m] && y == y' + [m];
    }
  }

  function ShownAll(nodes: map<NodeId, Record>): map<NodeId, Shown> {
    map id | id in nodes :: Show(nodes[id])
  }

  function IdsOf(es: seq<FactEdge>): set<EdgeId> {
    set e | e in es :: e.Id()
  }

  lemma NodeApplied(p: Page, nodes: map<NodeId, Record>, r: Record)
    requires r.Id() !in nodes
    ensures Applied(Page(ShownAll(nodes) + p.nodes, p.edges), NodeAdded(r.Id(), Show(r)))
         == Page(ShownAll(nodes[r.Id() := r]) + p.nodes, p.edges)
  {
  }

  /** Nodes the page has stay as they are, the others appear. */
  lemma {:induction false} AppliedNodes(p: Page, rs: seq<Record>)
    requires DistinctIds(rs)
    ensures AppliedAll(p, NodeMessages(rs)) == Page(ShownAll(PutNodes(map[], rs)) + p.nodes, p.edges)
    ensures DrawableAll(p, NodeMessages(rs))
  {
    hide AppliedAll, DrawableAll, Show;
    if rs == [] {
      assert ShownAll(map[]) + p.nodes == p.nodes;
      AppliedNothing(p);
    } else {
      var init, r := rs[..|rs| - 1], rs[|rs| - 1];
      assert rs == init + [r];
      NotListedYet(init, r);
      AppliedNodes(p, init);
      PutNodesContents(init);
      NodeApplied(p, PutNodes(map[], init), r);
      assert NodeMessages(rs) == NodeMessages(init) + [NodeAdded(r.Id(), Show(r))];
      AppliedSnoc(p, NodeMessages(init), NodeAdded(r.Id(), Show(r)));
    }
  }

  lemma {:induction false} AppliedLinks(p: Page, rs: seq<Record>, first: Option<EventId>)
    ensures AppliedAll(p, LinkMessages(rs, first)) == p && DrawableAll(p, LinkMessages(rs, first))
  {
    if rs != [] {
      var init, r := rs[..|rs| - 1], rs[|rs| - 1];
      AppliedLinks(p, init, first);
      assert LinkMessages(rs, first) == LinkMessages(init, first) + [LinkFound(r.Id(), first)];
      AppliedSnoc(p, LinkMessages(init, first), LinkFound(r.Id(), first));
    }
  }

  ghost predicate EndsShown(p: Page, es: seq<FactEdge>) {
    forall e | e in es :: EventUuid(e.event) in p.nodes && e.target in p.nodes
  }

  lemma {:induction false} AppliedEdges(p: Page, es: seq<FactEdge>)
    ensures AppliedAll(p, EdgeMessages(es)).nodes == p.nodes
    ensures EndsShown(p, es) ==>
              && DrawableAll(p, EdgeMessages(es))
              && AppliedAll(p, EdgeMessages(es)) == p.(edges := p.edges + IdsOf(es))
  {
    hide AppliedAll, DrawableAll;
    if es == [] {
      assert EdgeMessages(es) == [] && p.edges + IdsOf(es) == p.edges;
      AppliedNothing(p);
    } else {
      var init, e := es[..|es| - 1], es[|es| - 1];
      assert es == init + [e];
      AppliedEdges(p, init);
      assert EdgeMessages(es) == EdgeMessages(init) + [EdgeAdded(e.Id())];
      AppliedSnoc(p, EdgeMessages(init), EdgeAdded(e.Id()));
      assert IdsOf(es) == IdsOf(init) + {e.Id()};
      assert p.edges + IdsOf(init) + {e.Id()} == p.edges + IdsOf(es);
    }
  }

  /** A whole batch, on any page. */
  lemma AppliedBatch(p: Page, b: Built, first: Option<EventId>)
    requires DistinctIds(EventsIn(b.nodes) + b.created)
    ensures var news := PutNodes(map[], EventsIn(b.nodes) + b.created);
            && AppliedAll(p, MessagesOf(b, first)).nodes == ShownAll(news) + p.nodes
            && (EndsShown(Page(ShownAll(news) + p.nodes, p.edges), b.edges) ==>
                  && AppliedAll(p, MessagesOf(b, first)) == Page(ShownAll(news) + p.nodes, p.edges + IdsOf(b.edges))
                  && DrawableAll(p, MessagesOf(b, first)))
  {
    hide EventsIn, AppliedAll, DrawableAll, EndsShown, ShownAll, PutNodes, IdsOf;
    var rs := EventsIn(b.nodes) + b.created;
    var m1, m2, m3 := NodeMessages(rs), LinkMessages(b.linked, first), EdgeMessages(b.edges);
    var q := AppliedAll(p, m1);
    var last := IngestComplete(|b.created|, |b.linked|, |b.edges|);
    assert NodeMessages(EventsIn(b.nodes)) + NodeMessages(b.created) == m1;
    AppliedNodes(p, rs);
    AppliedLinks(q, b.linked, first);
    AppliedEdges(q, b.edges);
    AppliedConcat(p, m1, m2);
    AppliedConcat(p, m1 + m2, m3);
    AppliedSnoc(p, m1 + m2 + m3, last);
    assert MessagesOf(b, first) == m1 + m2 + m3 + [last];
  }

  // ----- A batch announces exactly the new records ---------------------------------------------

  lemma {:induction false} EventsDistinct(rs: seq<Record>)
    requires DistinctIds(rs)
    ensures DistinctIds(EventsIn(rs))
  {
    if rs != [] {
      var init, last := rs[..|rs| - 1], rs[|rs| - 1];
      assert rs == init + [last];
      NotListedYet(init, last);
      EventsDistinct(init);
      EventsAreIn(init);
      forall x | x in EventsIn(init) ensures x.Id() != last.Id() {
        assert x in init;
      }
      if last.EventRecord? {
        DistinctConcat(EventsIn(init), [last]);
      }
    }
  }

  /** `b` is the delta of an ingest that went well on a graph whose keys are `known`. */
  ghost predicate CleanDelta(names: Naming, b: Built, known: set<Key>) {
    && DistinctIds(b.nodes) && DistinctIds(b.created) && FactsOnly(names, b.created)
    && (forall r | r in b.created :: r in b.nodes && KeyOf(r) !in known)
    && (forall r | r in b.nodes && r.FactRecord? && KeyOf(r) !in known :: r in b.created)
  }

  lemma DeltaIsClean(names: Naming, g: GraphState, job: Job)
    requires WellIndexed(names, g) && JobOk(names, job) && Build(g, job).error.None?
    ensures CleanDelta(names, Build(g, job), g.byKey.Keys)
  {
    hide BuildFrom, WellIndexed, JobNamed, DistinctEvents;
    var b := BuildFrom(Start(g), job.tool, job.items);
    WholeJob(names, g, job);
    RefreshedIsClean(names, g.byKey.Keys, b, JobKeys(job.items));
  }

  lemma RefreshedIsClean(names: Naming, known: set<Key>, b: Built, keys: set<Key>)
    requires DistinctIds(b.nodes) && FactsOnly(names, b.created) && DistinctIds(b.created) && FactsOnly(names, b.linked)
    requires RecordKeys(b.created) == keys - known && RecordKeys(b.linked) <= keys
    requires (forall r | r in b.nodes && r.FactRecord? :: r in b.created) && (forall r | r in b.created :: r in b.nodes)
    ensures CleanDelta(names, b.(nodes := Refresh(b.nodes, b.created + b.linked)), known)
  {
    var ns := Refresh(b.nodes, b.created + b.linked);
    RefreshAdds(b.nodes, b.created + b.linked);
    forall r | r in b.created ensures KeyOf(r) !in known {
      assert KeyOf(r) in RecordKeys(b.created);
    }
    forall r | r in ns && r.FactRecord? && KeyOf(r) !in known ensures r in b.created {
      assert KeyOf(r) in RecordKeys(b.created) by {
        assert r in b.linked ==> KeyOf(r) in RecordKeys(b.linked);
        assert r in b.created ==> KeyOf(r) in RecordKeys(b.created);
      }
      var c :| c in b.created && KeyOf(c) == KeyOf(r);
      SameIdSameRecord(ns, c, r);
    }
  }

  lemma SameIdSameRecord(rs: seq<Record>, x: Record, y: Record)
    requires DistinctIds(rs) && x in rs && y in rs && x.Id() == y.Id()
    ensures x == y
  {
  }

  /** The records announced as added are exactly those the store gains. */
  lemma AnnouncedAreNew(names: Naming, s: Store, job: Job)
    requires NamedStore(names, s) && JobOk(names, job) && FreshFor(s, job) && JobError(job.items).None?
    ensures var b, t := Build(LoadState(s), job), Ingested(s, job);
            var rs := EventsIn(b.nodes) + b.created;
            b.error.None? && NewTo(s, t, rs)
  {
    var g := LoadState(s);
    LoadIsWellIndexed(names, s);
    DeltaIndependence(names, g, job);
    DeltaIsClean(names, g, job);
    IngestAdds(names, s, job);
    var b := Build(g, job);
    DeltaIsCompatible(names, s, job, b.nodes);
    PutNodesAdds(names, s.nodes, b.nodes);
    PutNodesStands(s.nodes, b.nodes);
    forall r | r in b.nodes && r.EventRecord? ensures r.Id() !in s.nodes {
      assert Erase(r) in JobRecords(job);
      JobEventIds(job, r);
    }
    NewRecords(names, s.nodes, PutNodes(s.nodes, b.nodes), b);
  }

  lemma NewRecords(names: Naming, before: map<NodeId, Record>, after: map<NodeId, Record>, b: Built)
    requires NamedTable(names, before) && CleanDelta(names, b, Keys(before))
    requires forall r | r in b.nodes :: NamedRecord(names, r)
    requires forall id :: id in after <==> id in before || Listed(b.nodes, id)
    requires forall r | r in b.nodes :: r.Id() in after && after[r.Id()] == r && (r.EventRecord? ==> r.Id() !in before)
    ensures var rs := EventsIn(b.nodes) + b.created;
            && DistinctIds(rs)
            && (forall id :: Listed(rs, id) <==> id in after && id !in before)
            && (forall r | r in rs :: r.Id() in after && after[r.Id()] == r)
  {
    var es, rs := EventsIn(b.nodes), EventsIn(b.nodes) + b.created;
    EventsAreIn(b.nodes);
    EventsDistinct(b.nodes);
    DistinctConcat(es, b.created);
    forall r | r in b.nodes && r.FactRecord? ensures r.Id() in before <==> KeyOf(r) in Keys(before) {
      if r.Id() in before {
      }
      if KeyOf(r) in Keys(before) {
        var id :| id in before && before[id].FactRecord? && KeyOf(before[id]) == KeyOf(r);
      }
    }
    forall id ensures Listed(rs, id) <==> id in after && id !in before {
      if r :| r in rs && r.Id() == id {
        assert r in b.nodes;
      }
      if id in after && id !in before {
        var r :| r in b.nodes && r.Id() == id;
        assert r in rs;
      }
    }
  }

  // ----- One ingest ----------------------------------------------------------------------------

  /** The nodes of a page after the batch of one ingest, whatever the page showed before; and its
      edges, if it showed the nodes of the store. */
  lemma OneBatch(names: Naming, s: Store, job: Job, p: Page)
    requires NamedStore(names, s) && JobOk(names, job) && FreshFor(s, job)
    ensures NodesGained(s, Ingested(s, job), p.nodes, AppliedAll(p, Batch(s, job)).nodes)
    ensures s.nodes.Keys <= p.nodes.Keys ==>
              && DrawableAll(p, Batch(s, job))
              && PageGains(s, Ingested(s, job), p, AppliedAll(p, Batch(s, job)))
  {
    IngestAdds(names, s, job);
    LoadIsWellIndexed(names, s);
    DeltaIndependence(names, LoadState(s), job);
    if JobError(job.items).None? {
      AnnouncedAreNew(names, s, job);
      BatchOnPage(s, job, p);
    } else {
      AppliedNothing(p);
    }
  }

  lemma BatchOnPage(s: Store, job: Job, p: Page)
    requires StoreInv(Ingested(s, job)) && Build(LoadState(s), job).error.None?
    requires Ingested(s, job).edges == s.edges + JobTable(job) && JobTable(job).Keys !! s.edges.Keys
    requires Build(LoadState(s), job).edges == JobEdges(job.items)
    requires var b, t := Build(LoadState(s), job), Ingested(s, job);
             NewTo(s, t, EventsIn(b.nodes) + b.created)
    ensures NodesGained(s, Ingested(s, job), p.nodes, AppliedAll(p, Batch(s, job)).nodes)
    ensures s.nodes.Keys <= p.nodes.Keys ==>
              && DrawableAll(p, Batch(s, job))
              && PageGains(s, Ingested(s, job), p, AppliedAll(p, Batch(s, job)))
  {
    hide Build, Ingested, LoadState, MessagesOf, AppliedAll, DrawableAll, JobTable, StoreInv, PageGains, NodesGained,
         EndsShown;
    var b, t := Build(LoadState(s), job), Ingested(s, job);
    var first := if job.items == [] then None else Some(job.items[0].event);
    assert Batch(s, job) == MessagesOf(b, first);
    AppliedBatch(p, b, first);
    assert JobTable(job) == PutEdges(map[], b.edges) by {
      JobTableIs(job);
    }
    assert IdsOf(b.edges) == JobTable(job).Keys by {
      forall k ensures k in IdsOf(b.edges) <==> k in JobTable(job) {
        TableKeys(b.edges, k);
      }
    }
    PageAfter(s, t, p, EventsIn(b.nodes) + b.created, b.edges);
  }

  /** The records `rs` are exactly those that `t` has and `s` has not. */
  ghost predicate NewTo(s: Store, t: Store, rs: seq<Record>) {
    && DistinctIds(rs)
    && (forall id :: Listed(rs, id) <==> id in t.nodes && id !in s.nodes)
    && (forall r | r in rs :: r.Id() in t.nodes && t.nodes[r.Id()] == r)
  }

  /** The nodes `q` are `p` and those that `t` has and `s` has not. */
  ghost predicate NodesGained(s: Store, t: Store, p: map<NodeId, Shown>, q: map<NodeId, Shown>) {
    && q.Keys == p.Keys + (t.nodes.Keys - s.nodes.Keys)
    && (forall id | id in p :: q[id] == p[id])
    && (forall id | id in q && id !in p :: q[id] == Show(t.nodes[id]))
  }

  /** The page `q` is `p` with what `t` has and `s` has not. */
  ghost predicate PageGains(s: Store, t: Store, p: Page, q: Page) {
    NodesGained(s, t, p.nodes, q.nodes) && q.edges == p.edges + (t.edges.Keys - s.edges.Keys)
  }

  lemma PageAfter(s: Store, t: Store, p: Page, rs: seq<Record>, es: seq<FactEdge>)
    requires StoreInv(t) && NewTo(s, t, rs)
    requires t.edges.Keys == s.edges.Keys + IdsOf(es) && IdsOf(es) !! s.edges.Keys
    ensures var nodes := ShownAll(PutNodes(map[], rs)) + p.nodes;
            && NodesGained(s, t, p.nodes, nodes)
            && PageGains(s, t, p, Page(nodes, p.edges + IdsOf(es)))
            && (s.nodes.Keys <= p.nodes.Keys ==> EndsShown(Page(nodes, p.edges), es))
  {
    PutNodesContents(rs);
    var nodes := ShownAll(PutNodes(map[], rs)) + p.nodes;
    assert nodes.Keys == p.nodes.Keys + (t.nodes.Keys - s.nodes.Keys);
    assert t.edges.Keys - s.edges.Keys == IdsOf(es);
    if s.nodes.Keys <= p.nodes.Keys {
      forall e | e in es ensures EventUuid(e.event) in nodes && e.target in nodes {
        assert e.Id() in IdsOf(es);
        assert e.Id() in t.edges;
      }
    }
  }

  // ----- Runs ----------------------------------------------------------------------------------

  lemma ReadyAt(names: Naming, base: Store, jobs: seq<Job>, k: nat)
    requires FreshJobs(names, base, jobs) && k < |jobs|
    ensures StoreAt(base, jobs, k + 1) == Ingested(StoreAt(base, jobs, k), jobs[k])
    ensures NamedStore(names, StoreAt(base, jobs, k)) && JobOk(names, jobs[k])
    ensures FreshFor(StoreAt(base, jobs, k), jobs[k])
  {
    hide SerialStore, Ingested, NamedStore;
    FreshPrefix(names, base, jobs, k + 1);
    SerialReady(names, base, jobs[..k + 1]);
    assert jobs[..k + 1] == jobs[..k] + [jobs[k]] && jobs[..k + 1][..k] == jobs[..k];
    SerialSnoc(base, jobs[..k], jobs[k]);
  }

  /** One store is part of another: what it has, the other has unchanged. */
  ghost predicate Within(s: Store, t: Store) {
    Keeps(s.nodes, t.nodes) && s.edges.Keys <= t.edges.Keys
  }

  lemma IngestGrows(names: Naming, s: Store, job: Job)
    requires NamedStore(names, s) && JobOk(names, job) && FreshFor(s, job)
    ensures Within(s, Ingested(s, job))
  {
    IngestAdds(names, s, job);
    if JobError(job.items).None? {
      IngestCoherent(names, s, job);
    }
  }

  /** The store only grows over a run, and what it has stays. */
  lemma {:induction false} StoresGrow(names: Naming, base: Store, jobs: seq<Job>, i: nat, k: nat)
    requires FreshJobs(names, base, jobs) && i <= k <= |jobs|
    ensures Within(StoreAt(base, jobs, i), StoreAt(base, jobs, k))
  {
    hide SerialStore, Ingested, NamedStore;
    if i < k {
      StoresGrow(names, base, jobs, i, k - 1);
      ReadyAt(names, base, jobs, k - 1);
      IngestGrows(names, StoreAt(base, jobs, k - 1), jobs[k - 1]);
    }
  }

  /** The snapshot that a hook takes of the graph an ingest leaves is the page of the store. */
  lemma SnapshotIsPage(names: Naming, p: Page, s: Store, job: Job)
    requires NamedStore(names, s) && JobOk(names, job) && FreshFor(s, job) && JobError(job.items).None?
    requires Draws(p, Build(LoadState(s), job).g)
    ensures p == PageOf(Ingested(s, job))
  {
    IngestCoherent(names, s, job);
    DrawnRecords(p, Build(LoadState(s), job).g);
  }

  lemma DrawnRecords(p: Page, g: GraphState)
    requires Kinds(g) && Draws(p, g)
    ensures p == PageOf(StoreOf(g))
  {
  }

  /** A page of the store follows an ingest; a page that is already past it stays as it is. */
  lemma PageStep(names: Naming, s: Store, job: Job, later: Store)
    requires NamedStore(names, s) && JobOk(names, job) && FreshFor(s, job)
    ensures AppliedAll(PageOf(s), Batch(s, job)) == PageOf(Ingested(s, job)) && DrawableAll(PageOf(s), Batch(s, job))
    ensures Within(Ingested(s, job), later) ==>
              AppliedAll(PageOf(later), Batch(s, job)) == PageOf(later) && DrawableAll(PageOf(later), Batch(s, job))
  {
    hide Ingested, Batch, AppliedAll, DrawableAll, NamedStore, FreshFor, JobOk;
    IngestGrows(names, s, job);
    OneBatch(names, s, job, PageOf(s));
    OneBatch(names, s, job, PageOf(later));
    var t := Ingested(s, job);
    PagesAgree(s, t, AppliedAll(PageOf(s), Batch(s, job)));
    if Within(t, later) {
      PageCovers(s, t, later, AppliedAll(PageOf(later), Batch(s, job)));
    }
  }

  lemma PagesAgree(s: Store, t: Store, q: Page)
    requires Within(s, t) && PageGains(s, t, PageOf(s), q)
    ensures q == PageOf(t)
  {
  }

  lemma PageCovers(s: Store, t: Store, later: Store, q: Page)
    requires Within(t, later) && PageGains(s, t, PageOf(later), q)
    ensures q == PageOf(later)
  {
  }

  lemma SentStep(base: Store, jobs: seq<Job>, s: nat, u: nat)
    requires s <= u <= |jobs|
    ensures s == u ==> Sent(base, jobs, s, u) == []
    ensures s < u ==>
            Sent(base, jobs, s, u) == Sent(base, jobs, s, u - 1) + Batch(StoreAt(base, jobs, u - 1), jobs[u - 1])
  {
  }

  /** Messages that a page's snapshot already covers change nothing; from there on the page follows
      the store. */
  lemma {:induction false} PageFollows(names: Naming, base: Store, jobs: seq<Job>, s: nat, t: nat, u: nat)
    requires FreshJobs(names, base, jobs) && s <= t <= |jobs| && s <= u <= |jobs|
    ensures var p := PageOf(StoreAt(base, jobs, t));
            && AppliedAll(p, Sent(base, jobs, s, u)) == PageOf(StoreAt(base, jobs, if u <= t then t else u))
            && DrawableAll(p, Sent(base, jobs, s, u))
  {
    hide SerialStore, Batch, Ingested, StoreAt, PageOf, AppliedAll, DrawableAll, NamedStore, FreshFor, JobOk, Sent,
         FreshJobs, Within;
    SentStep(base, jobs, s, u);
    if s == u {
      AppliedNothing(PageOf(StoreAt(base, jobs, t)));
    } else {
      var v := if u - 1 <= t then t else u - 1;
      var p := PageOf(StoreAt(base, jobs, t));
      var before := StoreAt(base, jobs, u - 1);
      PageFollows(names, base, jobs, s, t, u - 1);
      ReadyAt(names, base, jobs, u - 1);
      PageStep(names, before, jobs[u - 1], StoreAt(base, jobs, v));
      AppliedConcat(p, Sent(base, jobs, s, u - 1), Batch(before, jobs[u - 1]));
      if u <= t {
        StoresGrow(names, base, jobs, u, t);
      }
    }
  }

  /** A page that starts from the snapshot taken after `t` ingests, and is then sent every message
      from some earlier moment `s` on, shows after `u` ingests exactly the nodes and edges of the
      store; and each edge finds both its ends on the page when it arrives. */
  lemma LateJoinerConverges(names: Naming, base: Store, jobs: seq<Job>, s: nat, t: nat, u: nat)
    requires FreshJobs(names, base, jobs) && s <= t <= u <= |jobs|
    ensures var p := PageOf(StoreAt(base, jobs, t));
            && AppliedAll(p, Sent(base, jobs, s, u)) == PageOf(StoreAt(base, jobs, u))
            && DrawableAll(p, Sent(base, jobs, s, u))
  {
    PageFollows(names, base, jobs, s, t, u);
  }

  lemma StartsAtBase(base: Store, jobs: seq<Job>)
    ensures StoreAt(base, jobs, 0) == base
  {
  }

  /** Before the first ingest of a process there is no snapshot to send. A page that then starts
      blank shows what the store has gained. */
  lemma {:induction false} BlankShowsGain(names: Naming, base: Store, jobs: seq<Job>, u: nat)
    requires FreshJobs(names, base, jobs) && u <= |jobs|
    ensures AppliedAll(BLANK_PAGE, Sent(base, jobs, 0, u)).nodes.Keys ==
            StoreAt(base, jobs, u).nodes.Keys - base.nodes.Keys
  {
    hide SerialStore, Batch, Ingested, AppliedAll, DrawableAll, NamedStore, FreshFor, JobOk;
    assert StoreAt(base, jobs, 0) == base by {
      StartsAtBase(base, jobs);
    }
    if u == 0 {
      assert AppliedAll(BLANK_PAGE, []) == BLANK_PAGE by {
        AppliedNothing(BLANK_PAGE);
      }
    } else {
      var before := StoreAt(base, jobs, u - 1);
      BlankShowsGain(names, base, jobs, u - 1);
      ReadyAt(names, base, jobs, u - 1);
      AppliedConcat(BLANK_PAGE, Sent(base, jobs, 0, u - 1), Batch(before, jobs[u - 1]));
      OneBatch(names, before, jobs[u - 1], AppliedAll(BLANK_PAGE, Sent(base, jobs, 0, u - 1)));
      StoresGrow(names, base, jobs, 0, u - 1);
      IngestGrows(names, before, jobs[u - 1]);
      assert base.nodes.Keys <= before.nodes.Keys <= StoreAt(base, jobs, u).nodes.Keys;
    }
  }

  /** So it shows the whole store exactly when the store was empty to begin with. */
  lemma BlankPageConvergesIff(names: Naming, base: Store, jobs: seq<Job>, u: nat)
    requires FreshJobs(names, base, jobs) && u <= |jobs|
    ensures AppliedAll(BLANK_PAGE, Sent(base, jobs, 0, u)) == PageOf(StoreAt(base, jobs, u)) <==> base.nodes == map[]
  {
    BlankShowsGain(names, base, jobs, u);
    StoresGrow(names, base, jobs, 0, u);
    assert StoreAt(base, jobs, 0) == base;
    if base.nodes == map[] {
      assert base.edges == map[] by {
        assert forall k | k in base.edges :: false;
      }
      assert PageOf(base) == BLANK_PAGE;
      LateJoinerConverges(names, base, jobs, 0, 0, u);
    } else {
      var id :| id in base.nodes;
      assert id in PageOf(StoreAt(base, jobs, u)).nodes;
    }
  }
}
