/** Pages that connect while the queue may overflow: which messages reach them, and what they show. */
module Overflow {
  import opened Core
  import opened Ingest
  import opened Stores
  import opened Deltas
  import opened Protocol
  import opened Serial
  import opened StreamHook
  import opened LateJoiner
  import opened Joining

  // ----- Parts of a stream -----------------------------------------------------------------------

  /** The positions `at`, in order, of the elements `r` in `ms`. */
  ghost predicate PartAt<T>(r: seq<T>, ms: seq<T>, at: seq<nat>) {
    && |at| == |r|
    && (forall i | 0 <= i < |r| :: at[i] < |ms| && r[i] == ms[at[i]])
    && (forall i, j | 0 <= i < j < |r| :: at[i] < at[j])
  }

  /** What `r` holds comes from `ms`, in its order. */
  ghost predicate PartOfStream<T>(r: seq<T>, ms: seq<T>) {
    exists at: seq<nat> :: PartAt(r, ms, at)
  }

  lemma PartSnoc<T>(r: seq<T>, ms: seq<T>, x: T)
    requires PartOfStream(r, ms)
    ensures PartOfStream(r, ms + [x]) && PartOfStream(r + [x], ms + [x])
  {
    var at: seq<nat> :| PartAt(r, ms, at);
    assert PartAt(r, ms + [x], at);
    assert PartAt(r + [x], ms + [x], at + [|ms|]);
  }

  lemma PartWithout<T>(a: seq<T>, b: seq<T>, c: seq<T>, ms: seq<T>)
    requires PartOfStream(a + b + c, ms)
    ensures PartOfStream(a + c, ms)
  {
    var r := a + b + c;
    var at: seq<nat> :| PartAt(r, ms, at);
    var rest := at[..|a|] + at[|a| + |b|..];
    forall i | 0 <= i < |a + c| ensures rest[i] < |ms| && (a + c)[i] == ms[rest[i]] {
      assert (a + c)[i] == r[if i < |a| then i else i + |b|];
    }
    assert PartAt(a + c, ms, rest);
  }

  /** The last message of the stream is the last of the part, or not in it. */
  lemma PartLast<T>(r: seq<T>, ms: seq<T>)
    requires PartOfStream(r, ms) && ms != []
    ensures PartOfStream(r, ms[..|ms| - 1])
         || (r != [] && r[|r| - 1] == ms[|ms| - 1] && PartOfStream(r[..|r| - 1], ms[..|ms| - 1]))
  {
    var at: seq<nat> :| PartAt(r, ms, at);
    var n := |r| - 1;
    if r != [] && at[n] == |ms| - 1 {
      assert PartAt(r[..n], ms[..|ms| - 1], at[..n]);
    } else {
      assert PartAt(r, ms[..|ms| - 1], at);
    }
  }

  lemma PartIsIn<T>(r: seq<T>, ms: seq<T>, x: T)
    requires PartOfStream(r, ms) && x in r
    ensures x in ms
  {
    var at: seq<nat> :| PartAt(r, ms, at);
    var i :| 0 <= i < |r| && r[i] == x;
  }

  // ----- What a page receives ----------------------------------------------------------------------

  /** All that is drained after the first `c` operations. */
  function Received<T>(ops: seq<QueueOp<T>>, capacity: int, c: nat): seq<T>
    requires c <= |ops|
    decreases |ops|
  {
    if c == |ops| then []
    else
      var init := ops[..|ops| - 1];
      Received(init, capacity, c) + match ops[|ops| - 1] case Put(_) => [] case Drain => RunQueue(init, capacity)
  }

  /** It is the rest of all that is drained. */
  lemma {:induction false} ReceivedIsRest<T>(ops: seq<QueueOp<T>>, capacity: int, c: nat)
    requires c <= |ops|
    ensures Drained(ops, capacity) == Drained(ops[..c], capacity) + Received(ops, capacity, c)
    decreases |ops|
  {
    hide RunQueue;
    if c == |ops| {
      assert ops[..c] == ops;
    } else {
      var init := ops[..|ops| - 1];
      assert init[..c] == ops[..c];
      ReceivedIsRest(init, capacity, c);
      var last := match ops[|ops| - 1] case Put(_) => [] case Drain => RunQueue(init, capacity);
      assert Drained(ops, capacity) == Drained(init, capacity) + last;
      assert Received(ops, capacity, c) == Received(init, capacity, c) + last;
    }
  }

  /** What is drained and what is queued come from what was put, in its order. */
  lemma {:induction false} DrainedIsPart<T>(ops: seq<QueueOp<T>>, capacity: int)
    ensures PartOfStream(Drained(ops, capacity) + RunQueue(ops, capacity), Puts(ops))
  {
    if ops == [] {
      assert PartAt<T>([], [], []);
    } else {
      var init := ops[..|ops| - 1];
      var d, q := Drained(init, capacity), RunQueue(init, capacity);
      DrainedIsPart(init, capacity);
      match ops[|ops| - 1]
      case Drain =>
        assert Drained(ops, capacity) + [] == d + q && Puts(init) + [] == Puts(init);
      case Put(x) =>
        var kept := if 0 < capacity <= |q| then q[1..] else q;
        assert d + (if 0 < capacity <= |q| then q[..1] else []) + kept == d + q;
        PartWithout(d, if 0 < capacity <= |q| then q[..1] else [], kept, Puts(init));
        PartSnoc(d + kept, Puts(init), x);
        assert d + kept + [x] == Drained(ops, capacity) + RunQueue(ops, capacity);
    }
  }

  lemma ReceivedIsPart<T>(ops: seq<QueueOp<T>>, capacity: int, c: nat)
    requires c <= |ops|
    ensures PartOfStream(Received(ops, capacity, c), Puts(ops))
  {
    var before, r, q := Drained(ops[..c], capacity), Received(ops, capacity, c), RunQueue(ops, capacity);
    DrainedIsPart(ops, capacity);
    ReceivedIsRest(ops, capacity, c);
    hide PartOfStream, Drained, Received, RunQueue, Puts;
    assert [] + before + (r + q) == before + r + q;
    PartWithout([], before, r + q, Puts(ops));
    assert [] + (r + q) == r + q == r + q + [];
    PartWithout(r, q, [], Puts(ops));
    assert r + [] == r;
  }

  // ----- Which messages that is --------------------------------------------------------------------

  /** `m`, put by operation `p`, is handed over by the drain `q`: no drain comes between the two, and
      fewer messages than the queue holds. */
  ghost predicate HandedOver<T>(ops: seq<QueueOp<T>>, capacity: int, m: T, p: nat, q: nat) {
    && p < q < |ops| && ops[p] == QueueOp.Put(m) && ops[q] == Drain
    && (forall i | p < i < q :: ops[i].Put?)
    && (capacity <= 0 || q - p <= capacity)
  }

  /** The puts since the last drain, from the last one back. */
  lemma {:induction false} SinceDrainFrom<T>(ops: seq<QueueOp<T>>, k: nat)
    ensures k < |SinceDrain(ops)| <==>
            k < |ops| && forall i | |ops| - 1 - k <= i < |ops| :: ops[i].Put?
    ensures k < |SinceDrain(ops)| <= |ops| ==> SinceDrain(ops)[|SinceDrain(ops)| - 1 - k] == ops[|ops| - 1 - k].x
    ensures |SinceDrain(ops)| <= |ops|
  {
    if ops != [] {
      var init := ops[..|ops| - 1];
      if k > 0 {
        SinceDrainFrom(init, k - 1);
      } else {
        SinceDrainFrom(init, 0);
      }
      assert forall i | 0 <= i < |init| :: init[i] == ops[i];
    }
  }

  /** What a drain after the operations `ops` hands over. */
  lemma QueuedIff<T>(ops: seq<QueueOp<T>>, capacity: int, m: T)
    ensures m in RunQueue(ops, capacity) <==>
            exists p: nat :: HandedOver(ops + [Drain], capacity, m, p, |ops|)
  {
    var all, n, since := ops + [Drain], |ops|, SinceDrain(ops);
    QueueIsLast(ops, capacity);
    var queue := RunQueue(ops, capacity);
    if m in queue {
      var i :| 0 <= i < |queue| && queue[i] == m;
      var k := |queue| - 1 - i;
      SinceDrainFrom(ops, k);
      assert since[|since| - 1 - k] == m;
      assert HandedOver(all, capacity, m, n - 1 - k, n);
    }
    if p: nat :| HandedOver(all, capacity, m, p, n) {
      var k := n - 1 - p;
      assert forall i | p <= i < n :: all[i] == ops[i];
      SinceDrainFrom(ops, k);
      assert queue[|queue| - 1 - k] == m;
    }
  }

  /** A page that connects after the first `c` operations receives a message exactly when some put of
      it is followed, after the page connected, by a drain, with no drain and with fewer messages
      than the queue holds in between. */
  lemma {:induction false} ReceivedIff<T>(ops: seq<QueueOp<T>>, capacity: int, c: nat, m: T)
    requires c <= |ops|
    ensures m in Received(ops, capacity, c) <==> exists p: nat, q: nat :: c <= q && HandedOver(ops, capacity, m, p, q)
    decreases |ops|
  {
    hide RunQueue;
    if c < |ops| {
      var n := |ops| - 1;
      var init := ops[..n];
      ReceivedIff(init, capacity, c, m);
      forall p: nat, q: nat
        ensures q < n ==> (HandedOver(ops, capacity, m, p, q) <==> HandedOver(init, capacity, m, p, q))
      {
      }
      QueuedIff(init, capacity, m);
      if ops[n] == Drain {
        assert init + [Drain] == ops;
      }
    }
  }

  // ----- What such a page shows --------------------------------------------------------------------

  /** A part of a stream that holds every node the page lacks takes the page to the same nodes, and
      to the edges the part holds. */
  lemma {:induction false} PartFollows(p: Page, r: seq<Message>, ms: seq<Message>)
    requires PartOfStream(r, ms) && AddedOnce(ms) && DrawableAll(p, ms)
    requires forall m | m in ms && m.NodeAdded? :: m in r || m.id in p.nodes
    ensures AppliedAll(p, r).nodes == AppliedAll(p, ms).nodes && AppliedAll(p, r).edges == p.edges + EdgeIds(r)
    decreases |ms|
  {
    hide PartOfStream, DrawableAll, AppliedAll, EdgeIds, NodeIds;
    if ms == [] {
      EmptyPart(r);
      AppliedNothing(p);
    } else {
      var init, m := ms[..|ms| - 1], ms[|ms| - 1];
      assert ms == init + [m] && m in ms;
      AppliedSnoc(p, init, m);
      PartLast(r, ms);
      AppliedAdds(p, init);
      if PartOfStream(r, init) {
        if m.NodeAdded? && m in r {
          PartIsIn(r, init, m);
        }
        PartFollows(p, r, init);
      } else {
        var r' := r[..|r| - 1];
        assert r == r' + [m];
        PartFollows(p, r', init);
        AppliedSnoc(p, r', m);
        EdgesSnoc(r', m);
      }
    }
  }

  lemma EmptyPart(r: seq<Message>)
    requires PartOfStream(r, [])
    ensures r == [] && EdgeIds(r) == {}
  {
    forall m ensures m !in r {
      if m in r {
        PartIsIn(r, [], m);
      }
    }
    assert multiset(r) == multiset{};
  }

  lemma EdgesSnoc(ms: seq<Message>, m: Message)
    ensures EdgeIds(ms + [m]) == EdgeIds(ms) + if m.EdgeAdded? then {m.edge} else {}
  {
  }

  /** The edges a batch announces are new to the store. */
  lemma BatchEdgesNew(names: Naming, s: Store, job: Job)
    requires NamedStore(names, s) && JobOk(names, job) && FreshFor(s, job)
    ensures EdgeIds(Batch(s, job)) !! s.edges.Keys
  {
    hide Build, LoadState, JobNamed, WellIndexed, NamedTable, Honest, WellKeyed;
    LoadIsWellIndexed(names, s);
    DeltaIndependence(names, LoadState(s), job);
    forall k | k in EdgeIds(Batch(s, job)) ensures k !in s.edges {
      var es := Build(LoadState(s), job).edges;
      var i :| 0 <= i < |es| && es[i].Id() == k;
      JobEdgeEnds(job.items, es[i]);
      FreshEdge(s, job, k);
    }
  }

  lemma {:induction false} LaterEdgesNew(names: Naming, base: Store, jobs: seq<Job>, t: nat, u: nat)
    requires FreshJobs(names, base, jobs) && t <= u <= |jobs|
    ensures EdgeIds(Sent(base, jobs, t, u)) !! StoreAt(base, jobs, t).edges.Keys
  {
    hide Batch, Sent, StoreAt, FreshJobs, Ingested, NamedStore, FreshFor, JobOk, EdgeIds;
    SentStep(base, jobs, t, u);
    if t == u {
      EmptyPart([]) by {
        assert PartAt<Message>([], [], []);
      }
    } else {
      var before := StoreAt(base, jobs, u - 1);
      LaterEdgesNew(names, base, jobs, t, u - 1);
      ReadyAt(names, base, jobs, u - 1);
      BatchEdgesNew(names, before, jobs[u - 1]);
      StoresGrow(names, base, jobs, t, u - 1);
      IdsOfBoth(Sent(base, jobs, t, u - 1), Batch(before, jobs[u - 1]));
    }
  }

  /** Every node and edge announced from the t-th batch on is among the messages `r`. */
  ghost predicate AllAnnounced(ms: seq<Message>, r: seq<Message>) {
    forall m | m in ms && (m.NodeAdded? || m.EdgeAdded?) :: m in r
  }

  lemma HoldsAllConverges(names: Naming, base: Store, jobs: seq<Job>, t: nat, u: nat, r: seq<Message>)
    requires FreshJobs(names, base, jobs) && t <= u <= |jobs| && PartOfStream(r, Sent(base, jobs, 0, u))
    requires AllAnnounced(Sent(base, jobs, t, u), r)
    ensures AppliedAll(PageOf(StoreAt(base, jobs, t)), r) == PageOf(StoreAt(base, jobs, u))
  {
    hide Sent, StoreAt, FreshJobs, AppliedAll, DrawableAll, PartOfStream, AddedOnce;
    var p, a, b, all := PageOf(StoreAt(base, jobs, t)), Sent(base, jobs, 0, t), Sent(base, jobs, t, u),
        Sent(base, jobs, 0, u);
    SentSplit(base, jobs, 0, t, u);
    SentAddsOnce(names, base, jobs, 0, u);
    SentAdds(names, base, jobs, 0, t);
    SentAdds(names, base, jobs, t, u);
    LateJoinerConverges(names, base, jobs, 0, t, u);
    forall m | m in all && m.NodeAdded? ensures m in r || m.id in p.nodes {
      assert m in a || m in b;
      assert m in a ==> m.id in NodeIds(a);
    }
    PartFollows(p, r, all);
    PartEdges(r, a, b);
    assert EdgeIds(b) <= EdgeIds(r);
  }

  lemma ConvergedHoldsAll(names: Naming, base: Store, jobs: seq<Job>, t: nat, u: nat, r: seq<Message>)
    requires FreshJobs(names, base, jobs) && t <= u <= |jobs| && PartOfStream(r, Sent(base, jobs, 0, u))
    requires AppliedAll(PageOf(StoreAt(base, jobs, t)), r) == PageOf(StoreAt(base, jobs, u))
    ensures AllAnnounced(Sent(base, jobs, t, u), r)
  {
    hide Sent, StoreAt, FreshJobs, AppliedAll, PartOfStream;
    var s, later := StoreAt(base, jobs, t), StoreAt(base, jobs, u);
    var b, all := Sent(base, jobs, t, u), Sent(base, jobs, 0, u);
    SentSplit(base, jobs, 0, t, u);
    SentAddsOnce(names, base, jobs, 0, u);
    SentAddsOnce(names, base, jobs, t, u);
    SentAdds(names, base, jobs, t, u);
    LaterEdgesNew(names, base, jobs, t, u);
    NewIdsApplied(PageOf(s), PageOf(later), r, b);
    forall m | m in b && (m.NodeAdded? || m.EdgeAdded?) ensures m in r {
      if m.NodeAdded? {
        assert m.id in NodeIds(b);
        var n :| n in r && n.NodeAdded? && n.id == m.id;
        PartIsIn(r, all, n);
        SameAnnouncement(all, m, n);
      } else {
        assert m.edge in EdgeIds(b);
      }
    }
  }

  /** What a page gained was among the messages applied. */
  lemma NewIdsApplied(p: Page, q: Page, r: seq<Message>, b: seq<Message>)
    requires AppliedAll(p, r) == q && NodeIds(b) !! p.nodes.Keys && EdgeIds(b) !! p.edges
    requires NodeIds(b) <= q.nodes.Keys && EdgeIds(b) <= q.edges
    ensures NodeIds(b) <= NodeIds(r) && EdgeIds(b) <= EdgeIds(r)
  {
    AppliedAdds(p, r);
  }

  /** A part of the stream takes the page of a store to that of a later one exactly when it holds
      every node and edge announced in between. */
  lemma PartConvergesIff(names: Naming, base: Store, jobs: seq<Job>, t: nat, u: nat, r: seq<Message>)
    requires FreshJobs(names, base, jobs) && t <= u <= |jobs| && PartOfStream(r, Sent(base, jobs, 0, u))
    ensures AppliedAll(PageOf(StoreAt(base, jobs, t)), r) == PageOf(StoreAt(base, jobs, u))
       <==> AllAnnounced(Sent(base, jobs, t, u), r)
  {
    hide Sent, StoreAt, FreshJobs, AppliedAll, PageOf, PartOfStream, AllAnnounced;
    if AllAnnounced(Sent(base, jobs, t, u), r) {
      HoldsAllConverges(names, base, jobs, t, u, r);
    } else if AppliedAll(PageOf(StoreAt(base, jobs, t)), r) == PageOf(StoreAt(base, jobs, u)) {
      ConvergedHoldsAll(names, base, jobs, t, u, r);
    }
  }

  lemma PartEdges(r: seq<Message>, a: seq<Message>, b: seq<Message>)
    requires PartOfStream(r, a + b)
    ensures EdgeIds(r) <= EdgeIds(a) + EdgeIds(b)
  {
    forall m | m in r ensures m in a || m in b {
      PartIsIn(r, a + b, m);
    }
  }

  lemma SameAnnouncement(ms: seq<Message>, m: Message, n: Message)
    requires AddedOnce(ms) && m in ms && n in ms && m.NodeAdded? && n.NodeAdded? && m.id == n.id
    ensures m == n
  {
    var i :| 0 <= i < |ms| && ms[i] == m;
    var j :| 0 <= j < |ms| && ms[j] == n;
  }

  /** Every node and edge announced after the snapshot reaches the page. */
  ghost predicate AllReach(ms: seq<Message>, ops: seq<QueueOp<Message>>, capacity: int, c: nat) {
    forall m | m in ms && (m.NodeAdded? || m.EdgeAdded?) ::
      exists p: nat, q: nat :: c <= q && HandedOver(ops, capacity, m, p, q)
  }

  /** Puts and drains in any order, with any capacity, whether the queue overflows or not; a page
      connects after the first `c` of them, is sent the snapshot after `t` ingests, if there is one,
      and then all that is drained later. It ends on the whole store if and only if there was a
      snapshot or nothing stored before the first ingest, and of every message that announces a node
      or an edge of a batch the snapshot does not cover some put is followed by a drain after the
      page connected, before another drain and before the queue is full of later messages. */
  lemma JoinUnderOverflow(names: Naming, base: Store, jobs: seq<Job>, t: nat, u: nat,
                          ops: seq<QueueOp<Message>>, capacity: int, c: nat)
    requires FreshJobs(names, base, jobs) && t <= u <= |jobs| && c <= |ops| && Puts(ops) == Sent(base, jobs, 0, u)
    ensures AppliedAll(StartPage(base, jobs, t), Received(ops, capacity, c)) == PageOf(StoreAt(base, jobs, u))
       <==> (HasSnapshot(jobs, t) || base.nodes == map[]) && AllReach(Sent(base, jobs, t, u), ops, capacity, c)
  {
    hide Sent, StoreAt, FreshJobs, AppliedAll, PageOf, HasSnapshot, Puts, HandedOver, PartOfStream;
    var r := Received(ops, capacity, c);
    ReceivedIsPart(ops, capacity, c);
    if HasSnapshot(jobs, t) || base.nodes == map[] {
      StartsFromStore(names, base, jobs, t);
      PartConvergesIff(names, base, jobs, t, u, r);
      forall m ensures m in r <==> exists p: nat, q: nat :: c <= q && HandedOver(ops, capacity, m, p, q) {
        ReceivedIff(ops, capacity, c, m);
      }
    } else {
      forall m | m in r ensures m in Sent(base, jobs, 0, u) {
        PartIsIn(r, Sent(base, jobs, 0, u), m);
      }
      BaseNeverComes(names, base, jobs, u, r);
    }
  }
}
