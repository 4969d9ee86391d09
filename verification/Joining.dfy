/** Pages that connect while the hook is queueing one message at a time and the server is draining. */
module Joining {
  import opened Core
  import opened Ingest
  import opened Stores
  import opened Deltas
  import opened Protocol
  import opened Serial
  import opened StreamHook
  import opened LateJoiner

  // ----- What a run of messages adds -------------------------------------------------------------

  function NodeIds(ms: seq<Message>): set<NodeId> {
    set m | m in ms && m.NodeAdded? :: m.id
  }

  function EdgeIds(ms: seq<Message>): set<EdgeId> {
    set m | m in ms && m.EdgeAdded? :: m.edge
  }

  lemma {:induction false} AppliedAdds(p: Page, ms: seq<Message>)
    ensures AppliedAll(p, ms).nodes.Keys == p.nodes.Keys + NodeIds(ms)
    ensures p.edges <= AppliedAll(p, ms).edges <= p.edges + EdgeIds(ms)
    ensures DrawableAll(p, ms) ==> AppliedAll(p, ms).edges == p.edges + EdgeIds(ms)
  {
    hide DrawableAll;
    if ms != [] {
      var init, m := ms[..|ms| - 1], ms[|ms| - 1];
      assert ms == init + [m];
      AppliedAdds(p, init);
      AppliedSnoc(p, init, m);
      assert NodeIds(ms) == NodeIds(init) + if m.NodeAdded? then {m.id} else {};
      assert EdgeIds(ms) == EdgeIds(init) + if m.EdgeAdded? then {m.edge} else {};
    }
  }

  ghost predicate Covers(p: Page, ms: seq<Message>) {
    NodeIds(ms) <= p.nodes.Keys && EdgeIds(ms) <= p.edges
  }

  lemma {:induction false} CoveredStays(p: Page, ms: seq<Message>)
    requires Covers(p, ms)
    ensures AppliedAll(p, ms) == p
  {
    if ms != [] {
      var init, m := ms[..|ms| - 1], ms[|ms| - 1];
      assert forall x | x in init :: x in ms;
      assert m in ms;
      assert NodeIds(init) <= NodeIds(ms) && EdgeIds(init) <= EdgeIds(ms);
      CoveredStays(p, init);
      assert m.EdgeAdded? ==> p.edges + {m.edge} == p.edges;
    }
  }

  /** No node is announced twice. */
  ghost predicate AddedOnce(ms: seq<Message>) {
    forall i, j | 0 <= i < j < |ms| && ms[i].NodeAdded? && ms[j].NodeAdded? :: ms[i].id != ms[j].id
  }

  lemma AddedOnceConcat(x: seq<Message>, y: seq<Message>)
    requires AddedOnce(x) && AddedOnce(y) && NodeIds(x) !! NodeIds(y)
    ensures AddedOnce(x + y)
  {
    forall i, j | 0 <= i < |x| && 0 <= j < |y| && x[i].NodeAdded? && y[j].NodeAdded? ensures x[i].id != y[j].id {
      assert x[i].id in NodeIds(x) && y[j].id in NodeIds(y);
    }
  }

  lemma AddedOnceSplit(x: seq<Message>, y: seq<Message>)
    requires AddedOnce(x + y)
    ensures NodeIds(x) !! NodeIds(y)
  {
    forall m, n | m in x && n in y && m.NodeAdded? && n.NodeAdded? ensures m.id != n.id {
      var i :| 0 <= i < |x| && x[i] == m;
      var j :| 0 <= j < |y| && y[j] == n;
      assert (x + y)[i] == m && (x + y)[|x| + j] == n;
    }
  }

  lemma NodesAddedOnce(rs: seq<Record>)
    requires DistinctIds(rs)
    ensures AddedOnce(NodeMessages(rs))
  {
  }

  // ----- The messages of a run -------------------------------------------------------------------

  lemma BatchAddsOnce(names: Naming, s: Store, job: Job)
    requires NamedStore(names, s) && JobOk(names, job) && FreshFor(s, job)
    ensures AddedOnce(Batch(s, job)) && NodeIds(Batch(s, job)) == Ingested(s, job).nodes.Keys - s.nodes.Keys
  {
    OneBatch(names, s, job, BLANK_PAGE);
    AppliedAdds(BLANK_PAGE, Batch(s, job));
    LoadIsWellIndexed(names, s);
    DeltaIndependence(names, LoadState(s), job);
    if JobError(job.items).None? {
      AnnouncedAreNew(names, s, job);
      MessagesAddOnce(Build(LoadState(s), job), if job.items == [] then None else Some(job.items[0].event));
    }
  }

  lemma MessagesAddOnce(b: Built, first: Option<EventId>)
    requires DistinctIds(EventsIn(b.nodes) + b.created)
    ensures AddedOnce(MessagesOf(b, first))
  {
    var nodes := NodeMessages(EventsIn(b.nodes) + b.created);
    var rest := LinkMessages(b.linked, first) + EdgeMessages(b.edges) +
        [IngestComplete(|b.created|, |b.linked|, |b.edges|)];
    assert NodeMessages(EventsIn(b.nodes)) + NodeMessages(b.created) == nodes;
    assert MessagesOf(b, first) == nodes + rest;
    NodesAddedOnce(EventsIn(b.nodes) + b.created);
    assert forall m | m in rest :: !m.NodeAdded?;
    assert NodeIds(rest) == {};
    AddedOnceConcat(nodes, rest);
  }

  lemma {:induction false} SentSplit(base: Store, jobs: seq<Job>, s: nat, t: nat, u: nat)
    requires s <= t <= u <= |jobs|
    ensures Sent(base, jobs, s, u) == Sent(base, jobs, s, t) + Sent(base, jobs, t, u)
  {
    hide Batch, StoreAt, Sent;
    SentStep(base, jobs, t, u);
    if t < u {
      SentStep(base, jobs, s, u);
      SentSplit(base, jobs, s, t, u - 1);
    }
  }

  /** A run of messages takes the page of one store to the page of a later one. */
  lemma SentAdds(names: Naming, base: Store, jobs: seq<Job>, t: nat, u: nat)
    requires FreshJobs(names, base, jobs) && t <= u <= |jobs|
    ensures var s, later := StoreAt(base, jobs, t), StoreAt(base, jobs, u);
            && later.nodes.Keys == s.nodes.Keys + NodeIds(Sent(base, jobs, t, u))
            && later.edges.Keys == s.edges.Keys + EdgeIds(Sent(base, jobs, t, u))
  {
    hide StoreAt, Sent, FreshJobs;
    LateJoinerConverges(names, base, jobs, t, t, u);
    PageReached(StoreAt(base, jobs, t), StoreAt(base, jobs, u), Sent(base, jobs, t, u));
  }

  lemma PageReached(s: Store, later: Store, ms: seq<Message>)
    requires AppliedAll(PageOf(s), ms) == PageOf(later) && DrawableAll(PageOf(s), ms)
    ensures later.nodes.Keys == s.nodes.Keys + NodeIds(ms) && later.edges.Keys == s.edges.Keys + EdgeIds(ms)
  {
    AppliedAdds(PageOf(s), ms);
    assert PageOf(later).nodes.Keys == later.nodes.Keys && PageOf(s).nodes.Keys == s.nodes.Keys;
  }

  lemma {:induction false} SentAddsOnce(names: Naming, base: Store, jobs: seq<Job>, t: nat, u: nat)
    requires FreshJobs(names, base, jobs) && t <= u <= |jobs|
    ensures AddedOnce(Sent(base, jobs, t, u))
    ensures NodeIds(Sent(base, jobs, t, u)) !! StoreAt(base, jobs, t).nodes.Keys
  {
    hide Batch, Sent, StoreAt, FreshJobs, Ingested, NamedStore, FreshFor, JobOk, AddedOnce, NodeIds;
    SentStep(base, jobs, t, u);
    if t == u {
      NothingSent();
    } else {
      var before := StoreAt(base, jobs, u - 1);
      var x, y := Sent(base, jobs, t, u - 1), Batch(before, jobs[u - 1]);
      SentAddsOnce(names, base, jobs, t, u - 1);
      ReadyAt(names, base, jobs, u - 1);
      BatchAddsOnce(names, before, jobs[u - 1]);
      SentAdds(names, base, jobs, t, u - 1);
      AddedOnceConcat(x, y);
      IdsOfBoth(x, y);
    }
  }

  lemma NothingSent()
    ensures AddedOnce([]) && NodeIds([]) == {}
  {
  }

  lemma IdsOfBoth(x: seq<Message>, y: seq<Message>)
    ensures NodeIds(x + y) == NodeIds(x) + NodeIds(y) && EdgeIds(x + y) == EdgeIds(x) + EdgeIds(y)
  {
    assert forall m :: m in x + y <==> m in x || m in y;
  }

  /** An edge of an event that was stored at some moment was stored then, too. */
  lemma {:induction false} OldEventsOldEdges(names: Naming, base: Store, jobs: seq<Job>, t: nat, u: nat, k: EdgeId)
    requires FreshJobs(names, base, jobs) && t <= u <= |jobs|
    requires k in StoreAt(base, jobs, u).edges && EventUuid(k.event) in StoreAt(base, jobs, t).nodes
    ensures k in StoreAt(base, jobs, t).edges
  {
    hide StoreAt, FreshJobs, Ingested, NamedStore, JobOk, JobTable;
    if t < u {
      var before, job := StoreAt(base, jobs, u - 1), jobs[u - 1];
      ReadyAt(names, base, jobs, u - 1);
      IngestAdds(names, before, job);
      StoresGrow(names, base, jobs, t, u - 1);
      if JobError(job.items).None? && k in JobTable(job) {
        JobTableEvents(job, k);
      }
      OldEventsOldEdges(names, base, jobs, t, u - 1, k);
    }
  }

  // ----- A page that misses the start of a run ---------------------------------------------------

  /** Messages that announce no node announce only edges that are there already. */
  lemma QuietPrefix(names: Naming, base: Store, jobs: seq<Job>, t: nat, u: nat, j: nat)
    requires FreshJobs(names, base, jobs) && t <= u <= |jobs| && j <= |Sent(base, jobs, t, u)|
    requires NodeIds(Sent(base, jobs, t, u)[..j]) == {}
    ensures Covers(PageOf(StoreAt(base, jobs, t)), Sent(base, jobs, t, u)[..j])
  {
    var p, ms := PageOf(StoreAt(base, jobs, t)), Sent(base, jobs, t, u);
    LateJoinerConverges(names, base, jobs, t, t, u);
    SentAdds(names, base, jobs, t, u);
    hide Sent, StoreAt, FreshJobs;
    forall k | k in EdgeIds(ms[..j]) ensures k in p.edges {
      var i :| 0 <= i < j && ms[i] == EdgeAdded(k);
      AppliedAdds(p, ms[..i]);
      assert forall m | m in ms[..i] :: m in ms[..j];
      assert NodeIds(ms[..i]) == {};
      assert Drawable(AppliedAll(p, ms[..i]), ms[i]);
      assert k in EdgeIds(ms);
      OldEventsOldEdges(names, base, jobs, t, u, k);
    }
  }

  /** From the page of the store after `t` ingests. */
  lemma StorePageConvergesIff(names: Naming, base: Store, jobs: seq<Job>, t: nat, u: nat, from: nat)
    requires FreshJobs(names, base, jobs) && t <= u <= |jobs| && from <= |Sent(base, jobs, 0, u)|
    ensures AppliedAll(PageOf(StoreAt(base, jobs, t)), Sent(base, jobs, 0, u)[from..]) == PageOf(StoreAt(base, jobs, u))
       <==> NodeIds(Missed(Sent(base, jobs, 0, u), |Sent(base, jobs, 0, t)|, from)) == {}
  {
    hide Sent, StoreAt, FreshJobs, AppliedAll, DrawableAll, PageOf, NodeIds;
    var a, b, all := Sent(base, jobs, 0, t), Sent(base, jobs, t, u), Sent(base, jobs, 0, u);
    SentSplit(base, jobs, 0, t, u);
    if from <= |a| {
      OldSuffix(names, base, jobs, t, from);
      LateJoinerConverges(names, base, jobs, t, t, u);
      assert all[from..] == a[from..] + b;
      AppliedConcat(PageOf(StoreAt(base, jobs, t)), a[from..], b);
      NothingSent();
      assert Missed(all, |a|, from) == [];
    } else {
      var j := from - |a|;
      assert all[from..] == b[j..] && Missed(all, |a|, from) == b[..j];
      MissedStart(names, base, jobs, t, u, j);
    }
  }

  /** What the snapshot covers already changes nothing. */
  lemma OldSuffix(names: Naming, base: Store, jobs: seq<Job>, t: nat, from: nat)
    requires FreshJobs(names, base, jobs) && t <= |jobs| && from <= |Sent(base, jobs, 0, t)|
    ensures AppliedAll(PageOf(StoreAt(base, jobs, t)), Sent(base, jobs, 0, t)[from..]) == PageOf(StoreAt(base, jobs, t))
  {
    hide Sent, StoreAt, FreshJobs, AppliedAll;
    var a, s := Sent(base, jobs, 0, t), StoreAt(base, jobs, t);
    SentAdds(names, base, jobs, 0, t);
    assert a == a[..from] + a[from..];
    IdsOfBoth(a[..from], a[from..]);
    assert Covers(PageOf(s), a[from..]);
    CoveredStays(PageOf(s), a[from..]);
  }

  /** The messages from `start` on that come before `from`. */
  function Missed(ms: seq<Message>, start: nat, from: nat): seq<Message>
    requires from <= |ms|
  {
    if start <= from then ms[start..from] else []
  }

  lemma MissedStart(names: Naming, base: Store, jobs: seq<Job>, t: nat, u: nat, j: nat)
    requires FreshJobs(names, base, jobs) && t <= u <= |jobs| && j <= |Sent(base, jobs, t, u)|
    ensures AppliedAll(PageOf(StoreAt(base, jobs, t)), Sent(base, jobs, t, u)[j..]) == PageOf(StoreAt(base, jobs, u))
       <==> NodeIds(Sent(base, jobs, t, u)[..j]) == {}
  {
    hide Sent, StoreAt, FreshJobs, AppliedAll, DrawableAll, AddedOnce, Covers;
    var p, b := PageOf(StoreAt(base, jobs, t)), Sent(base, jobs, t, u);
    LateJoinerConverges(names, base, jobs, t, t, u);
    SentAddsOnce(names, base, jobs, t, u);
    SentAdds(names, base, jobs, t, u);
    assert b == b[..j] + b[j..];
    if NodeIds(b[..j]) == {} {
      QuietPrefix(names, base, jobs, t, u, j);
      CoveredStays(p, b[..j]);
      AppliedConcat(p, b[..j], b[j..]);
    } else {
      var id :| id in NodeIds(b[..j]);
      AddedOnceSplit(b[..j], b[j..]);
      IdsOfBoth(b[..j], b[j..]);
      AppliedAdds(p, b[j..]);
      assert id in PageOf(StoreAt(base, jobs, u)).nodes;
    }
  }

  // ----- The page a client starts from -----------------------------------------------------------

  /** The hook holds a snapshot from the first ingest on that went through. */
  ghost predicate HasSnapshot(jobs: seq<Job>, t: nat)
    requires t <= |jobs|
  {
    exists i :: 0 <= i < t && JobError(jobs[i].items).None?
  }

  /** What a page shows that connects after `t` ingests: the snapshot, or nothing if there is none. */
  ghost function StartPage(base: Store, jobs: seq<Job>, t: nat): Page
    requires t <= |jobs|
  {
    if HasSnapshot(jobs, t) then PageOf(StoreAt(base, jobs, t)) else BLANK_PAGE
  }

  lemma {:induction false} NoSnapshotYet(names: Naming, base: Store, jobs: seq<Job>, t: nat)
    requires FreshJobs(names, base, jobs) && t <= |jobs| && !HasSnapshot(jobs, t)
    ensures StoreAt(base, jobs, t) == base
  {
    hide StoreAt, FreshJobs, Ingested, NamedStore, JobOk, FreshFor;
    if t == 0 {
      StartsAtBase(base, jobs);
    } else {
      NoSnapshotYet(names, base, jobs, t - 1);
      ReadyAt(names, base, jobs, t - 1);
      IngestAdds(names, base, jobs[t - 1]);
    }
  }

  lemma EmptyStorePage(s: Store)
    requires StoreInv(s) && s.nodes == map[]
    ensures PageOf(s) == BLANK_PAGE
  {
    assert forall k | k in s.edges :: false;
  }

  /** With no snapshot, the page of an empty store is what the page starts from. */
  lemma StartsFromStore(names: Naming, base: Store, jobs: seq<Job>, t: nat)
    requires FreshJobs(names, base, jobs) && t <= |jobs| && (HasSnapshot(jobs, t) || base.nodes == map[])
    ensures StartPage(base, jobs, t) == PageOf(StoreAt(base, jobs, t))
  {
    hide StoreAt, PageOf;
    if !HasSnapshot(jobs, t) {
      NoSnapshotYet(names, base, jobs, t);
      EmptyStorePage(base);
    }
  }

  /** Nothing sent after the start brings back what the store held then. */
  lemma BaseNeverComes(names: Naming, base: Store, jobs: seq<Job>, u: nat, r: seq<Message>)
    requires FreshJobs(names, base, jobs) && u <= |jobs| && base.nodes != map[]
    requires forall m | m in r :: m in Sent(base, jobs, 0, u)
    ensures AppliedAll(BLANK_PAGE, r) != PageOf(StoreAt(base, jobs, u))
  {
    hide StoreAt, Sent, FreshJobs, AppliedAll, DrawableAll;
    StartsAtBase(base, jobs);
    StoresGrow(names, base, jobs, 0, u);
    SentAddsOnce(names, base, jobs, 0, u);
    AppliedAdds(BLANK_PAGE, r);
    var id :| id in base.nodes;
    assert id in PageOf(StoreAt(base, jobs, u)).nodes;
  }

  /** A page that connects after `t` ingests and is sent the stream of messages from the `from`-th on
      shows, after `u` ingests, the whole store if and only if it was sent a snapshot or the store
      was empty to begin with, and it missed no message of a later batch that announces a node. */
  lemma JoinConvergesIff(names: Naming, base: Store, jobs: seq<Job>, t: nat, u: nat, from: nat)
    requires FreshJobs(names, base, jobs) && t <= u <= |jobs| && from <= |Sent(base, jobs, 0, u)|
    ensures AppliedAll(StartPage(base, jobs, t), Sent(base, jobs, 0, u)[from..]) == PageOf(StoreAt(base, jobs, u))
       <==> (HasSnapshot(jobs, t) || base.nodes == map[])
            && NodeIds(Missed(Sent(base, jobs, 0, u), |Sent(base, jobs, 0, t)|, from)) == {}
  {
    hide Sent, StoreAt, FreshJobs, AppliedAll, PageOf, NodeIds, Missed, HasSnapshot;
    if HasSnapshot(jobs, t) || base.nodes == map[] {
      StartsFromStore(names, base, jobs, t);
      StorePageConvergesIff(names, base, jobs, t, u, from);
    } else {
      BaseNeverComes(names, base, jobs, u, Sent(base, jobs, 0, u)[from..]);
    }
  }

  // ----- The server ------------------------------------------------------------------------------

  /** Everything put into the queue. */
  function Puts<T>(ops: seq<QueueOp<T>>): seq<T> {
    if ops == [] then []
    else Puts(ops[..|ops| - 1]) + match ops[|ops| - 1] case Put(x) => [x] case Drain => []
  }

  /** Everything the server has drained, and so sent to the pages then connected. */
  function Drained<T>(ops: seq<QueueOp<T>>, capacity: int): seq<T> {
    if ops == [] then []
    else
      var init := ops[..|ops| - 1];
      Drained(init, capacity) + match ops[|ops| - 1] case Put(_) => [] case Drain => RunQueue(init, capacity)
  }

  /** The queue never overflows. */
  ghost predicate Fits<T>(ops: seq<QueueOp<T>>, capacity: int) {
    capacity <= 0 || forall n | 0 <= n <= |ops| :: |SinceDrain(ops[..n])| <= capacity
  }

  lemma {:induction false} DrainsEverything<T>(ops: seq<QueueOp<T>>, capacity: int)
    requires Fits(ops, capacity)
    ensures Drained(ops, capacity) + RunQueue(ops, capacity) == Puts(ops)
  {
    if ops != [] {
      var init := ops[..|ops| - 1];
      assert forall n | 0 <= n <= |init| :: init[..n] == ops[..n];
      DrainsEverything(init, capacity);
      assert ops[..|ops|] == ops;
      NothingDroppedIff(ops, capacity);
      NothingDroppedIff(init, capacity);
    }
  }

  lemma {:induction false} PutsSplit<T>(ops: seq<QueueOp<T>>, c: nat)
    requires c <= |ops|
    ensures Puts(ops[..c]) <= Puts(ops)
  {
    if c == |ops| {
      assert ops[..c] == ops;
    } else {
      assert ops[..|ops| - 1][..c] == ops[..c];
      PutsSplit(ops[..|ops| - 1], c);
    }
  }

  /** Puts and drains in any order, one message at a time, the queue never full and drained in the
      end; a page connects after the first `c` of them, is sent the snapshot after `t` ingests, if
      there is one, and then all that is drained later. It ends on the whole store if and only if
      there was a snapshot or nothing stored before the first ingest, and nothing drained before it
      connected announces a node of a batch that the snapshot does not cover. */
  lemma JoinWhileRunning(names: Naming, base: Store, jobs: seq<Job>, t: nat, u: nat,
                         ops: seq<QueueOp<Message>>, capacity: int, c: nat)
    requires FreshJobs(names, base, jobs) && t <= u <= |jobs| && c <= |ops|
    requires Puts(ops) == Sent(base, jobs, 0, u) && Fits(ops, capacity) && ops != [] && ops[|ops| - 1] == Drain
    ensures var before := |Drained(ops[..c], capacity)|;
            && before <= |Drained(ops, capacity)| == |Sent(base, jobs, 0, u)|
            && (AppliedAll(StartPage(base, jobs, t), Drained(ops, capacity)[before..]) == PageOf(StoreAt(base, jobs, u))
                <==> (HasSnapshot(jobs, t) || base.nodes == map[])
                     && NodeIds(Missed(Drained(ops, capacity), |Sent(base, jobs, 0, t)|, before)) == {})
  {
    hide Sent, StoreAt, FreshJobs, AppliedAll, PageOf, NodeIds, Missed, Fits, Puts, Drained, RunQueue, HasSnapshot,
         StartPage;
    DrainedIsStream(ops, capacity, c);
    JoinConvergesIff(names, base, jobs, t, u, |Drained(ops[..c], capacity)|);
  }

  lemma DrainedIsStream<T>(ops: seq<QueueOp<T>>, capacity: int, c: nat)
    requires c <= |ops| && Fits(ops, capacity) && ops != [] && ops[|ops| - 1] == Drain
    ensures Drained(ops, capacity) == Puts(ops) && |Drained(ops[..c], capacity)| <= |Puts(ops)|
  {
    DrainsEverything(ops, capacity);
    assert RunQueue(ops, capacity) == [];
    assert forall n | 0 <= n <= c :: ops[..c][..n] == ops[..n];
    DrainsEverything(ops[..c], capacity);
    PutsSplit(ops, c);
  }
}
