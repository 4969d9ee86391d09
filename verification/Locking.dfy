/** The per-session lock, and the synchronous tools of one process that ingest under it. */
module Locking {
  import opened Core
  import opened Ingest
  import opened Stores
  import opened Protocol
  import opened Serial
  import opened Incremental
  import opened Conservation

  class Lock {
    constructor () {}
  }

  /** The process-wide table of locks. */
  class SessionLocks {
    var locks: map<string, Lock>

    constructor ()
      ensures Valid() && locks == map[]
    {
      locks := map[];
    }

    /** No two sessions share a lock. */
    ghost predicate Valid()
      reads this
    {
      forall a, b | a in locks && b in locks && locks[a] == locks[b] :: a == b
    }

    /** The lock of a session: created on first use, the same one ever after. */
    method LockFor(threadId: string) returns (lock: Lock)
      requires Valid()
      modifies this
      ensures Valid() && threadId in locks && locks[threadId] == lock
      ensures threadId in old(locks) ==> locks == old(locks)
      ensures threadId !in old(locks) ==> fresh(lock) && locks == old(locks)[threadId := lock]
    {
      if threadId in locks {
        lock := locks[threadId];
      } else {
        lock := new Lock();
        locks := locks[threadId := lock];
      }
    }
  }

  // ----- Threads that take the lock ------------------------------------------------------------

  /** Where a thread is in its window. It leaves with the `new_nodes` it reports, 0 if it raised. */
  datatype Phase =
    | Waiting
    | Entered
    | NodesRead(seen: map<NodeId, Record>)
    | PuttingNodes(b: Built, done: nat)
    | PuttingEdges(b: Built, done: nat)
    | Left(count: nat)
  {
    predicate InWindow() {
      !Waiting? && !Left?
    }
  }

  /** `order` lists the threads that have left, in the order they did. */
  datatype Process = Process(store: Store, owner: Option<nat>, threads: seq<Phase>, order: seq<nat>)

  /** Thread `i` makes its next step; it stays where it is if the lock is taken. */
  ghost function Advance(jobs: seq<Job>, p: Process, i: nat): Process
    requires |p.threads| == |jobs|
  {
    if i >= |jobs| then p
    else match p.threads[i]
      case Waiting => if p.owner.None? then p.(owner := Some(i), threads := p.threads[i := Entered]) else p
      case Entered => p.(threads := p.threads[i := NodesRead(p.store.nodes)])
      case NodesRead(seen) =>
        var b := Build(LoadState(Store(seen, p.store.edges)), jobs[i]);
        if b.error.Some? then Leave(p, i, 0) else p.(threads := p.threads[i := PuttingNodes(b, 0)])
      case PuttingNodes(b, done) =>
        if done < |b.nodes| then
          p.(store := p.store.(nodes := p.store.nodes[b.nodes[done].Id() := b.nodes[done]]),
             threads := p.threads[i := PuttingNodes(b, done + 1)])
        else p.(threads := p.threads[i := PuttingEdges(b, 0)])
      case PuttingEdges(b, done) =>
        if done < |b.edges| then
          p.(store := p.store.(edges := p.store.edges[b.edges[done].Id() := b.edges[done]]),
             threads := p.threads[i := PuttingEdges(b, done + 1)])
        else Leave(p, i, |b.created|)
      case Left(_) => p
  }

  function Leave(p: Process, i: nat, count: nat): Process
    requires i < |p.threads|
  {
    p.(owner := None, threads := p.threads[i := Left(count)], order := p.order + [i])
  }

  /** The process after any schedule. */
  ghost function Scheduled(jobs: seq<Job>, base: Store, schedule: seq<nat>): (p: Process)
    ensures |p.threads| == |jobs|
  {
    if schedule == [] then Process(base, None, seq(|jobs|, _ => Waiting), [])
    else Advance(jobs, Scheduled(jobs, base, schedule[..|schedule| - 1]), schedule[|schedule| - 1])
  }

  // ----- The invariant -------------------------------------------------------------------------

  ghost predicate OrderOk(n: nat, order: seq<nat>) {
    && (forall k | 0 <= k < |order| :: order[k] < n)
    && (forall j, k | 0 <= j < k < |order| :: order[j] != order[k])
  }

  function JobsIn(jobs: seq<Job>, order: seq<nat>): seq<Job>
    requires forall k | 0 <= k < |order| :: order[k] < |jobs|
  {
    seq(|order|, k requires 0 <= k < |order| => jobs[order[k]])
  }

  /** The store as the thread in the window has left it so far, from the store `s` it found. */
  ghost predicate Midway(job: Job, s: Store, store: Store, t: Phase) {
    match t
    case Entered => store == s
    case NodesRead(seen) => store == s && seen == s.nodes
    case PuttingNodes(b, done) =>
      && b == Build(LoadState(s), job) && b.error.None? && done <= |b.nodes|
      && store == Store(PutNodes(s.nodes, b.nodes[..done]), s.edges)
    case PuttingEdges(b, done) =>
      && b == Build(LoadState(s), job) && b.error.None? && done <= |b.edges|
      && store == Store(PutNodes(s.nodes, b.nodes), PutEdges(s.edges, b.edges[..done]))
    case _ => false
  }

  /** The finished threads are those in `order`, and only the owner of the lock is in its window. */
  ghost predicate Tidy(n: nat, p: Process) {
    && |p.threads| == n && OrderOk(n, p.order)
    && (forall i | 0 <= i < n :: p.threads[i].Left? <==> i in p.order)
    && (forall i | 0 <= i < n :: p.threads[i].InWindow() <==> p.owner == Some(i))
    && (p.owner.Some? ==> p.owner.value < n)
  }

  /** What the k-th finished thread should have reported. */
  ghost function CountAt(jobs: seq<Job>, base: Store, order: seq<nat>, k: nat): nat
    requires k < |order| && OrderOk(|jobs|, order)
  {
    NewCount(SerialStore(base, JobsIn(jobs, order[..k])), jobs[order[k]])
  }

  ghost predicate Counts(jobs: seq<Job>, base: Store, p: Process)
    requires |p.threads| == |jobs| && OrderOk(|jobs|, p.order)
  {
    forall k | 0 <= k < |p.order| :: p.threads[p.order[k]] == Left(CountAt(jobs, base, p.order, k))
  }

  /** The store that the finished jobs make. */
  ghost function Finished(jobs: seq<Job>, base: Store, order: seq<nat>): Store
    requires OrderOk(|jobs|, order)
  {
    SerialStore(base, JobsIn(jobs, order))
  }

  ghost predicate LockInv(jobs: seq<Job>, base: Store, p: Process) {
    && Tidy(|jobs|, p) && Counts(jobs, base, p)
    && match p.owner
       case None => p.store == Finished(jobs, base, p.order)
       case Some(i) => Midway(jobs[i], Finished(jobs, base, p.order), p.store, p.threads[i])
  }

  lemma OneMoreLeft(jobs: seq<Job>, base: Store, order: seq<nat>, i: nat)
    requires OrderOk(|jobs|, order) && i < |jobs| && i !in order
    ensures OrderOk(|jobs|, order + [i])
    ensures Finished(jobs, base, order + [i]) == Ingested(Finished(jobs, base, order), jobs[i])
    ensures CountAt(jobs, base, order + [i], |order|) == NewCount(Finished(jobs, base, order), jobs[i])
    ensures forall k | 0 <= k < |order| :: CountAt(jobs, base, order + [i], k) == CountAt(jobs, base, order, k)
  {
    var more := order + [i];
    assert JobsIn(jobs, more) == JobsIn(jobs, order) + [jobs[i]];
    SerialSnoc(base, JobsIn(jobs, order), jobs[i]);
    assert more[..|order|] == order;
    forall k | 0 <= k < |order| ensures more[..k] == order[..k] {
    }
  }

  lemma LeavingIsTidy(n: nat, p: Process, i: nat, count: nat)
    requires Tidy(n, p) && i < n && p.owner == Some(i)
    ensures i !in p.order && Tidy(n, Leave(p, i, count))
  {
  }

  lemma LeavingKeepsInv(jobs: seq<Job>, base: Store, p: Process, i: nat, count: nat)
    requires LockInv(jobs, base, p) && i < |jobs| && p.owner == Some(i)
    requires p.store == Ingested(Finished(jobs, base, p.order), jobs[i])
    requires count == NewCount(Finished(jobs, base, p.order), jobs[i])
    ensures LockInv(jobs, base, Leave(p, i, count))
  {
    hide NewCount, Ingested, SerialStore;
    var p' := Leave(p, i, count);
    LeavingIsTidy(|jobs|, p, i, count);
    OneMoreLeft(jobs, base, p.order, i);
    assert p'.order == p.order + [i];
  }

  /** A step inside the window that neither enters nor leaves. */
  lemma InsideKeepsInv(jobs: seq<Job>, base: Store, p: Process, i: nat, store: Store, t: Phase)
    requires LockInv(jobs, base, p) && i < |jobs| && p.owner == Some(i) && t.InWindow()
    requires Midway(jobs[i], Finished(jobs, base, p.order), store, t)
    ensures LockInv(jobs, base, p.(store := store, threads := p.threads[i := t]))
  {
    hide NewCount, SerialStore;
    var p' := p.(store := store, threads := p.threads[i := t]);
    assert Tidy(|jobs|, p');
    assert Counts(jobs, base, p');
  }

  lemma EnteringKeepsInv(jobs: seq<Job>, base: Store, p: Process, i: nat)
    requires LockInv(jobs, base, p) && i < |jobs| && p.owner.None? && p.threads[i].Waiting?
    ensures LockInv(jobs, base, p.(owner := Some(i), threads := p.threads[i := Entered]))
  {
    hide NewCount, SerialStore;
    var p' := p.(owner := Some(i), threads := p.threads[i := Entered]);
    assert i !in p.order;
    assert Tidy(|jobs|, p') by {
      assert forall j | 0 <= j < |jobs| && j != i :: p'.threads[j] == p.threads[j];
    }
    assert Counts(jobs, base, p');
  }

  lemma NextNode(job: Job, s: Store, store: Store, b: Built, done: nat)
    requires Midway(job, s, store, PuttingNodes(b, done))
    ensures done <= |b.nodes|
    ensures done < |b.nodes| ==>
            Midway(job, s, store.(nodes := store.nodes[b.nodes[done].Id() := b.nodes[done]]), PuttingNodes(b, done + 1))
    ensures done == |b.nodes| ==> Midway(job, s, store, PuttingEdges(b, 0))
  {
    if done < |b.nodes| {
      assert b.nodes[..done + 1][..done] == b.nodes[..done];
    } else {
      assert b.nodes[..done] == b.nodes && b.edges[..0] == [];
    }
  }

  lemma NextPutEdge(job: Job, s: Store, store: Store, b: Built, done: nat)
    requires Midway(job, s, store, PuttingEdges(b, done))
    ensures done <= |b.edges|
    ensures done < |b.edges| ==>
            Midway(job, s, store.(edges := store.edges[b.edges[done].Id() := b.edges[done]]), PuttingEdges(b, done + 1))
    ensures done == |b.edges| ==> store == Ingested(s, job) && |b.created| == NewCount(s, job)
  {
    if done < |b.edges| {
      assert b.edges[..done + 1][..done] == b.edges[..done];
    } else {
      assert b.edges[..done] == b.edges;
    }
  }

  lemma OnlyOwnerInside(n: nat, p: Process, i: nat)
    requires Tidy(n, p) && i < n && p.threads[i].InWindow()
    ensures p.owner == Some(i)
  {
  }

  lemma PutsKeepInv(jobs: seq<Job>, base: Store, p: Process, i: nat)
    requires LockInv(jobs, base, p) && i < |jobs| && (p.threads[i].PuttingNodes? || p.threads[i].PuttingEdges?)
    ensures LockInv(jobs, base, Advance(jobs, p, i))
  {
    hide NewCount, SerialStore, Counts, Midway, Ingested, CountAt, Finished;
    var s, p' := Finished(jobs, base, p.order), Advance(jobs, p, i);
    OnlyOwnerInside(|jobs|, p, i);
    match p.threads[i]
    case PuttingNodes(b, done) =>
      NextNode(jobs[i], s, p.store, b, done);
      InsideKeepsInv(jobs, base, p, i, p'.store, p'.threads[i]);
    case PuttingEdges(b, done) =>
      NextPutEdge(jobs[i], s, p.store, b, done);
      if done < |b.edges| {
        InsideKeepsInv(jobs, base, p, i, p'.store, p'.threads[i]);
      } else {
        LeavingKeepsInv(jobs, base, p, i, |b.created|);
      }
  }

  lemma AdvanceKeepsInv(jobs: seq<Job>, base: Store, p: Process, i: nat)
    requires LockInv(jobs, base, p)
    ensures LockInv(jobs, base, Advance(jobs, p, i))
  {
    if i < |jobs| {
      match p.threads[i]
      case Waiting => if p.owner.None? { EnteringKeepsInv(jobs, base, p, i); }
      case Left(_) =>
      case Entered => InsideKeepsInv(jobs, base, p, i, p.store, NodesRead(p.store.nodes));
      case NodesRead(seen) =>
        assert p.owner == Some(i);
        var b := Build(LoadState(Store(seen, p.store.edges)), jobs[i]);
        if b.error.Some? {
          LeavingKeepsInv(jobs, base, p, i, 0);
        } else {
          assert b.nodes[..0] == [];
          InsideKeepsInv(jobs, base, p, i, p.store, PuttingNodes(b, 0));
        }
      case _ => PutsKeepInv(jobs, base, p, i);
    }
  }

  /** Whatever the schedule, at most one thread is in the window, and whenever none is, the store
      is exactly that of the finished jobs ingested one after another in the order they left. */
  lemma {:induction false} LockedRunsAreSerial(jobs: seq<Job>, base: Store, schedule: seq<nat>)
    ensures var p := Scheduled(jobs, base, schedule);
            && LockInv(jobs, base, p)
            && (forall i, j | 0 <= i < |jobs| && 0 <= j < |jobs| && p.threads[i].InWindow() &&
               p.threads[j].InWindow() :: i == j)
            && (p.owner.None? ==> p.store == Finished(jobs, base, p.order))
  {
    if schedule != [] {
      LockedRunsAreSerial(jobs, base, schedule[..|schedule| - 1]);
      AdvanceKeepsInv(jobs, base, Scheduled(jobs, base, schedule[..|schedule| - 1]), schedule[|schedule| - 1]);
    } else {
      assert JobsIn(jobs, []) == [];
    }
  }

  // ----- Counting ------------------------------------------------------------------------------

  /** The sum of the `new_nodes` reported by the threads in `order`. */
  function Reported(threads: seq<Phase>, order: seq<nat>): nat
    requires forall k | 0 <= k < |order| :: order[k] < |threads| && threads[order[k]].Left?
  {
    if order == [] then 0
    else
      var n := |order| - 1;
      Reported(threads, order[..n]) + threads[order[n]].count
  }

  lemma TotalSnoc(base: Store, jobs: seq<Job>, job: Job)
    ensures TotalNew(base, jobs + [job]) == TotalNew(base, jobs) + NewCount(SerialStore(base, jobs), job)
  {
  }

  lemma {:induction false} ReportedIsTotal(jobs: seq<Job>, base: Store, p: Process, n: nat)
    requires Tidy(|jobs|, p) && Counts(jobs, base, p) && n <= |p.order|
    ensures Reported(p.threads, p.order[..n]) == TotalNew(base, JobsIn(jobs, p.order[..n]))
  {
    hide NewCount, SerialStore;
    if n == 0 {
      assert JobsIn(jobs, p.order[..n]) == [];
    } else {
      var init, i := p.order[..n - 1], p.order[n - 1];
      ReportedIsTotal(jobs, base, p, n - 1);
      assert p.order[..n] == init + [i] && (init + [i])[..n - 1] == init;
      assert JobsIn(jobs, init + [i]) == JobsIn(jobs, init) + [jobs[i]];
      TotalSnoc(base, JobsIn(jobs, init), jobs[i]);
      assert p.threads[i] == Left(CountAt(jobs, base, p.order, n - 1));
    }
  }

  lemma FreshInOrder(names: Naming, base: Store, jobs: seq<Job>, order: seq<nat>)
    requires FreshJobs(names, base, jobs) && OrderOk(|jobs|, order)
    ensures FreshJobs(names, base, JobsIn(jobs, order))
  {
  }

  /** With the lock, whatever the schedule and whenever the lock is free, the `new_nodes` reported
      by the threads that have left add up to the facts the store has gained, and no stored record,
      its display text included, has changed. */
  lemma LockedConserves(names: Naming, jobs: seq<Job>, base: Store, schedule: seq<nat>)
    requires FreshJobs(names, base, jobs) && Scheduled(jobs, base, schedule).owner.None?
    ensures var p := Scheduled(jobs, base, schedule);
            && (forall k | 0 <= k < |p.order| :: p.order[k] < |p.threads| && p.threads[p.order[k]].Left?)
            && |FactIds(p.store.nodes)| == |FactIds(base.nodes)| + Reported(p.threads, p.order)
            && Keeps(base.nodes, p.store.nodes)
  {
    var p := Scheduled(jobs, base, schedule);
    LockedRunsAreSerial(jobs, base, schedule);
    FreshInOrder(names, base, jobs, p.order);
    SerialConserves(names, base, JobsIn(jobs, p.order));
    assert p.order[..|p.order|] == p.order;
    ReportedIsTotal(jobs, base, p, |p.order|);
  }
}
