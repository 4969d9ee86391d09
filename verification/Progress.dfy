/** Wait-freedom: no worker ever waits for another, and every run can be brought to its end. */
module Progress {
  import opened Core
  import opened GraphModel
  import opened Scans
  import opened Extraction
  import opened Ingest
  import opened Stores
  import opened Accounting
  import opened Protocol
  import opened Confluence

  // ----- The size of a delta ---------------------------------------------------------------------

  lemma {:induction false} RecordsPerEdge(a: Acc, ss: seq<Sighting>, st: Stamp)
    ensures var a' := EmitAll(a, ss, st);
            |a'.created| + |a'.linked| - |a.created| - |a.linked| <= |a'.edges| - |a.edges|
  {
    if ss != [] {
      RecordsPerEdge(a, ss[..|ss| - 1], st);
    }
  }

  /** Every created fact is among the records, of which there is one per event and created fact. */
  predicate SizedSoFar(b: Built, items: nat) {
    && |b.nodes| == items + |b.created| && |b.created| + |b.linked| <= |b.edges|
    && forall r | r in b.created :: r in b.nodes
  }

  lemma {:induction false} SizedFrom(b: Built, tool: string, items: seq<Item>, done: nat)
    requires SizedSoFar(b, done)
    ensures BuildFrom(b, tool, items).error.None? ==>
              SizedSoFar(BuildFrom(b, tool, items), done + |items|)
    decreases items
  {
    if items != [] && b.error.None? {
      var it := items[0];
      if ScanModel(it.model).error.None? {
        RecordsPerEdge(Acc(AddEvent(b.g, it.event, EventOf(tool, it)), [], [], {}, []), ScanModel(it.model).sightings,
            ItemStamp(tool, it));
        SizedFrom(BuildItem(b, tool, it), tool, items[1..], done + 1);
      } else {
        assert BuildFrom(BuildItem(b, tool, it), tool, items[1..]).error.Some?;
      }
    }
  }

  lemma {:induction false} RefreshSize(nodes: seq<Record>, known: seq<Record>, more: seq<Record>)
    requires forall r | r in known :: r in nodes
    ensures |Refresh(nodes, known + more)| <= |nodes| + |more|
    decreases known, more
  {
    if known != [] {
      assert (known + more)[1..] == known[1..] + more;
      assert known[0] in nodes && Listed(nodes, known[0].Id());
      RefreshSize(nodes, known[1..], more);
    } else if more != [] {
      assert [] + more == more && [] + more[1..] == more[1..];
      RefreshSize(nodes, [], more[1..]);
      RefreshSize(nodes + [more[0]], [], more[1..]);
    }
  }

  /** Whatever graph a worker has read, its delta has at most a record per item and marked leaf, and
      an edge per leaf. */
  lemma DeltaSize(g: GraphState, job: Job)
    requires Build(g, job).error.None?
    ensures |Build(g, job).nodes| <= |job.items| + |JobFound(job.items)|
    ensures |Build(g, job).edges| <= |JobFound(job.items)|
  {
    IngestAccounts(g, job);
    var b := BuildFrom(Start(g), job.tool, job.items);
    SizedFrom(Start(g), job.tool, job.items, 0);
    RefreshSize(b.nodes, b.created, b.linked);
  }

  // ----- How far a worker is from its end ----------------------------------------------------------

  /** The steps a job takes at most. */
  function Bound(job: Job): nat {
    |job.items| + 2 * |JobFound(job.items)| + 3
  }

  /** The steps that are left, at most. */
  function StepsLeft(job: Job, w: Worker): int {
    match w
    case Idle => Bound(job)
    case Reading(_) => Bound(job) - 1
    case WritingNodes(ns, es, _, done) => |ns| - done + 1 + |es|
    case WritingEdges(_, es, _, done) => |es| - done
    case Refused => 0
  }

  predicate InBounds(w: Worker) {
    match w
    case WritingNodes(ns, _, _, done) => done <= |ns|
    case WritingEdges(_, es, _, done) => done <= |es|
    case _ => true
  }

  /** A step either leaves its worker as it was or brings it closer to its end. */
  lemma MoveDescends(job: Job, store: Store, w: Worker, s: Step)
    requires InBounds(w)
    ensures var w' := Move(job, store, w, s).1;
            InBounds(w') && (w' != w ==> StepsLeft(job, w') + 1 <= StepsLeft(job, w))
  {
    hide Build, LoadState;
    if s.ReadEdges? && w.Reading? {
      var g := LoadState(Store(w.seen, Restrict(store.edges, s.keepEdges)));
      if Build(g, job).error.None? {
        DeltaSize(g, job);
      }
    }
  }

  lemma AfterSnoc(jobs: seq<Job>, base: Store, steps: seq<Step>, s: Step)
    ensures After(jobs, base, steps + [s]) == Do(jobs, After(jobs, base, steps), s)
  {
    assert (steps + [s])[..|steps|] == steps;
  }

  /** The steps of worker `i` that changed it. */
  ghost function StepsTaken(jobs: seq<Job>, base: Store, steps: seq<Step>, i: nat): nat
    requires i < |jobs|
  {
    if steps == [] then 0
    else
      var init := steps[..|steps| - 1];
      var moved := After(jobs, base, steps).workers[i] != After(jobs, base, init).workers[i];
      StepsTaken(jobs, base, init, i) + if moved then 1 else 0
  }

  /** In any run, of any jobs and from any store, what a worker has done and what it has left to do
      come to no more than the bound of its job, whatever the others do. */
  lemma {:induction false} BoundedWork(jobs: seq<Job>, base: Store, steps: seq<Step>, i: nat)
    requires i < |jobs|
    ensures InBounds(After(jobs, base, steps).workers[i])
    ensures StepsTaken(jobs, base, steps, i) + StepsLeft(jobs[i], After(jobs, base, steps).workers[i]) <=
            Bound(jobs[i])
  {
    hide Move, StepsLeft, Bound;
    if steps == [] {
      assert StepsLeft(jobs[i], Idle) == Bound(jobs[i]) by {
        StartsAtBound(jobs[i]);
      }
    } else {
      var init, s := steps[..|steps| - 1], steps[|steps| - 1];
      BoundedWork(jobs, base, init, i);
      if s.i == i {
        MoveDescends(jobs[i], After(jobs, base, init).store, After(jobs, base, init).workers[i], s);
      }
    }
  }

  lemma StartsAtBound(job: Job)
    ensures StepsLeft(job, Idle) == Bound(job)
  {
  }

  /** A worker that is not over has a step that changes it, in whatever state the others are. */
  lemma NextStep(job: Job, store: Store, i: nat, w: Worker) returns (s: Step)
    requires InBounds(w) && !IsOver(w)
    ensures s.i == i && Move(job, store, w, s).1 != w
  {
    hide Build, LoadState;
    match w
    case Idle => s := ReadNodes(i, {});
    case Reading(_) => s := ReadEdges(i, {});
    case WritingNodes(_, _, _, _) => s := Put(i);
    case WritingEdges(_, _, _, _) => s := Put(i);
  }

  lemma OverOrNot(job: Job, w: Worker)
    requires InBounds(w)
    ensures StepsLeft(job, w) >= 0 && (StepsLeft(job, w) == 0 <==> IsOver(w))
  {
  }

  // ----- Every run can be brought to its end -------------------------------------------------------

  /** Wait-freedom: from every reachable state each worker reaches its end, its whole delta put or
      its job refused, by at most its remaining steps of its own, with no other worker moved. */
  lemma {:induction false} WaitFree(jobs: seq<Job>, base: Store, steps: seq<Step>, i: nat) returns (own: seq<Step>)
    requires i < |jobs|
    ensures forall s | s in own :: s.i == i
    ensures var c, c' := After(jobs, base, steps), After(jobs, base, steps + own);
            && |own| <= StepsLeft(jobs[i], c.workers[i])
            && IsOver(c'.workers[i])
            && forall j | 0 <= j < |jobs| && j != i :: c'.workers[j] == c.workers[j]
    decreases StepsLeft(jobs[i], After(jobs, base, steps).workers[i])
  {
    hide Move, StepsLeft, IsOver, InBounds, After;
    var c := After(jobs, base, steps);
    var w := c.workers[i];
    BoundedWork(jobs, base, steps, i);
    OverOrNot(jobs[i], w);
    if IsOver(w) {
      own := [];
      assert steps + own == steps;
    } else {
      var s := NextStep(jobs[i], c.store, i, w);
      MoveDescends(jobs[i], c.store, w, s);
      AfterSnoc(jobs, base, steps, s);
      var rest := WaitFree(jobs, base, steps + [s], i);
      own := [s] + rest;
      assert steps + own == steps + [s] + rest;
    }
  }

  lemma {:induction false} FirstReachEnd(jobs: seq<Job>, base: Store, steps: seq<Step>, n: nat)
    returns (more: seq<Step>)
    requires n <= |jobs|
    ensures forall i | 0 <= i < n :: IsOver(After(jobs, base, steps + more).workers[i])
  {
    hide After, IsOver;
    if n == 0 {
      more := [];
    } else {
      var first := FirstReachEnd(jobs, base, steps, n - 1);
      var own := WaitFree(jobs, base, steps + first, n - 1);
      more := first + own;
      assert steps + more == steps + first + own;
    }
  }

  /** So every reachable state can be continued to a settled one. */
  lemma CanSettle(jobs: seq<Job>, base: Store, steps: seq<Step>) returns (more: seq<Step>)
    ensures Settled(After(jobs, base, steps + more))
  {
    more := FirstReachEnd(jobs, base, steps, |jobs|);
  }
}
