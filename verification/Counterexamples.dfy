/** Inputs on which what the documentation promises fails, one family for each condition that the
    theorems place on it. */
module Counterexamples {
  import opened Core
  import opened Trees
  import opened Flattening
  import opened Scans
  import opened Ingest
  import opened Stores
  import opened Deltas
  import opened Protocol
  import opened Serial
  import opened Confluence
  import opened Queries
  import opened StreamHook
  import opened LateJoiner
  import opened Joining

  // ----- A page that connects in the middle of a batch -------------------------------------------

  function PutEach(ms: seq<Message>): seq<QueueOp<Message>> {
    seq(|ms|, i requires 0 <= i < |ms| => QueueOp.Put(ms[i]))
  }

  /** The first `j` messages are put and drained, then the rest. */
  function TwoDrains(ms: seq<Message>, j: nat): seq<QueueOp<Message>>
    requires j <= |ms|
  {
    PutEach(ms[..j]) + [Drain] + PutEach(ms[j..]) + [Drain]
  }

  lemma {:induction false} PutsEach(ops: seq<QueueOp<Message>>, ms: seq<Message>)
    ensures Puts(ops + PutEach(ms)) == Puts(ops) + ms
  {
    if ms == [] {
      assert ops + PutEach(ms) == ops;
    } else {
      var init, all := ms[..|ms| - 1], ops + PutEach(ms);
      PutsEach(ops, init);
      assert all[..|all| - 1] == ops + PutEach(init);
      assert ms == init + [ms[|ms| - 1]];
    }
  }

  lemma PutsDrain(ops: seq<QueueOp<Message>>)
    ensures Puts(ops + [Drain]) == Puts(ops)
  {
    assert (ops + [Drain])[..|ops|] == ops;
  }

  lemma {:induction false} SinceDrainFits(ops: seq<QueueOp<Message>>)
    ensures |SinceDrain(ops)| <= |Puts(ops)|
  {
    if ops != [] {
      SinceDrainFits(ops[..|ops| - 1]);
    }
  }

  lemma PutsFit(ops: seq<QueueOp<Message>>, capacity: int)
    requires capacity <= 0 || |Puts(ops)| <= capacity
    ensures Fits(ops, capacity)
  {
    forall n | 0 <= n <= |ops| ensures |SinceDrain(ops[..n])| <= |Puts(ops)| {
      SinceDrainFits(ops[..n]);
      PutsSplit(ops, n);
    }
  }

  /** The schedule is one of those that `JoinWhileRunning` speaks of, and its first drain hands over
      the first `j` messages. */
  lemma TwoDrainsSchedule(ms: seq<Message>, j: nat, capacity: int)
    requires j <= |ms| && (capacity <= 0 || |ms| <= capacity)
    ensures var ops := TwoDrains(ms, j);
            && Puts(ops) == ms && Fits(ops, capacity) && j + 1 <= |ops| && ops[|ops| - 1] == Drain
            && Drained(ops[..j + 1], capacity) == ms[..j] && Drained(ops, capacity) == ms
  {
    hide Puts, Fits, Drained;
    var ops, start := TwoDrains(ms, j), PutEach(ms[..j]) + [Drain];
    assert [] + PutEach(ms[..j]) == PutEach(ms[..j]);
    NothingPut();
    PutsEach([], ms[..j]);
    PutsDrain(PutEach(ms[..j]));
    PutsEach(start, ms[j..]);
    PutsDrain(start + PutEach(ms[j..]));
    assert ms[..j] + ms[j..] == ms && ops == start + PutEach(ms[j..]) + [Drain];
    PutsFit(ops, capacity);
    DrainedIsStream(ops, capacity, j + 1);
    assert ops[..j + 1] == start && start[|start| - 1] == Drain && start[..j + 1] == start;
    PutsFit(start, capacity);
    DrainedIsStream(start, capacity, j + 1);
  }

  lemma NothingPut()
    ensures Puts<Message>([]) == []
  {
  }

  /** Take any run and any moment in it at which part of a batch has been drained that announces a
      node. A page that connects then, before the rest is put, never gets that part: it ends on a
      page other than that of the store, though the queue never overflows and is drained in the
      end. */
  lemma TornBatchIsLost(names: Naming, base: Store, jobs: seq<Job>, t: nat, u: nat, j: nat, capacity: int)
    requires FreshJobs(names, base, jobs) && t <= u <= |jobs|
    requires |Sent(base, jobs, 0, t)| <= j <= |Sent(base, jobs, 0, u)|
    requires NodeIds(Sent(base, jobs, 0, u)[|Sent(base, jobs, 0, t)|..j]) != {}
    requires capacity <= 0 || |Sent(base, jobs, 0, u)| <= capacity
    ensures var ms := Sent(base, jobs, 0, u);
            var ops := TwoDrains(ms, j);
            && Puts(ops) == ms && Fits(ops, capacity) && ops[|ops| - 1] == Drain
            && |Drained(ops[..j + 1], capacity)| <= |Drained(ops, capacity)|
            && AppliedAll(StartPage(base, jobs, t), Drained(ops, capacity)[|Drained(ops[..j + 1], capacity)|..])
               != PageOf(StoreAt(base, jobs, u))
  {
    hide FreshJobs, Sent, StoreAt, StartPage, AppliedAll, PageOf, NodeIds, Puts, Fits, Drained, HasSnapshot, TwoDrains;
    TwoDrainsSchedule(Sent(base, jobs, 0, u), j, capacity);
    JoinWhileRunning(names, base, jobs, t, u, TwoDrains(Sent(base, jobs, 0, u), j), capacity, j + 1);
  }

  /** There is such a moment in every batch of an ingest with an item: after its first message. */
  lemma EveryBatchCanBeTorn(names: Naming, base: Store, jobs: seq<Job>, t: nat, u: nat)
    requires FreshJobs(names, base, jobs) && t < u <= |jobs|
    requires jobs[t].items != [] && JobError(jobs[t].items).None?
    ensures var ms, j := Sent(base, jobs, 0, u), |Sent(base, jobs, 0, t)|;
            j < |ms| && NodeIds(ms[j..j + 1]) != {}
  {
    hide FreshJobs, Sent, StoreAt, Batch, FreshFor, JobOk, NamedStore, NodeIds, Ingested, JobError;
    var ms, a, s := Sent(base, jobs, 0, u), Sent(base, jobs, 0, t), StoreAt(base, jobs, t);
    ReadyAt(names, base, jobs, t);
    BatchStarts(names, s, jobs[t]);
    SentSplit(base, jobs, 0, t, u);
    SentSplit(base, jobs, t, t + 1, u);
    OneSent(base, jobs, t);
    FirstOfMiddle(a, Sent(base, jobs, t, t + 1), Batch(s, jobs[t]), Sent(base, jobs, t + 1, u));
  }

  lemma OneSent(base: Store, jobs: seq<Job>, t: nat)
    requires t < |jobs|
    ensures Sent(base, jobs, t, t + 1) == Batch(StoreAt(base, jobs, t), jobs[t])
  {
    hide StoreAt, Batch;
    assert Sent(base, jobs, t, t) == [];
  }

  lemma FirstOfMiddle(a: seq<Message>, one: seq<Message>, b: seq<Message>, c: seq<Message>)
    requires b != [] && one == b
    ensures var ms := a + (one + c); |a| < |ms| && ms[|a|..|a| + 1] == b[..1]
  {
  }

  lemma BatchStarts(names: Naming, s: Store, job: Job)
    requires NamedStore(names, s) && JobOk(names, job) && FreshFor(s, job)
    requires job.items != [] && JobError(job.items).None?
    ensures Batch(s, job) != [] && NodeIds(Batch(s, job)[..1]) != {}
  {
    LoadIsWellIndexed(names, s);
    DeltaIndependence(names, LoadState(s), job);
    hide Build, LoadState, JobOk, NamedStore, FreshFor;
    var b, e := Build(LoadState(s), job), EventRecordOf(job.tool, job.items[0]);
    assert e in JobRecords(job);
    var r :| r in b.nodes && Erase(r) == e;
    EventsAreIn(b.nodes);
    assert r in EventsIn(b.nodes);
    var first := Batch(s, job)[0];
    assert first == NodeMessages(EventsIn(b.nodes))[0];
    assert Batch(s, job)[..1] == [first] && first.id in NodeIds([first]);
  }

  // ----- Keys that share a fact id -------------------------------------------------------------------

  const EMPTY_STORE := Store(map[], map[])

  function MarkedScalar(entity: string, text: string): Field {
    Field("f", "M", Some(Entity(entity, "an entity", None)), "", ScalarVal(Scalar(text, 0)))
  }

  /** One item with two marked scalars. */
  function TwoScalars(t1: string, c1: string, t2: string, c2: string): Job {
    Job("tool", [Item(Model([MarkedScalar(t1, c1), MarkedScalar(t2, c2)]), 0, 0, 0)])
  }

  function SightingOf(t: string, c: string): Sighting {
    Sighting(Key(t, c), c, "M.f", "")
  }

  lemma ScalarRead(t: string, c: string)
    requires c != ""
    ensures ScanItems(FlattenField(MarkedScalar(t, c))) == Scan([SightingOf(t, c)], [], 0, None)
  {
    var f := MarkedScalar(t, c);
    var found := FlattenField(f);
    assert found == [LeafOf(f, Some(Scalar(c, 0)))] && f.EdgeType() == "M.f";
    assert found[..0] == [] && ScanItems(found) == Join(ScanItems(found[..0]), ScanOne(found[0]));
  }

  lemma TwoFields(f1: Field, f2: Field)
    ensures ScanFields([f1, f2]) == Join(ScanItems(FlattenField(f1)), ScanItems(FlattenField(f2)))
  {
    hide FlattenField, ScanItems;
    assert FlattenFields([f1]) == FlattenField(f1) by {
      assert [f1][..0] == [];
    }
    assert [f1, f2][..1] == [f1];
    ScanConcat(FlattenField(f1), FlattenField(f2));
  }

  lemma TwoScalarsRead(t1: string, c1: string, t2: string, c2: string)
    requires c1 != "" && c2 != ""
    ensures var job := TwoScalars(t1, c1, t2, c2);
            JobError(job.items).None? && JobKeys(job.items) == {Key(t1, c1), Key(t2, c2)}
  {
    hide ScanFields, ScanItems, FlattenField;
    var items, s1, s2 := TwoScalars(t1, c1, t2, c2).items, SightingOf(t1, c1), SightingOf(t2, c2);
    ScalarRead(t1, c1);
    ScalarRead(t2, c2);
    TwoFields(MarkedScalar(t1, c1), MarkedScalar(t2, c2));
    assert ScanModel(items[0].model) == Scan([s1, s2], [], 0, None);
    assert items[..0] == [] && items[1..] == [];
    assert KeysSeen([s1, s2]) == {s1.key, s2.key} by {
      assert s1 in [s1, s2] && s2 in [s1, s2];
    }
  }

  /** For any two type names that collide there is a job that shows it: it succeeds on the empty
      store, its event is fresh, and no settled run of it leaves what it should, since one of its two
      facts has overwritten the other. */
  lemma CollidingNamesLoseAFact(shorter: string, longer: string, text: string, steps: seq<Step>)
    requires shorter + "|" <= longer && text != ""
    ensures var job := TwoScalars(shorter, longer[|shorter| + 1..] + "|" + text, longer, text);
            && StoreInv(EMPTY_STORE) && FreshEvents(EMPTY_STORE, [job]) && JobError(job.items).None?
            && (Settled(After([job], EMPTY_STORE, steps)) ==>
                !IsMerge(After([job], EMPTY_STORE, steps).store, EMPTY_STORE, [job]))
  {
    var rest := longer[|shorter| + 1..];
    var a, b := Key(shorter, rest + "|" + text), Key(longer, text);
    var jobs := [TwoScalars(shorter, a.canonical, longer, text)];
    TwoScalarsRead(shorter, a.canonical, longer, text);
    assert longer == shorter + "|" + rest;
    assert FactNodeId(a) == FactNodeId(b);
    assert a in KeysInPlay(EMPTY_STORE, jobs) && b in KeysInPlay(EMPTY_STORE, jobs) by {
      assert a in JobKeys(jobs[0].items) && b in JobKeys(jobs[0].items);
    }
    hide After, Settled, IsMerge, KeysInPlay, JobKeys, JobError, TwoScalars;
    if Settled(After(jobs, EMPTY_STORE, steps)) {
      SettledIsMergeIff(jobs, EMPTY_STORE, steps);
    }
  }

  // ----- The reserved type name ------------------------------------------------------------------------

  /** An entity of the reserved name: an ingest of one item that holds two values of it, from the
      empty store, loses both from the listing of all facts. */
  lemma ReservedEntityIsLost(c1: string, c2: string)
    requires c1 != "" && c2 != ""
    ensures var job := TwoScalars(EVENT_NODE_TYPE, c1, EVENT_NODE_TYPE, c2);
            var g := LoadState(Ingested(EMPTY_STORE, job));
            && JobError(job.items).None?
            && forall c | c in [c1, c2] :: var id := FactNodeId(Key(EVENT_NODE_TYPE, c));
                 id in g.nodes && g.nodes[id].Fact? && !ListedAsFact(g, id)
  {
    var job, ks := TwoScalars(EVENT_NODE_TYPE, c1, EVENT_NODE_TYPE, c2),
        {Key(EVENT_NODE_TYPE, c1), Key(EVENT_NODE_TYPE, c2)};
    TwoScalarsRead(EVENT_NODE_TYPE, c1, EVENT_NODE_TYPE, c2);
    TypesApart(ks);
    NamingExistsIff(ks);
    var names :| NamesAll(names, ks);
    JobKeysNamed(names, job.items);
    hide JobKeys, JobError, Ingested, LoadState;
    forall c | c in [c1, c2]
      ensures var g, id := LoadState(Ingested(EMPTY_STORE, job)), FactNodeId(Key(EVENT_NODE_TYPE, c));
              id in g.nodes && g.nodes[id].Fact? && !ListedAsFact(g, id)
    {
      ReservedTypeIsLost(names, EMPTY_STORE, job, c);
    }
  }
}
