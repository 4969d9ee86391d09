/** Counting over serialized runs: what `new_nodes` adds up to, and what it misses without a lock. */
module Conservation {
  import opened Core
  import opened GraphModel
  import opened Ingest
  import opened Snapshot
  import opened Stores
  import opened Deltas
  import opened Protocol
  import opened Serial
  import opened Confluence
  import opened Incremental
  import opened Overcount

  function FactIds(nodes: map<NodeId, Record>): set<NodeId> {
    set id | id in nodes && nodes[id].FactRecord?
  }

  /** The `new_nodes` of an ingest on the store `s`. */
  ghost function NewCount(s: Store, job: Job): nat {
    var b := Build(LoadState(s), job);
    if b.error.Some? then 0 else |b.created|
  }

  ghost function TotalNew(base: Store, jobs: seq<Job>): nat {
    if jobs == [] then 0
    else TotalNew(base, jobs[..|jobs| - 1]) + NewCount(SerialStore(base, jobs[..|jobs| - 1]), jobs[|jobs| - 1])
  }

  // ----- Keys count facts ----------------------------------------------------------------------

  lemma {:induction false} ImageSize(ks: set<Key>)
    requires Apart(ks)
    ensures |set k | k in ks :: FactNodeId(k)| == |ks|
  {
    if ks == {} {
      assert (set k | k in ks :: FactNodeId(k)) == {};
    } else {
      var k :| k in ks;
      var rest := ks - {k};
      ImageSize(rest);
      assert (set j | j in ks :: FactNodeId(j)) == (set j | j in rest :: FactNodeId(j)) + {FactNodeId(k)};
    }
  }

  /** A well-formed store holds one fact per key. */
  lemma FactsAreKeys(nodes: map<NodeId, Record>)
    requires Honest(nodes)
    ensures |FactIds(nodes)| == |Keys(nodes)|
  {
    assert Apart(Keys(nodes));
    assert FactIds(nodes) == set k | k in Keys(nodes) :: FactNodeId(k) by {
      forall id | id in FactIds(nodes) ensures exists k :: k in Keys(nodes) && FactNodeId(k) == id {
        assert KeyOf(nodes[id]) in Keys(nodes);
      }
    }
    ImageSize(Keys(nodes));
  }

  lemma {:induction false} CreatedSize(names: Naming, rs: seq<Record>)
    requires FactsOnly(names, rs) && DistinctIds(rs)
    ensures |RecordKeys(rs)| == |rs|
  {
    if rs != [] {
      var init, r := rs[..|rs| - 1], rs[|rs| - 1];
      assert rs == init + [r];
      NotListedYet(init, r);
      CreatedSize(names, init);
      RecordKeysGrow(init, r);
      forall x | x in init ensures KeyOf(x) != KeyOf(r) {
        assert x.Id() != r.Id();
      }
    }
  }

  /** `new_nodes` counts the keys of the job that the store did not have. */
  lemma NewCountIsNewKeys(names: Naming, s: Store, job: Job)
    requires NamedStore(names, s) && JobOk(names, job) && JobError(job.items).None?
    ensures NewCount(s, job) == |JobKeys(job.items) - Keys(s.nodes)|
  {
    hide JobKeys, JobError, JobOk, WellIndexed, Build, NamedTable;
    var g := LoadState(s);
    LoadIsWellIndexed(names, s);
    CreatedKeys(names, g, job);
    assert g.byKey.Keys == Keys(s.nodes);
  }

  lemma CreatedKeys(names: Naming, g: GraphState, job: Job)
    requires WellIndexed(names, g) && JobOk(names, job) && JobError(job.items).None?
    ensures Build(g, job).error.None? && |Build(g, job).created| == |JobKeys(job.items) - g.byKey.Keys|
  {
    hide BuildFrom, WellIndexed, JobNamed, DistinctEvents;
    WholeJob(names, g, job);
    CreatedSize(names, BuildFrom(Start(g), job.tool, job.items).created);
  }

  lemma KeysAfter(names: Naming, s: Store, job: Job)
    requires NamedStore(names, s) && JobOk(names, job) && FreshFor(s, job)
    ensures Keys(Ingested(s, job).nodes) == Keys(s.nodes) + if JobError(job.items).Some? then {} else JobKeys(job.items)
  {
    IngestAdds(names, s, job);
    KeysOfErased(s.nodes);
    KeysOfErased(Ingested(s, job).nodes);
    if JobError(job.items).None? {
      var t := Ingested(s, job);
      forall k ensures k in Keys(t.nodes) <==> k in Keys(s.nodes) + JobKeys(job.items) {
        assert FactOf(k) in JobRecords(job) <==> k in JobKeys(job.items);
      }
    }
  }

  lemma KeysOfErased(nodes: map<NodeId, Record>)
    requires Honest(nodes)
    ensures forall k :: k in Keys(nodes) <==> FactOf(k) in ErasedOf(nodes)
  {
  }

  // ----- The theorems --------------------------------------------------------------------------

  lemma FailedIngest(names: Naming, s: Store, job: Job)
    requires NamedStore(names, s) && JobOk(names, job) && JobError(job.items).Some?
    ensures Ingested(s, job) == s && NewCount(s, job) == 0
  {
    LoadIsWellIndexed(names, s);
    DeltaIndependence(names, LoadState(s), job);
  }

  lemma FactsGained(s: Store, t: Store, ks: set<Key>)
    requires Honest(s.nodes) && Honest(t.nodes) && Keys(t.nodes) == Keys(s.nodes) + ks
    ensures |FactIds(t.nodes)| == |FactIds(s.nodes)| + |ks - Keys(s.nodes)|
  {
    FactsAreKeys(s.nodes);
    FactsAreKeys(t.nodes);
    assert Keys(t.nodes) == Keys(s.nodes) + (ks - Keys(s.nodes));
  }

  lemma OneIngestCounts(names: Naming, s: Store, job: Job)
    requires NamedStore(names, s) && JobOk(names, job) && FreshFor(s, job)
    ensures NamedStore(names, Ingested(s, job))
    ensures |FactIds(Ingested(s, job).nodes)| == |FactIds(s.nodes)| + NewCount(s, job)
    ensures Keeps(s.nodes, Ingested(s, job).nodes)
  {
    if JobError(job.items).Some? {
      FailedIngest(names, s, job);
    } else {
      IngestAdds(names, s, job);
      KeysAfter(names, s, job);
      NewCountIsNewKeys(names, s, job);
      FactsGained(s, Ingested(s, job), JobKeys(job.items));
      IngestCoherent(names, s, job);
    }
  }

  /** Over a serial run the `new_nodes` of the ingests add up to the facts the store gained, and
      no record that was ever stored changes, the text shown for a fact included. */
  lemma {:induction false} SerialConserves(names: Naming, base: Store, jobs: seq<Job>)
    requires FreshJobs(names, base, jobs)
    ensures |FactIds(SerialStore(base, jobs).nodes)| == |FactIds(base.nodes)| + TotalNew(base, jobs)
    ensures Keeps(base.nodes, SerialStore(base, jobs).nodes)
  {
    if jobs != [] {
      var n := |jobs| - 1;
      SerialReady(names, base, jobs);
      SerialConserves(names, base, jobs[..n]);
      OneIngestCounts(names, SerialStore(base, jobs[..n]), jobs[n]);
    }
  }

  /** The last job of a serial run finds a well-formed store that its event ids are new to. */
  lemma SerialReady(names: Naming, base: Store, jobs: seq<Job>)
    requires FreshJobs(names, base, jobs) && jobs != []
    ensures var n := |jobs| - 1;
            && FreshJobs(names, base, jobs[..n]) && JobOk(names, jobs[n])
            && NamedStore(names, SerialStore(base, jobs[..n])) && FreshFor(SerialStore(base, jobs[..n]), jobs[n])
  {
    hide SerialStore, StoreInv;
    var n := |jobs| - 1;
    FreshPrefix(names, base, jobs, n);
    SerialIsMerge(names, base, jobs[..n]);
    assert jobs == jobs[..n] + [jobs[n]];
    SerialFresh(names, base, jobs[..n], SerialStore(base, jobs[..n]), jobs[n], jobs);
  }

  // ----- Without exclusion -----------------------------------------------------------------------

  lemma {:induction false} NewNodesAreReports(names: Naming, ws: seq<Worker>)
    requires forall w | w in ws && (w.WritingNodes? || w.WritingEdges?) ::
             FactsOnly(names, w.created) && DistinctIds(w.created)
    ensures NewNodes(ws) == TotalSize(Reports(ws))
  {
    if ws != [] {
      var init, w := ws[..|ws| - 1], ws[|ws| - 1];
      assert ws == init + [w];
      assert Reports(ws) == Reports(init) + [ReportedBy(w)];
      assert Reports(ws)[..|init|] == Reports(init);
      NewNodesAreReports(names, init);
      if w.WritingNodes? || w.WritingEdges? {
        CreatedSize(names, w.created);
      }
    }
  }

  lemma MergedKeys(names: Naming, s: Store, base: Store, jobs: seq<Job>)
    requires NamedStore(names, s) && NamedStore(names, base) && IsMerge(s, base, jobs)
    ensures Keys(base.nodes) <= Keys(s.nodes)
    ensures forall i | 0 <= i < |jobs| && JobError(jobs[i].items).None? :: JobKeys(jobs[i].items) <= Keys(s.nodes)
  {
    KeysOfErased(s.nodes);
    KeysOfErased(base.nodes);
    forall i, k | 0 <= i < |jobs| && JobError(jobs[i].items).None? && k in JobKeys(jobs[i].items)
      ensures k in Keys(s.nodes)
    {
      assert FactOf(k) in JobParts(jobs)[i];
      assert FactOf(k) in UnionAll(JobParts(jobs));
    }
  }

  /** In a settled run what is reported is on record, and what is on record and new was reported. */
  lemma ReportsAreKeys(names: Naming, jobs: seq<Job>, base: Store, steps: seq<Step>)
    requires FreshJobs(names, base, jobs) && Settled(After(jobs, base, steps))
    ensures var c := After(jobs, base, steps);
            && (forall x | x in Reports(c.workers) :: x <= Keys(c.store.nodes))
            && Keys(base.nodes) <= Keys(c.store.nodes)
            && (forall k | k in Keys(c.store.nodes) - Keys(base.nodes) :: Count(Reports(c.workers), k) >= 1)
            && NewNodes(c.workers) == TotalSize(Reports(c.workers))
  {
    AlwaysInv(names, jobs, base, steps);
    AlwaysCounts(names, jobs, base, steps);
    SettledIsMerge(names, jobs, base, steps);
    var c := After(jobs, base, steps);
    hide After, IsMerge, JobKeys, Keys, FactsOnly, DistinctIds, ReportedBy, NamedStore, FreshEvents, EdgesMerged;
    MergedKeys(names, c.store, base, jobs);
    NewNodesAreReports(names, c.workers);
    forall i | 0 <= i < |jobs| ensures Reports(c.workers)[i] <= Keys(c.store.nodes) {
      ReportIsMerged(names, jobs, base, c, i);
    }
    forall k | k in Keys(c.store.nodes) - Keys(base.nodes) ensures Count(Reports(c.workers), k) >= 1 {
      CountIsNone(Reports(c.workers), k);
      assert Accounted(base, c.workers, k);
      var i :| 0 <= i < |c.workers| && k in ReportedBy(c.workers[i]);
      assert Reports(c.workers)[i] in Reports(c.workers);
    }
  }

  lemma ReportIsMerged(names: Naming, jobs: seq<Job>, base: Store, c: Cluster, i: nat)
    requires Inv(names, jobs, base, c) && CountInv(names, jobs, base, c) && i < |jobs| && Settled(c)
    requires JobError(jobs[i].items).None? ==> JobKeys(jobs[i].items) <= Keys(c.store.nodes)
    ensures ReportedBy(c.workers[i]) <= Keys(c.store.nodes)
  {
    assert WorkerOk(names, jobs[i], c.workers[i]) && WorkerCounts(names, base, c.workers, jobs[i], c.workers[i]);
  }

  /** Without exclusion, for any number of workers with loads as stale, torn or cut as they may be:
      the `new_nodes` they report in a settled run add up to the facts gained, plus the reports of
      keys that the base already had, plus, for each key gained, its reports after the first. So
      they are at least the facts gained, and exactly that if and only if no worker reports a key of
      the base and no two report the same key. */
  lemma ConcurrentOvercount(names: Naming, jobs: seq<Job>, base: Store, steps: seq<Step>)
    requires FreshJobs(names, base, jobs) && Settled(After(jobs, base, steps))
    ensures var c := After(jobs, base, steps);
            var reports, known, gained := Reports(c.workers), Keys(base.nodes), Keys(c.store.nodes) - Keys(base.nodes);
            var gain := |FactIds(c.store.nodes)| - |FactIds(base.nodes)|;
            && NewNodes(c.workers) == gain + SumOfCounts(known, reports) + SumOfRepeats(gained, reports)
            && NewNodes(c.workers) >= gain
            && (NewNodes(c.workers) == gain <==>
                  (forall k | k in known :: Count(reports, k) == 0) && forall k | k in gained :: Count(reports, k) == 1)
  {
    var c := After(jobs, base, steps);
    var reports, known, all := Reports(c.workers), Keys(base.nodes), Keys(c.store.nodes);
    ReportsAreKeys(names, jobs, base, steps);
    AlwaysIntegral(names, jobs, base, steps);
    FactsGained(base, c.store, all - known);
    hide After, Keys, FactIds, Settled, FreshJobs, StoreInv, NamedTable, Reports, NewNodes, SumOfCounts, SumOfRepeats,
         Count, TotalSize;
    Tally(known, all, reports);
  }
}
