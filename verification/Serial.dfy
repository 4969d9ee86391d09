/** One ingest after another on the same store: what each adds, and that nothing is lost. */
module Serial {
  import opened Core
  import opened Ingest
  import opened Stores
  import opened Deltas
  import opened Protocol

  /** The store after one whole ingest: unchanged if the ingest fails. */
  ghost function Ingested(s: Store, job: Job): Store {
    var b := Build(LoadState(s), job);
    if b.error.Some? then s else Persist(s, b.nodes, b.edges)
  }

  ghost function SerialStore(base: Store, jobs: seq<Job>): Store {
    if jobs == [] then base else Ingested(SerialStore(base, jobs[..|jobs| - 1]), jobs[|jobs| - 1])
  }

  lemma SerialSnoc(base: Store, jobs: seq<Job>, job: Job)
    ensures SerialStore(base, jobs + [job]) == Ingested(SerialStore(base, jobs), job)
  {
    assert (jobs + [job])[..|jobs|] == jobs;
  }

  ghost predicate FreshFor(s: Store, job: Job) {
    forall e | e in EventsOf(job) :: EventUuid(e) !in s.nodes
  }

  // ----- What a delta does to the tables -------------------------------------------------------

  lemma {:induction false} PutEdgesIsMerge(edges: map<EdgeId, FactEdge>, es: seq<FactEdge>)
    ensures PutEdges(edges, es) == edges + PutEdges(map[], es)
  {
    if es != [] {
      PutEdgesIsMerge(edges, es[..|es| - 1]);
    }
  }

  /** Where a put record meets a stored one, the two agree up to the text shown. */
  ghost predicate Compatible(nodes: map<NodeId, Record>, rs: seq<Record>) {
    forall r | r in rs && r.Id() in nodes :: Erase(nodes[r.Id()]) == Erase(r)
  }

  lemma ListedSnoc(rs: seq<Record>, r: Record, id: NodeId)
    ensures Listed(rs + [r], id) <==> Listed(rs, id) || id == r.Id()
  {
  }

  lemma NotListedYet(rs: seq<Record>, r: Record)
    requires DistinctIds(rs + [r])
    ensures !Listed(rs, r.Id()) && DistinctIds(rs)
  {
    forall x | x in rs ensures x.Id() != r.Id() {
      var i :| 0 <= i < |rs| && rs[i] == x;
      assert (rs + [r])[i] == x && (rs + [r])[|rs|] == r;
    }
    forall i, j | 0 <= i < j < |rs| ensures rs[i].Id() != rs[j].Id() {
      assert (rs + [r])[i] == rs[i] && (rs + [r])[j] == rs[j];
    }
  }

  lemma {:induction false} PutNodesAdds(names: Naming, nodes: map<NodeId, Record>, rs: seq<Record>)
    requires NamedTable(names, nodes) && Compatible(nodes, rs) && DistinctIds(rs)
    requires forall r | r in rs :: NamedRecord(names, r)
    ensures NamedTable(names, PutNodes(nodes, rs)) && ErasedOf(PutNodes(nodes, rs)) == ErasedOf(nodes) + Erased(rs)
    ensures forall id :: id in PutNodes(nodes, rs) <==> id in nodes || Listed(rs, id)
    ensures forall id | id in nodes && !Listed(rs, id) :: PutNodes(nodes, rs)[id] == nodes[id]
  {
    hide Listed, ErasedOf, DistinctIds, NamedRecord, Erase;
    if rs == [] {
      NothingListed(nodes);
    } else {
      var init, r := rs[..|rs| - 1], rs[|rs| - 1];
      assert rs == init + [r];
      NotListedYet(init, r);
      PutNodesAdds(names, nodes, init);
      ErasedGrows(PutNodes(nodes, init), r);
      assert Erased(rs) == Erased(init) + {Erase(r)};
      forall id ensures Listed(rs, id) <==> Listed(init, id) || id == r.Id() {
        ListedSnoc(init, r, id);
      }
    }
  }

  lemma NothingListed(nodes: map<NodeId, Record>)
    ensures Erased([]) == {} && forall id :: !Listed([], id)
  {
  }

  lemma {:induction false} PutNodesStands(nodes: map<NodeId, Record>, rs: seq<Record>)
    requires DistinctIds(rs)
    ensures forall r | r in rs :: r.Id() in PutNodes(nodes, rs) && PutNodes(nodes, rs)[r.Id()] == r
  {
    if rs != [] {
      var init, last := rs[..|rs| - 1], rs[|rs| - 1];
      assert rs == init + [last];
      NotListedYet(init, last);
      PutNodesStands(nodes, init);
      forall r | r in init ensures r.Id() != last.Id() {
      }
    }
  }

  lemma JobEventIds(job: Job, x: Record)
    requires x in JobRecords(job) && x.EventRecord?
    ensures x.uuid in EventsOf(job)
  {
  }

  lemma DeltaIsCompatible(names: Naming, s: Store, job: Job, rs: seq<Record>)
    requires NamedStore(names, s) && FreshFor(s, job) && Erased(rs) == JobRecords(job)
    requires forall r | r in rs :: NamedRecord(names, r)
    ensures Compatible(s.nodes, rs)
  {
    forall r | r in rs && r.Id() in s.nodes ensures Erase(s.nodes[r.Id()]) == Erase(r) {
      assert Erase(r) in JobRecords(job);
      if r.FactRecord? {
      } else {
        JobEventIds(job, r);
      }
    }
  }

  /** The edges of a job, as the table they make. */
  function JobTable(job: Job): map<EdgeId, FactEdge> {
    PutEdges(map[], JobEdges(job.items))
  }

  lemma JobTableEvents(job: Job, k: EdgeId)
    requires k in JobTable(job)
    ensures k.event in EventsOf(job) && IsIdOf(JobKeys(job.items), k.target) && JobTable(job)[k].Id() == k
  {
    TableKeys(JobEdges(job.items), k);
    var e :| e in JobEdges(job.items) && e.Id() == k;
    JobEdgeEnds(job.items, e);
    TableWellKeyed(JobEdges(job.items));
  }

  lemma {:induction false} TableWellKeyed(es: seq<FactEdge>)
    ensures WellKeyed(PutEdges(map[], es))
  {
    if es != [] {
      TableWellKeyed(es[..|es| - 1]);
    }
  }

  /** What persisting the delta of a job does to a well-formed store. */
  lemma DeltaAdds(names: Naming, s: Store, job: Job, rs: seq<Record>, es: seq<FactEdge>)
    requires NamedStore(names, s) && FreshFor(s, job) && DistinctIds(rs)
    requires Erased(rs) == JobRecords(job) && es == JobEdges(job.items) && forall r | r in rs :: NamedRecord(names, r)
    ensures var t := Persist(s, rs, es);
            && NamedStore(names, t) && ErasedOf(t.nodes) == ErasedOf(s.nodes) + JobRecords(job)
            && t.edges == s.edges + JobTable(job) && JobTable(job).Keys !! s.edges.Keys
  {
    var t := Persist(s, rs, es);
    DeltaIsCompatible(names, s, job, rs);
    PutNodesAdds(names, s.nodes, rs);
    PutEdgesIsMerge(s.edges, es);
    hide JobRecords, JobTable, NamedStore, FreshFor, NamedRecord, Compatible, PutEdges, PutNodes, ErasedOf, Erased;
    forall k | k in JobTable(job)
      ensures k !in s.edges && JobTable(job)[k].Id() == k
           && EventUuid(k.event) in t.nodes && k.target.FactDigest? && k.target in t.nodes
    {
      JobTableEvents(job, k);
      FreshEdge(s, job, k);
      EndsOfJob(job, rs, k);
    }
    TableJoins(s, t.nodes, JobTable(job));
    assert JobTable(job) == PutEdges(map[], es) by {
      JobTableIs(job);
    }
  }

  lemma JobTableIs(job: Job)
    ensures JobTable(job) == PutEdges(map[], JobEdges(job.items))
  {
  }

  lemma FreshEdge(s: Store, job: Job, k: EdgeId)
    requires StoreInv(s) && FreshFor(s, job) && k.event in EventsOf(job)
    ensures k !in s.edges
  {
  }

  /** Edges that are new and have their ends join a well-formed store. */
  lemma TableJoins(s: Store, nodes: map<NodeId, Record>, table: map<EdgeId, FactEdge>)
    requires StoreInv(s) && Honest(nodes) && s.nodes.Keys <= nodes.Keys
    requires forall k | k in table :: k !in s.edges && table[k].Id() == k
               && EventUuid(k.event) in nodes && k.target.FactDigest? && k.target in nodes
    ensures StoreInv(Store(nodes, s.edges + table)) && table.Keys !! s.edges.Keys
  {
  }

  /** What one whole ingest does to a well-formed store. */
  lemma IngestAdds(names: Naming, s: Store, job: Job)
    requires NamedStore(names, s) && JobOk(names, job) && FreshFor(s, job)
    ensures NamedStore(names, Ingested(s, job))
    ensures JobError(job.items).Some? ==> Ingested(s, job) == s
    ensures JobError(job.items).None? ==>
              && ErasedOf(Ingested(s, job).nodes) == ErasedOf(s.nodes) + JobRecords(job)
              && Ingested(s, job).edges == s.edges + JobTable(job)
              && JobTable(job).Keys !! s.edges.Keys
  {
    var b := Build(LoadState(s), job);
    LoadIsWellIndexed(names, s);
    DeltaIndependence(names, LoadState(s), job);
    hide Build, LoadState, JobRecords, JobTable, FreshFor, WellIndexed;
    if b.error.None? {
      DeltaDistinct(names, LoadState(s), job);
      DeltaAdds(names, s, job, b.nodes, b.edges);
    }
  }

  lemma EndsOfJob(job: Job, rs: seq<Record>, k: EdgeId)
    requires Erased(rs) == JobRecords(job) && k.event in EventsOf(job) && IsIdOf(JobKeys(job.items), k.target)
    ensures Listed(rs, EventUuid(k.event)) && Listed(rs, k.target) && k.target.FactDigest?
  {
    IdsOfRecords(rs, job, EventUuid(k.event));
    IdsOfRecords(rs, job, k.target);
    var i :| 0 <= i < |job.items| && job.items[i].event == k.event;
    assert HasEvent(job.items, EventUuid(k.event));
  }
}
