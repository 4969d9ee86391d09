/** The store as the source talks to it: single-key puts, and searches with a scan limit. */
module KeyValue {
  import opened Core
  import opened FactGraphs
  import opened Snapshot
  import opened Ingest
  import opened Stores

  const SCAN_LIMIT := 10_000

  ghost predicate Part<K, V>(a: map<K, V>, b: map<K, V>) {
    a.Keys <= b.Keys && forall k | k in a :: a[k] == b[k]
  }

  lemma NothingIsListed()
    ensures DistinctIds([]) && forall id :: !Listed([], id)
  {
  }

  /** A listing of all records, put one after another, makes the table again. */
  lemma ListingIsAll(rs: seq<Record>, nodes: map<NodeId, Record>)
    requires DistinctIds(rs) && (forall r | r in rs :: r.Id() in nodes && nodes[r.Id()] == r)
    requires forall id :: Listed(rs, id) <==> id in nodes
    ensures PutNodes(map[], rs) == nodes
  {
    PutNodesContents(rs);
    forall id | id in nodes ensures PutNodes(map[], rs)[id] == nodes[id] {
      var r :| r in rs && r.Id() == id;
    }
  }

  class KvStore {
    var nodes: map<NodeId, Record>
    var edges: map<EdgeId, FactEdge>

    constructor ()
      ensures Valid() && View() == EMPTY_STORE
    {
      nodes, edges := map[], map[];
    }

    ghost function View(): Store
      reads this
    {
      Store(nodes, edges)
    }

    /** Every value was put under its own id. */
    ghost predicate Valid()
      reads this
    {
      (forall id | id in nodes :: nodes[id].Id() == id) && WellKeyed(edges)
    }

    /** Writes the touched keys, nodes before edges. */
    method PersistDelta(ns: seq<NodeRef>, es: seq<FactEdge>)
      requires Valid() && Proper(ns)
      modifies this
      ensures Valid() && View() == Persist(old(View()), PayloadRecords(ns), es)
    {
      ghost var rs := PayloadRecords(ns);
      for i := 0 to |ns|
        invariant Valid() && nodes == PutNodes(old(nodes), rs[..i]) && edges == old(edges)
      {
        assert rs[..i + 1][..i] == rs[..i];
        var r := PayloadRecord(ns[i]);
        nodes := nodes[r.Id() := r];
      }
      assert rs[..|ns|] == rs;
      for i := 0 to |es|
        invariant Valid() && nodes == PutNodes(old(nodes), rs) && edges == PutEdges(old(edges), es[..i])
      {
        assert es[..i + 1][..i] == es[..i];
        edges := edges[es[i].Id() := es[i]];
      }
      assert es[..|es|] == es;
    }

    /** Up to `limit` of the node records, in an order the store chooses. */
    method SearchNodes(limit: nat) returns (rs: seq<Record>)
      requires Valid()
      ensures DistinctIds(rs) && (forall r | r in rs :: r.Id() in nodes && nodes[r.Id()] == r)
      ensures |nodes| <= limit ==> PutNodes(map[], rs) == nodes
    {
      hide Listed, DistinctIds;
      rs := [];
      NothingIsListed();
      var left := nodes.Keys;
      while left != {} && |rs| < limit
        invariant left <= nodes.Keys && |rs| + |left| == |nodes.Keys|
        invariant DistinctIds(rs) && forall id :: Listed(rs, id) <==> id in nodes.Keys - left
        invariant forall r | r in rs :: r.Id() in nodes && nodes[r.Id()] == r
        decreases left
      {
        var id :| id in left;
        left := left - {id};
        OneMoreListed(rs, nodes[id]);
        rs := rs + [nodes[id]];
      }
      assert |nodes| == |nodes.Keys|;
      assert left != {} ==> |left| > 0;
      if left == {} {
        ListingIsAll(rs, nodes);
      }
    }

    /** Up to `limit` of the edges. */
    method SearchEdges(limit: nat) returns (es: seq<FactEdge>)
      requires Valid()
      ensures Part(PutEdges(map[], es), edges)
      ensures |edges| <= limit ==> PutEdges(map[], es) == edges
    {
      es := [];
      var left := edges.Keys;
      while left != {} && |es| < limit
        invariant left <= edges.Keys && |es| + |left| == |edges.Keys|
        invariant PutEdges(map[], es) == map k | k in edges.Keys - left :: edges[k]
        decreases left
      {
        var k :| k in left;
        left := left - {k};
        ghost var before := es;
        es := es + [edges[k]];
        assert es[..|es| - 1] == before;
      }
      assert |edges| == |edges.Keys|;
      assert left != {} ==> |left| > 0;
      assert left == {} ==> edges.Keys - left == edges.Keys;
    }

    /** Loads the graph. Within the scan limit it is the graph of the whole store; beyond it, of
        some part (`part`) of the nodes and of the edges. */
    method LoadGraph() returns (g: FactGraph, ghost part: Store)
      requires Valid()
      ensures fresh(g) && fresh(g.Facts()) && g.Valid()
      ensures Part(part.nodes, nodes) && Part(part.edges, edges)
      ensures |nodes| <= SCAN_LIMIT ==> part.nodes == nodes
      ensures |edges| <= SCAN_LIMIT ==> part.edges == edges
      ensures Honest(nodes) ==> g.View() == LoadState(part)
    {
      var rs := SearchNodes(SCAN_LIMIT);
      var es := SearchEdges(SCAN_LIMIT);
      g := FromSnapshot(rs, es);
      part := Store(PutNodes(map[], rs), PutEdges(map[], es));
      PutNodesContents(rs);
      if Honest(nodes) {
        RebuildIsLoad(rs, es);
      }
    }
  }
}
