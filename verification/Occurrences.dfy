/** What an ingest writes, told by the values that sit in its items rather than by how they are read. */
module Occurrences {
  import opened Core
  import opened GraphModel
  import opened Trees
  import opened Scans
  import opened Snapshot
  import opened Ingest
  import opened Stores
  import opened Deltas

  /** Item `i` has an occurrence of a fact at this spot. */
  ghost predicate Occurs(items: seq<Item>, i: nat, spot: Spot, s: Sighting) {
    i < |items| && SightedAt(items[i].model, spot, s)
  }

  ghost predicate KeyOccurs(items: seq<Item>, k: Key) {
    exists i: nat, spot, s :: Occurs(items, i, spot, s) && s.key == k
  }

  /** The edge of an occurrence: from the event of its item, under the label of its field, to the fact
      of its type and canonical text. */
  ghost predicate EdgeOccurs(items: seq<Item>, e: FactEdge) {
    exists i: nat, spot, s :: Occurs(items, i, spot, s) && e == EdgeOf(items, i, s)
  }

  ghost function EdgeOf(items: seq<Item>, i: nat, s: Sighting): FactEdge {
    FactEdge(if i < |items| then items[i].event else 0, FactDigest(s.key.nodeType + "|" + s.key.canonical),
             s.edgeType, s.description)
  }

  ghost predicate AllAcceptable(items: seq<Item>) {
    forall i | 0 <= i < |items| :: Acceptable(items[i].model)
  }

  /** The error of the first spot, in the first item that has one, at which the extraction ends. */
  ghost predicate ItemsFailFirst(items: seq<Item>, e: Error) {
    exists i :: 0 <= i < |items| && FailsFirst(items[i].model, e) && AllAcceptable(items[..i])
  }

  // ----- Items, one after another ----------------------------------------------------------------

  lemma ItemSightings(it: Item, s: Sighting)
    requires ScanModel(it.model).error.None?
    ensures s in Sightings(it) <==> exists spot :: SightedAt(it.model, spot, s)
  {
    hide SightedAt, ScanModel;
    var at, _ := ScanModelFinds(it.model);
    var ss := ScanModel(it.model).sightings;
    if s in ss {
      var k :| 0 <= k < |ss| && ss[k] == s;
      assert IsAt(at, ss, at[k], s);
    }
    forall spot | SightedAt(it.model, spot, s) ensures s in ss {
      assert IsAt(at, ss, spot, s);
    }
  }

  lemma {:induction false} ItemsError(items: seq<Item>)
    ensures JobError(items).None? <==> AllAcceptable(items)
    ensures JobError(items).Some? ==> ItemsFailFirst(items, JobError(items).value)
    ensures JobError(items).None? <==> forall i | 0 <= i < |items| :: ScanModel(items[i].model).error.None?
  {
    hide ScanModel, FailsFirst, Acceptable;
    if items != [] {
      var m, rest := items[0].model, items[1..];
      var _, _ := ScanModelFinds(m);
      ItemsError(rest);
      assert forall i | 0 <= i < |rest| :: rest[i] == items[i + 1];
      assert forall i | 0 < i < |items| :: items[i] == rest[i - 1];
      if ScanModel(m).error.Some? {
        assert AllAcceptable(items[..0]);
      } else if JobError(rest).Some? {
        var i :| 0 <= i < |rest| && FailsFirst(rest[i].model, JobError(rest).value) && AllAcceptable(rest[..i]);
        assert items[..i + 1] == [items[0]] + rest[..i];
        assert items[i + 1] == rest[i] && AllAcceptable(items[..i + 1]);
      }
    }
  }

  lemma OccursSplit(init: seq<Item>, it: Item, i: nat, spot: Spot, s: Sighting)
    ensures Occurs(init + [it], i, spot, s) <==>
            Occurs(init, i, spot, s) || (i == |init| && SightedAt(it.model, spot, s))
    ensures Occurs(init, i, spot, s) ==> i < |init|
    ensures Occurs(init, i, spot, s) ==> EdgeOf(init + [it], i, s) == EdgeOf(init, i, s)
    ensures i == |init| ==> EdgeOf(init + [it], i, s) == EdgeFor(s, it.event)
  {
  }

  lemma {:induction false} KeysOccur(items: seq<Item>, k: Key)
    requires forall i | 0 <= i < |items| :: ScanModel(items[i].model).error.None?
    ensures k in JobKeys(items) <==> KeyOccurs(items, k)
  {
    hide Occurs, ScanModel, SightedAt;
    if items == [] {
      NothingOccurs();
    } else {
      var init, it := items[..|items| - 1], items[|items| - 1];
      assert items == init + [it];
      KeysOccur(init, k);
      forall i: nat, spot, s
        ensures Occurs(items, i, spot, s) <==> Occurs(init, i, spot, s) || (i == |init| && SightedAt(it.model, spot, s))
      {
        OccursSplit(init, it, i, spot, s);
      }
      forall s ensures s in Sightings(it) <==> exists spot :: SightedAt(it.model, spot, s) {
        ItemSightings(it, s);
      }
      if s :| s in Sightings(it) && s.key == k {
        var spot :| SightedAt(it.model, spot, s);
        assert Occurs(items, |init|, spot, s);
      }
      if KeyOccurs(init, k) {
        var i: nat, spot, s :| Occurs(init, i, spot, s) && s.key == k;
        assert Occurs(items, i, spot, s);
      }
    }
  }

  lemma NothingOccurs()
    ensures forall i: nat, spot, s :: !Occurs([], i, spot, s)
  {
  }

  lemma {:induction false} EdgesOccur(items: seq<Item>, e: FactEdge)
    requires forall i | 0 <= i < |items| :: ScanModel(items[i].model).error.None?
    ensures e in JobEdges(items) <==> EdgeOccurs(items, e)
  {
    hide Occurs, ScanModel, SightedAt, EdgeOf;
    if items == [] {
      NothingOccurs();
    } else {
      var init, it := items[..|items| - 1], items[|items| - 1];
      assert items == init + [it];
      EdgesOccur(init, e);
      forall i: nat, spot, s
        ensures Occurs(items, i, spot, s) <==> Occurs(init, i, spot, s) || (i == |init| && SightedAt(it.model, spot, s))
        ensures Occurs(init, i, spot, s) ==> i < |init| && EdgeOf(items, i, s) == EdgeOf(init, i, s)
        ensures i == |init| ==> EdgeOf(items, i, s) == EdgeFor(s, it.event)
      {
        OccursSplit(init, it, i, spot, s);
      }
      forall s ensures s in Sightings(it) <==> exists spot :: SightedAt(it.model, spot, s) {
        ItemSightings(it, s);
      }
      var ss := Sightings(it);
      if e in EdgesFor(ss, it.event) {
        var k :| 0 <= k < |ss| && EdgesFor(ss, it.event)[k] == e;
        assert ss[k] in ss;
        var spot :| SightedAt(it.model, spot, ss[k]);
        assert Occurs(items, |init|, spot, ss[k]);
      }
      if EdgeOccurs(init, e) {
        var i: nat, spot, s :| Occurs(init, i, spot, s) && e == EdgeOf(init, i, s);
        assert Occurs(items, i, spot, s);
      }
      if EdgeOccurs(items, e) {
        var i: nat, spot, s :| Occurs(items, i, spot, s) && e == EdgeOf(items, i, s);
        if i == |init| {
          assert SightedAt(it.model, spot, s) && s in ss;
          var k :| 0 <= k < |ss| && ss[k] == s;
          assert EdgesFor(ss, it.event)[k] == e;
        }
      }
    }
  }

  // ----- The theorem -----------------------------------------------------------------------------

  /** The record of the event of item `i`: its own tool and time, and the scalars of the item itself. */
  ghost predicate TellsEvent(job: Job, i: int, r: Record) {
    && 0 <= i < |job.items| && r.EventRecord? && r.uuid == job.items[i].event && r.tool == job.tool
    && r.timestamp == job.items[i].at && HoldsScalars(r.properties, job.items[i].model.fields)
  }

  ghost predicate ListsEvent(job: Job, i: int, rs: seq<Record>) {
    exists r :: r in rs && TellsEvent(job, i, r)
  }

  /** What the delta `b` of a job tells, by what sits in its items. */
  ghost predicate Tells(job: Job, b: Built) {
    && (b.error.None? <==> AllAcceptable(job.items))
    && (b.error.Some? ==> ItemsFailFirst(job.items, b.error.value))
    && (b.error.None? ==>
          && (forall e :: e in b.edges <==> EdgeOccurs(job.items, e))
          && (forall r | r in b.nodes && r.FactRecord? :: KeyOccurs(job.items, KeyOf(r)) && HonestRecord(r))
          && (forall k | KeyOccurs(job.items, k) :: exists r :: r in b.nodes && r.FactRecord? && KeyOf(r) == k)
          && (forall r | r in b.nodes && r.EventRecord? :: exists i :: TellsEvent(job, i, r))
          && (forall i | 0 <= i < |job.items| :: ListsEvent(job, i, b.nodes)))
  }

  /** From any graph whose key index is right, an ingest fails if and only if some shape in some item, at
      any depth, has to be refused or some normalizer raises, and then with the error of the first; and
      otherwise its edges are exactly those of the occurrences, its facts exactly those that occur, and
      its events exactly those of the items. */
  lemma IngestTells(names: Naming, g: GraphState, job: Job)
    requires WellIndexed(names, g) && JobNamed(names, job.items) && DistinctEvents(job.items)
    ensures Tells(job, Build(g, job))
  {
    DeltaIndependence(names, g, job);
    ItemsError(job.items);
    hide Build, WellIndexed, JobNamed, DistinctEvents, AllAcceptable, ItemsFailFirst, ScanModel, JobKeys, JobEdges,
         KeyOccurs, EdgeOccurs, HoldsScalars, JobError;
    var b := Build(g, job);
    if b.error.None? {
      forall e ensures e in b.edges <==> EdgeOccurs(job.items, e) {
        EdgesOccur(job.items, e);
      }
      forall k ensures k in JobKeys(job.items) <==> KeyOccurs(job.items, k) {
        KeysOccur(job.items, k);
      }
      FactsTold(job, b);
      EventsTold(job, b);
    }
  }

  lemma FactsTold(job: Job, b: Built)
    requires Erased(b.nodes) == JobRecords(job)
    ensures forall r | r in b.nodes && r.FactRecord? :: KeyOf(r) in JobKeys(job.items) && HonestRecord(r)
    ensures forall k | k in JobKeys(job.items) :: exists r :: r in b.nodes && r.FactRecord? && KeyOf(r) == k
  {
    forall r | r in b.nodes && r.FactRecord? ensures KeyOf(r) in JobKeys(job.items) && HonestRecord(r) {
      assert Erase(r) in JobRecords(job);
      var k :| k in JobKeys(job.items) && Erase(r) == FactOf(k);
      assert KeyOf(r) == k;
    }
    forall k | k in JobKeys(job.items) ensures exists r :: r in b.nodes && r.FactRecord? && KeyOf(r) == k {
      assert FactOf(k) in Erased(b.nodes);
      var r :| r in b.nodes && Erase(r) == FactOf(k);
      assert KeyOf(r) == k;
    }
  }

  lemma EventsTold(job: Job, b: Built)
    requires Erased(b.nodes) == JobRecords(job)
    ensures forall r | r in b.nodes && r.EventRecord? :: exists i :: TellsEvent(job, i, r)
    ensures forall i | 0 <= i < |job.items| :: ListsEvent(job, i, b.nodes)
  {
    forall i | 0 <= i < |job.items| ensures TellsEvent(job, i, EventRecordOf(job.tool, job.items[i])) {
      EventPropertiesAre(job.items[i].model.fields);
    }
    forall r | r in b.nodes && r.EventRecord? ensures exists i :: TellsEvent(job, i, r) {
      assert Erase(r) in JobRecords(job);
      var i :| 0 <= i < |job.items| && r == EventRecordOf(job.tool, job.items[i]);
      assert TellsEvent(job, i, r);
    }
    forall i | 0 <= i < |job.items| ensures ListsEvent(job, i, b.nodes) {
      var x := EventRecordOf(job.tool, job.items[i]);
      assert x in JobRecords(job);
      var r :| r in b.nodes && Erase(r) == x;
      assert TellsEvent(job, i, r);
    }
  }
}
