/** What the counts in an ingest's summary add up to. */
module Accounting {
  import opened Core
  import opened GraphModel
  import opened Trees
  import opened Flattening
  import opened Scans
  import opened Extraction
  import opened Ingest

  predicate Fails(item: Found) {
    ScanOne(item).error.Some?
  }

  function NoneLeaves(items: seq<Found>): nat {
    if items == [] then 0
    else
      var x := items[|items| - 1];
      NoneLeaves(items[..|items| - 1]) + if x.Leaf? && x.value.None? then 1 else 0
  }

  /** A reading fails exactly when some leaf's normalizer raises or some shape is refused; otherwise
      every leaf is accounted for, once, as an edge, as a warning or as an absent value. */
  lemma {:induction false} ScanAccounts(items: seq<Found>)
    ensures ScanItems(items).error.None? <==> forall x | x in items :: !Fails(x)
    ensures ScanItems(items).error.None? ==>
              && ScanItems(items).absent == NoneLeaves(items)
              && |ScanItems(items).sightings| + |ScanItems(items).warnings| + NoneLeaves(items) == |items|
  {
    if items != [] {
      var init, x := items[..|items| - 1], items[|items| - 1];
      assert items == init + [x];
      ScanAccounts(init);
      assert (forall y | y in items :: !Fails(y)) <==> (forall y | y in init :: !Fails(y)) && !Fails(x);
    }
  }

  function JobFound(items: seq<Item>): seq<Found> {
    if items == [] then [] else Flatten(items[0].model) + JobFound(items[1..])
  }

  lemma {:induction false} NoneLeavesConcat(x: seq<Found>, y: seq<Found>)
    ensures NoneLeaves(x + y) == NoneLeaves(x) + NoneLeaves(y)
  {
    if y == [] {
      assert x + y == x;
    } else {
      assert (x + y)[..|x + y| - 1] == x + y[..|y| - 1];
      NoneLeavesConcat(x, y[..|y| - 1]);
    }
  }

  // ----- One extraction ------------------------------------------------------------------------

  /** An edge per sighting, a created record per key the index gains, and a linked record per
      distinct fact found again. */
  lemma {:induction false} EmitCounts(a: Acc, ss: seq<Sighting>, st: Stamp)
    ensures var a' := EmitAll(a, ss, st);
            && |a'.edges| == |a.edges| + |ss|
            && |a'.created| - |a.created| == |a'.g.byKey| - |a.g.byKey|
            && |a'.linked| - |a.linked| == |a'.seen| - |a.seen|
  {
    hide Emit;
    if ss != [] {
      EmitCounts(a, ss[..|ss| - 1], st);
      EmitCountsOne(EmitAll(a, ss[..|ss| - 1], st), ss[|ss| - 1], st);
    }
  }

  lemma EmitCountsOne(a: Acc, s: Sighting, st: Stamp)
    ensures var a' := Emit(a, s, st);
            && |a'.edges| == |a.edges| + 1
            && |a'.created| - |a.created| == |a'.g.byKey| - |a.g.byKey|
            && |a'.linked| - |a.linked| == |a'.seen| - |a.seen|
  {
    hide RecordFor;
    var id := TargetOf(a.g, s.key);
    if s.key !in a.g.byKey {
      assert |a.g.byKey[s.key := FactNodeId(s.key)]| == |a.g.byKey| + 1;
    } else if id in a.seen {
      assert a.seen + {id} == a.seen;
    }
  }

  lemma ItemCounts(b: Built, tool: string, it: Item)
    requires b.error.None?
    ensures var b', fs := BuildItem(b, tool, it), Flatten(it.model);
            && (b'.error.None? <==> forall x | x in fs :: !Fails(x))
            && (b'.error.None? ==>
                && |b'.edges| + |b'.warnings| + NoneLeaves(fs) == |b.edges| + |b.warnings| + |fs|
                && |b'.created| - |b.created| == |b'.g.byKey| - |b.g.byKey|)
  {
    ScanAccounts(Flatten(it.model));
    EmitCounts(Acc(AddEvent(b.g, it.event, EventOf(tool, it)), [], [], {}, []), ScanModel(it.model).sightings,
        ItemStamp(tool, it));
  }

  lemma {:induction false} ItemsCount(b: Built, tool: string, items: seq<Item>)
    requires b.error.None?
    ensures var b', fs := BuildFrom(b, tool, items), JobFound(items);
            && (b'.error.None? <==> forall x | x in fs :: !Fails(x))
            && (b'.error.None? ==>
                && |b'.edges| + |b'.warnings| + NoneLeaves(fs) == |b.edges| + |b.warnings| + |fs|
                && |b'.created| - |b.created| == |b'.g.byKey| - |b.g.byKey|)
    decreases items
  {
    if items != [] {
      var next, fs, rest := BuildItem(b, tool, items[0]), Flatten(items[0].model), JobFound(items[1..]);
      ItemCounts(b, tool, items[0]);
      NoneLeavesConcat(fs, rest);
      if next.error.None? {
        ItemsCount(next, tool, items[1..]);
      } else {
        var x :| x in fs && Fails(x);
        assert x in JobFound(items);
      }
    }
  }

  /** Whatever graph an ingest starts from: it raises exactly when some leaf of some item fails;
      otherwise `new_edges` plus the warnings plus the None values is the number of marked leaves
      of all items, and `new_nodes` is the number of keys the graph gained. */
  lemma IngestAccounts(g: GraphState, job: Job)
    ensures var b, fs := Build(g, job), JobFound(job.items);
            && (b.error.None? <==> forall x | x in fs :: !Fails(x))
            && (b.error.None? ==>
                && |b.edges| + |b.warnings| + NoneLeaves(fs) == |fs|
                && |b.created| == |b.g.byKey| - |g.byKey|)
  {
    ItemsCount(Start(g), job.tool, job.items);
  }
}
