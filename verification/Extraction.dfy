/** Extraction: the recursive walk over a validated model tree, which refines its flat reading. */
module Extraction {
  import opened Core
  import opened GraphModel
  import opened FactGraphs
  import opened Trees
  import opened Flattening
  import opened Scans

  // ----- What one sighting does to the graph and to the delta ----------------------------------

  /** The graph together with the delta an extraction has accumulated. */
  datatype Acc = Acc(g: GraphState, created: seq<Record>, linked: seq<Record>, seen: set<NodeId>, edges: seq<FactEdge>)

  function Emit(a: Acc, s: Sighting, st: Stamp): Acc {
    var id, known := TargetOf(a.g, s.key), s.key in a.g.byKey;
    var r, e := RecordFor(a.g, s.key, s.value), FactEdge(st.event, id, s.edgeType, s.description);
    Acc(AddEdge(Upsert(a.g, s.key, s.value, st), e),
        if known then a.created else a.created + [r],
        if known && id !in a.seen then a.linked + [r] else a.linked,
        if known then a.seen + {id} else a.seen,
        a.edges + [e])
  }

  function EmitAll(a: Acc, ss: seq<Sighting>, st: Stamp): Acc {
    if ss == [] then a else Emit(EmitAll(a, ss[..|ss| - 1], st), ss[|ss| - 1], st)
  }

  lemma {:induction false} EmitConcat(a: Acc, x: seq<Sighting>, y: seq<Sighting>, st: Stamp)
    ensures EmitAll(a, x + y, st) == EmitAll(EmitAll(a, x, st), y, st)
  {
    if y == [] {
      assert x + y == x;
    } else {
      assert (x + y)[..|x + y| - 1] == x + y[..|y| - 1];
      EmitConcat(a, x, y[..|y| - 1], st);
    }
  }

  // ----- What the sightings leave behind ---------------------------------------------------------

  ghost predicate HasEdge(ss: seq<Sighting>, event: EventId, byKey: map<Key, FactId>, id: EdgeId) {
    exists s :: s in ss && s.key in byKey && id == EdgeId(event, s.edgeType, byKey[s.key])
  }

  /** The sightings `ss` have been taken in: an edge from the event for each, in order, to the node its
      key is indexed under; an index entry for each of their keys; and no other edge or entry. */
  ghost predicate Drawn(ss: seq<Sighting>, event: EventId, a: Acc, b: Acc) {
    && |b.edges| == |a.edges| + |ss| && a.edges == b.edges[..|a.edges|]
    && (forall k | 0 <= k < |ss| ::
          && ss[k].key in b.g.byKey
          && b.edges[|a.edges| + k] == FactEdge(event, b.g.byKey[ss[k].key], ss[k].edgeType, ss[k].description))
    && (forall id :: id in b.g.edges <==> id in a.g.edges || HasEdge(ss, event, b.g.byKey, id))
    && (forall key :: key in b.g.byKey <==> key in a.g.byKey || exists s :: s in ss && s.key == key)
    && (forall key | key in a.g.byKey :: b.g.byKey[key] == a.g.byKey[key])
  }

  lemma EmitDraws(b: Acc, s: Sighting, st: Stamp)
    ensures var b' := Emit(b, s, st);
            && s.key in b'.g.byKey && b'.g.byKey.Keys == b.g.byKey.Keys + {s.key}
            && (forall key | key in b.g.byKey :: b'.g.byKey[key] == b.g.byKey[key])
            && b'.edges == b.edges + [FactEdge(st.event, b'.g.byKey[s.key], s.edgeType, s.description)]
            && b'.g.edges.Keys == b.g.edges.Keys + {EdgeId(st.event, s.edgeType, b'.g.byKey[s.key])}
  {
    hide RecordFor;
  }

  lemma DrawnOne(ss: seq<Sighting>, s: Sighting, st: Stamp, a: Acc, b: Acc)
    requires Drawn(ss, st.event, a, b)
    ensures Drawn(ss + [s], st.event, a, Emit(b, s, st))
  {
    hide Emit, HasEdge;
    EmitDraws(b, s, st);
    var more, b' := ss + [s], Emit(b, s, st);
    assert more[|ss|] == s && forall k | 0 <= k < |ss| :: more[k] == ss[k];
    forall id ensures HasEdge(more, st.event, b'.g.byKey, id) <==>
        HasEdge(ss, st.event, b.g.byKey, id) || id == EdgeId(st.event, s.edgeType, b'.g.byKey[s.key])
    {
      MoreEdges(ss, s, st.event, b.g.byKey, b'.g.byKey, id);
    }
  }

  lemma MoreEdges(ss: seq<Sighting>, s: Sighting, event: EventId, byKey: map<Key, FactId>, byKey': map<Key, FactId>,
                  id: EdgeId)
    requires s.key in byKey' && forall key | key in byKey :: key in byKey' && byKey'[key] == byKey[key]
    requires forall t | t in ss :: t.key in byKey
    ensures HasEdge(ss + [s], event, byKey', id) <==>
            HasEdge(ss, event, byKey, id) || id == EdgeId(event, s.edgeType, byKey'[s.key])
  {
    assert s in ss + [s] && forall t | t in ss :: t in ss + [s];
  }

  lemma {:induction false} EmitAllDraws(a: Acc, ss: seq<Sighting>, st: Stamp)
    ensures Drawn(ss, st.event, a, EmitAll(a, ss, st))
  {
    if ss != [] {
      var init, s := ss[..|ss| - 1], ss[|ss| - 1];
      assert ss == init + [s];
      EmitAllDraws(a, init, st);
      DrawnOne(init, s, st, a, EmitAll(a, init, st));
    }
  }

  /** What an extraction of the model `m` makes of the state `a`, told by what sits where in `m`: it
      fails if and only if some shape has to be refused or some normalizer raises, with the error of
      the first such spot; otherwise each value that has a canonical text has its edge, in order, and
      nothing else has. */
  ghost predicate Extracts(m: Model, event: EventId, a: Acc, b: Acc, err: Option<Error>) {
    && (err.None? <==> Acceptable(m))
    && (err.Some? ==> FailsFirst(m, err.value))
    && (err.None? ==> exists at, ss :: SightingsAt(m, at, ss) && Drawn(ss, event, a, b))
  }

  lemma ScanExtracts(m: Model, st: Stamp, a: Acc)
    ensures Extracts(m, st.event, a, EmitAll(a, ScanModel(m).sightings, st), ScanModel(m).error)
    ensures ScanModel(m).error.None? ==> exists at :: WarningsAt(m, at, ScanModel(m).warnings)
  {
    hide EmitAll, ScanModel, Acceptable, FailsFirst, SightingsAt, WarningsAt, Drawn;
    var at, warnedAt := ScanModelFinds(m);
    EmitAllDraws(a, ScanModel(m).sightings, st);
  }

  // ----- The walk itself -----------------------------------------------------------------------

  function Records(fs: seq<FactNode>): (rs: seq<Record>) {
    seq(|fs|, i requires 0 <= i < |fs| => RecordOf(fs[i]))
  }

  /** One extraction: the graph it mutates and the lists it appends to. */
  class Extractor {
    const graph: FactGraph
    const stamp: Stamp
    var newFacts: seq<FactNode>
    var linkedFacts: seq<FactNode>
    var seenLinked: set<NodeId>
    var newEdges: seq<FactEdge>
    var warnings: seq<Warning>

    constructor (graph: FactGraph, stamp: Stamp)
      requires graph.Valid()
      ensures this.graph == graph && this.stamp == stamp
      ensures Valid() && warnings == [] && View() == Acc(graph.View(), [], [], {}, [])
    {
      this.graph, this.stamp := graph, stamp;
      newFacts, linkedFacts, seenLinked, newEdges, warnings := [], [], {}, [], [];
      new;
      assert Records([]) == [];
    }

    ghost predicate Valid()
      reads this, graph
    {
      graph.Valid()
    }

    ghost function View(): Acc
      reads this, graph, graph.Facts()
    {
      Acc(graph.View(), Records(newFacts), Records(linkedFacts), seenLinked, newEdges)
    }

    /** The state is what `sc` leads to from state `a` and warnings `w`. */
    ghost predicate Reached(a: Acc, w: seq<Warning>, sc: Scan)
      reads this, graph, graph.Facts()
    {
      View() == EmitAll(a, sc.sightings, stamp) && warnings == w + sc.warnings
    }

    lemma Extend(a: Acc, w: seq<Warning>, done: Scan, a': Acc, w': seq<Warning>, more: Scan)
      requires done.error.None?
      requires a' == EmitAll(a, done.sightings, stamp) && w' == w + done.warnings
      requires Reached(a', w', more)
      ensures Reached(a, w, Join(done, more))
    {
      EmitConcat(a, done.sightings, more.sightings, stamp);
    }

    lemma EmitFew(a: Acc, entity: Entity, value: Option<Scalar>, edgeType: string, description: string)
      ensures EmitAll(a, [], stamp) == a
      ensures var ss := ScanOne(Leaf(entity, value, edgeType, description)).sightings;
              ss == [] || (|ss| == 1 && EmitAll(a, ss, stamp) == Emit(a, ss[0], stamp))
    {
    }

    method EmitOne(entity: Entity, value: Option<Scalar>, edgeType: string,
                   description: string) returns (err: Option<Error>)
      requires Valid()
      modifies this, graph, graph.Facts()
      ensures Valid() && fresh(graph.Facts() - old(graph.Facts()))
      ensures var sc := ScanOne(Leaf(entity, value, edgeType, description));
              Reached(old(View()), old(warnings), sc) && err == sc.error
    {
      hide EmitAll, Lands;
      EmitFew(View(), entity, value, edgeType, description);
      err := None;
      var r := graph.UpsertFact(entity, value, stamp);
      match r
      case Skipped =>
      case NormalizerFailed(name) => return Some(NormalizerRaised(name));
      case Dropped(w) =>
        warnings := warnings + [w];
      case Linked(id) => Attach(id, false, edgeType, description);
      case Created(id) => Attach(id, true, edgeType, description);
    }

    /** The edge of one sighting, and the entry of its fact in the delta. */
    method Attach(id: FactId, wasNew: bool, edgeType: string, description: string)
      requires Valid() && id in graph.nodes && graph.nodes[id].FactRef?
      modifies this, graph
      ensures Valid() && graph.Facts() == old(graph.Facts()) && warnings == old(warnings)
      ensures var e, r := FactEdge(stamp.event, id, edgeType, description), RecordOf(old(graph.nodes)[id].fact);
              View() == Acc(AddEdge(old(graph.View()), e),
                            if wasNew then old(View()).created + [r] else old(View()).created,
                            if !wasNew && id !in old(seenLinked) then old(View()).linked + [r] else old(View()).linked,
                            if wasNew then old(seenLinked) else old(seenLinked) + {id},
                            old(newEdges) + [e])
    {
      var e := FactEdge(stamp.event, id, edgeType, description);
      graph.AddEdge(e);
      newEdges := newEdges + [e];
      var node := graph.nodes[id].fact;
      if wasNew {
        assert Records(newFacts + [node]) == Records(newFacts) + [RecordOf(node)];
        newFacts := newFacts + [node];
      } else if id !in seenLinked {
        assert Records(linkedFacts + [node]) == Records(linkedFacts) + [RecordOf(node)];
        seenLinked := seenLinked + {id};
        linkedFacts := linkedFacts + [node];
      } else {
        assert seenLinked + {id} == seenLinked;
      }
    }

    /** The walk over one model. It leaves exactly what folding its flat reading leaves, and fails
        exactly when that does, with whatever came before the failure already in the graph. In terms
        of the tree itself that is `Extracts`, with a warning for each value whose text is empty. */
    method Walk(m: Model) returns (err: Option<Error>)
      requires Valid()
      modifies this, graph, graph.Facts()
      ensures Valid() && fresh(graph.Facts() - old(graph.Facts()))
      ensures Extracts(m, stamp.event, old(View()), View(), err)
      ensures err.None? ==> exists at, ws :: WarningsAt(m, at, ws) && warnings == old(warnings) + ws
      ensures Reached(old(View()), old(warnings), ScanModel(m)) && err == ScanModel(m).error
      decreases m
    {
      hide ScanItems, FlattenFields, FlattenField, EmitAll, Extracts, WarningsAt;
      ScanExtracts(m, stamp, View());
      ghost var a, w, done := View(), warnings, EMPTY_SCAN;
      ReachedNothing();
      NoFieldScanned(m.fields);
      for i := 0 to |m.fields|
        invariant Valid() && fresh(graph.Facts() - old(graph.Facts()))
        invariant done == ScanFields(m.fields[..i]) && done.error.None? && Reached(a, w, done)
      {
        ghost var a', w' := View(), warnings;
        err := WalkField(m.fields[i]);
        ScanFieldsStep(m.fields, i);
        Extend(a, w, done, a', w', ScanItems(FlattenField(m.fields[i])));
        done := Join(done, ScanItems(FlattenField(m.fields[i])));
        if err.Some? {
          FieldsPrefix(m.fields, i + 1);
          return;
        }
      }
      assert m.fields[..|m.fields|] == m.fields;
      err := None;
    }

    method WalkField(f: Field) returns (err: Option<Error>)
      requires Valid()
      modifies this, graph, graph.Facts()
      ensures Valid() && fresh(graph.Facts() - old(graph.Facts()))
      ensures Reached(old(View()), old(warnings), ScanItems(FlattenField(f))) && err == ScanItems(FlattenField(f)).error
      decreases f
    {
      if f.entity.Some? && !f.value.NoneVal? && !f.value.ListVal? {
        ScanSingle(FlattenField(f)[0]);
      }
      match f.value {
        case NoneVal => err := None;
        case ListVal(items) =>
          if f.entity.Some? {
            err := WalkMarked(f, items);
          } else {
            err := WalkPlain(f, items);
          }
        case ModelVal(m, self) =>
          if f.entity.Some? {
            err := EmitOne(f.entity.value, Some(self), f.EdgeType(), f.description);
          } else {
            err := Walk(m);
          }
        case ScalarVal(s) =>
          if f.entity.Some? {
            err := EmitOne(f.entity.value, Some(s), f.EdgeType(), f.description);
          } else {
            err := None;
          }
        case DictVal => err := Refuse(f);
        case TupleVal => err := Refuse(f);
      }
    }

    method Refuse(f: Field) returns (err: Option<Error>)
      ensures f.entity.Some? ==> err == ScanOne(Reject(f.EdgeType())).error
      ensures f.entity.None? ==> err == None
    {
      err := if f.entity.Some? then Some(UnsupportedShape(f.EdgeType())) else None;
    }

    method WalkMarked(f: Field, items: seq<Value>) returns (err: Option<Error>)
      requires Valid() && f.entity.Some?
      modifies this, graph, graph.Facts()
      ensures Valid() && fresh(graph.Facts() - old(graph.Facts()))
      ensures Reached(old(View()), old(warnings), ScanItems(MarkedElements(f, items)))
      ensures err == ScanItems(MarkedElements(f, items)).error
    {
      hide ScanItems, MarkedElements, MarkedElement, ScanOne, EmitAll;
      ghost var a, w, done := View(), warnings, EMPTY_SCAN;
      ReachedNothing();
      NothingScanned(f, items);
      for i := 0 to |items|
        invariant Valid() && fresh(graph.Facts() - old(graph.Facts()))
        invariant done == ScanItems(MarkedElements(f, items[..i])) && done.error.None? && Reached(a, w, done)
      {
        ghost var a', w' := View(), warnings;
        err := WalkMarkedElement(f, items[i]);
        ScanMarkedStep(f, items, i);
        Extend(a, w, done, a', w', ScanOne(MarkedElement(f, items[i])));
        done := Join(done, ScanOne(MarkedElement(f, items[i])));
        if err.Some? {
          MarkedPrefix(f, items, i + 1);
          return;
        }
      }
      assert items[..|items|] == items;
      err := None;
    }

    lemma ReachedNothing()
      ensures Reached(View(), warnings, EMPTY_SCAN)
    {
    }

    method WalkMarkedElement(f: Field, v: Value) returns (err: Option<Error>)
      requires Valid() && f.entity.Some?
      modifies this, graph, graph.Facts()
      ensures Valid() && fresh(graph.Facts() - old(graph.Facts()))
      ensures Reached(old(View()), old(warnings), ScanOne(MarkedElement(f, v)))
      ensures err == ScanOne(MarkedElement(f, v)).error
    {
      match v {
        case NoneVal => err := EmitOne(f.entity.value, None, f.EdgeType(), f.description);
        case ScalarVal(s) => err := EmitOne(f.entity.value, Some(s), f.EdgeType(), f.description);
        case _ => err := Refuse(f);
      }
    }

    method WalkPlain(f: Field, items: seq<Value>) returns (err: Option<Error>)
      requires Valid()
      modifies this, graph, graph.Facts()
      ensures Valid() && fresh(graph.Facts() - old(graph.Facts()))
      ensures Reached(old(View()), old(warnings), ScanItems(PlainElements(f, items)))
      ensures err == ScanItems(PlainElements(f, items)).error
      decreases items
    {
      hide ScanItems, PlainElements, PlainElement, EmitAll;
      ghost var a, w, done := View(), warnings, EMPTY_SCAN;
      ReachedNothing();
      NothingScanned(f, items);
      for i := 0 to |items|
        invariant Valid() && fresh(graph.Facts() - old(graph.Facts()))
        invariant done == ScanItems(PlainElements(f, items[..i])) && done.error.None? && Reached(a, w, done)
      {
        ghost var a', w' := View(), warnings;
        err := WalkPlainElement(f, items[i]);
        ScanPlainStep(f, items, i);
        Extend(a, w, done, a', w', ScanItems(PlainElement(f, items[i])));
        done := Join(done, ScanItems(PlainElement(f, items[i])));
        if err.Some? {
          PlainPrefix(f, items, i + 1);
          return;
        }
      }
      assert items[..|items|] == items;
      err := None;
    }

    method WalkPlainElement(f: Field, v: Value) returns (err: Option<Error>)
      requires Valid()
      modifies this, graph, graph.Facts()
      ensures Valid() && fresh(graph.Facts() - old(graph.Facts()))
      ensures Reached(old(View()), old(warnings), ScanItems(PlainElement(f, v)))
      ensures err == ScanItems(PlainElement(f, v)).error
      decreases v
    {
      match v {
        case ModelVal(m, _) => err := Walk(m);
        case NoneVal => err := None;
        case ScalarVal(_) => err := None;
        case _ =>
          ScanSingle(Reject(f.EdgeType()));
          err := Some(UnsupportedShape(f.EdgeType()));
      }
    }
  }

  // ----- Reading one more field or element; a failure hides whatever comes after it -----------

  lemma NothingScanned(f: Field, items: seq<Value>)
    ensures f.entity.Some? ==> ScanItems(MarkedElements(f, items[..0])) == EMPTY_SCAN
    ensures ScanItems(PlainElements(f, items[..0])) == EMPTY_SCAN
  {
  }

  lemma NoFieldScanned(fs: seq<Field>)
    ensures ScanFields(fs[..0]) == EMPTY_SCAN
  {
  }

  lemma ScanSingle(item: Found)
    ensures ScanItems([item]) == ScanOne(item)
  {
  }

  lemma ScanFieldsStep(fs: seq<Field>, i: nat)
    requires i < |fs|
    ensures ScanFields(fs[..i + 1]) == Join(ScanFields(fs[..i]), ScanItems(FlattenField(fs[i])))
  {
    assert fs[..i + 1][..i] == fs[..i];
    ScanConcat(FlattenFields(fs[..i]), FlattenField(fs[i]));
  }

  lemma ScanMarkedStep(f: Field, items: seq<Value>, i: nat)
    requires f.entity.Some? && i < |items|
    ensures ScanItems(MarkedElements(f, items[..i + 1]))
         == Join(ScanItems(MarkedElements(f, items[..i])), ScanOne(MarkedElement(f, items[i])))
  {
    assert items[..i + 1][..i] == items[..i];
    ScanConcat(MarkedElements(f, items[..i]), [MarkedElement(f, items[i])]);
    ScanSingle(MarkedElement(f, items[i]));
  }

  lemma ScanPlainStep(f: Field, items: seq<Value>, i: nat)
    requires i < |items|
    ensures ScanItems(PlainElements(f, items[..i + 1]))
         == Join(ScanItems(PlainElements(f, items[..i])), ScanItems(PlainElement(f, items[i])))
  {
    assert items[..i + 1][..i] == items[..i];
    ScanConcat(PlainElements(f, items[..i]), PlainElement(f, items[i]));
  }

  lemma {:induction false} FieldsPrefix(fs: seq<Field>, n: nat)
    requires n <= |fs| && ScanFields(fs[..n]).error.Some?
    ensures ScanFields(fs) == ScanFields(fs[..n])
    decreases |fs| - n
  {
    if n == |fs| {
      assert fs[..n] == fs;
    } else {
      ScanFieldsStep(fs, n);
      FieldsPrefix(fs, n + 1);
    }
  }

  lemma {:induction false} MarkedPrefix(f: Field, items: seq<Value>, n: nat)
    requires f.entity.Some? && n <= |items| && ScanItems(MarkedElements(f, items[..n])).error.Some?
    ensures ScanItems(MarkedElements(f, items)) == ScanItems(MarkedElements(f, items[..n]))
    decreases |items| - n
  {
    if n == |items| {
      assert items[..n] == items;
    } else {
      ScanMarkedStep(f, items, n);
      MarkedPrefix(f, items, n + 1);
    }
  }

  lemma {:induction false} PlainPrefix(f: Field, items: seq<Value>, n: nat)
    requires n <= |items| && ScanItems(PlainElements(f, items[..n])).error.Some?
    ensures ScanItems(PlainElements(f, items)) == ScanItems(PlainElements(f, items[..n]))
    decreases |items| - n
  {
    if n == |items| {
      assert items[..n] == items;
    } else {
      ScanPlainStep(f, items, n);
      PlainPrefix(f, items, n + 1);
    }
  }
}
