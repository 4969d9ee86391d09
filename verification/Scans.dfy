/** What a scan of a model tree comes to before any graph is looked at. */
module Scans {
  import opened Core
  import opened FactGraphs
  import opened Trees
  import opened Flattening

  datatype Error = UnsupportedShape(edgeType: string) | NormalizerRaised(entityName: string)

  // ----- What the leaves come to, before any graph is looked at --------------------------------

  /** One occurrence of a fact: its key, the text shown, and the label of the edge it gets. */
  datatype Sighting = Sighting(key: Key, value: string, edgeType: string, description: string)

  /** The outcome of reading a run of items up to the first failure. */
  datatype Scan = Scan(sightings: seq<Sighting>, warnings: seq<Warning>, absent: nat, error: Option<Error>)

  const EMPTY_SCAN := Scan([], [], 0, None)

  function ScanOne(item: Found): Scan {
    match item
    case Reject(t) => Scan([], [], 0, Some(UnsupportedShape(t)))
    case Leaf(entity, value, edgeType, description) =>
      match Resolve(entity, value)
      case NoValue => Scan([], [], 1, None)
      case Failing => Scan([], [], 0, Some(NormalizerRaised(entity.name)))
      case EmptyText => Scan([], [EmptyCanonical(entity.name, value.value)], 0, None)
      case Resolved(c) =>
        Scan([Sighting(Key(entity.name, c), value.value.text, edgeType, description)], [], 0, None)
  }

  function Join(x: Scan, y: Scan): Scan {
    if x.error.Some? then x
    else Scan(x.sightings + y.sightings, x.warnings + y.warnings, x.absent + y.absent, y.error)
  }

  function ScanItems(items: seq<Found>): Scan {
    if items == [] then EMPTY_SCAN else Join(ScanItems(items[..|items| - 1]), ScanOne(items[|items| - 1]))
  }

  function ScanFields(fs: seq<Field>): Scan {
    ScanItems(FlattenFields(fs))
  }

  function ScanModel(m: Model): Scan {
    ScanFields(m.fields)
  }

  lemma {:induction false} ScanConcat(a: seq<Found>, b: seq<Found>)
    ensures ScanItems(a + b) == Join(ScanItems(a), ScanItems(b))
  {
    if b == [] {
      assert a + b == a;
    } else {
      var b', last := b[..|b| - 1], b[|b| - 1];
      assert (a + b)[..|a + b| - 1] == a + b';
      ScanConcat(a, b');
      JoinAssociates(ScanItems(a), ScanItems(b'), ScanOne(last));
    }
  }

  lemma JoinAssociates(x: Scan, y: Scan, z: Scan)
    ensures Join(Join(x, y), z) == Join(x, Join(y, z))
  {
  }

  // ----- What a scan of a model finds, spot by spot ----------------------------------------------

  /** The leaf is an occurrence of a fact: it has a canonical text, which is not empty. */
  ghost predicate SightedAs(x: Found, s: Sighting) {
    && x.Leaf? && x.value.Some? && s.key.nodeType == x.entity.name && s.key.canonical != ""
    && NormalizesTo(x.entity, x.value.value, s.key.canonical)
    && s.value == x.value.value.text && s.edgeType == x.edgeType && s.description == x.description
  }

  /** The leaf is dropped with a warning: its canonical text is empty. */
  ghost predicate DroppedAs(x: Found, w: Warning) {
    && x.Leaf? && x.value.Some? && NormalizesTo(x.entity, x.value.value, "")
    && w == EmptyCanonical(x.entity.name, x.value.value)
  }

  /** The extraction ends here: a shape it refuses, or a value on which the normalizer raises. */
  ghost predicate RefusedAs(x: Found, e: Error) {
    match x
    case Reject(edgeType) => e == UnsupportedShape(edgeType)
    case Leaf(entity, v, _, _) => v.Some? && Raises(entity, v.value) && e == NormalizerRaised(entity.name)
  }

  ghost predicate SightedAt(m: Model, spot: Spot, s: Sighting) {
    exists x :: Sits(m, spot, x) && SightedAs(x, s)
  }

  ghost predicate DroppedAt(m: Model, spot: Spot, w: Warning) {
    exists x :: Sits(m, spot, x) && DroppedAs(x, w)
  }

  ghost predicate RefusedAt(m: Model, spot: Spot, e: Error) {
    exists x :: Sits(m, spot, x) && RefusedAs(x, e)
  }

  ghost predicate Acceptable(m: Model) {
    forall spot, e :: !RefusedAt(m, spot, e)
  }

  /** The error is that of the first spot at which the extraction ends. */
  ghost predicate FailsFirst(m: Model, e: Error) {
    exists spot :: RefusedAt(m, spot, e) && forall spot', e' | RefusedAt(m, spot', e') :: !Before(spot', spot)
  }

  /** All occurrences of facts in the model, each once and in order. */
  ghost predicate SightingsAt(m: Model, at: seq<Spot>, ss: seq<Sighting>) {
    && |at| == |ss| && InOrder(at)
    && forall spot, s :: SightedAt(m, spot, s) <==> IsAt(at, ss, spot, s)
  }

  ghost predicate WarningsAt(m: Model, at: seq<Spot>, ws: seq<Warning>) {
    && |at| == |ws| && InOrder(at)
    && forall spot, w :: DroppedAt(m, spot, w) <==> IsAt(at, ws, spot, w)
  }

  function SightingOf(x: Found): Option<Sighting> {
    if x.Leaf? && Resolve(x.entity, x.value).Resolved? then
      Some(Sighting(Key(x.entity.name, Resolve(x.entity, x.value).canonical), x.value.value.text, x.edgeType,
                    x.description))
    else None
  }

  function WarningOf(x: Found): Option<Warning> {
    if x.Leaf? && Resolve(x.entity, x.value).EmptyText? then Some(EmptyCanonical(x.entity.name, x.value.value))
    else None
  }

  lemma FoundIs(x: Found)
    ensures forall s :: SightingOf(x) == Some(s) <==> SightedAs(x, s)
    ensures forall w :: WarningOf(x) == Some(w) <==> DroppedAs(x, w)
    ensures forall e :: ScanOne(x).error == Some(e) <==> RefusedAs(x, e)
  {
    if x.Leaf? {
      ResolveIs(x.entity, x.value);
    }
  }

  function Chosen<T>(xs: seq<Found>, f: Found -> Option<T>): seq<T> {
    if xs == [] then []
    else
      var t := f(xs[|xs| - 1]);
      Chosen(xs[..|xs| - 1], f) + if t.Some? then [t.value] else []
  }

  lemma {:induction false} ScanChooses(xs: seq<Found>)
    requires ScanItems(xs).error.None?
    ensures ScanItems(xs).sightings == Chosen(xs, SightingOf) && ScanItems(xs).warnings == Chosen(xs, WarningOf)
    ensures forall k, e | 0 <= k < |xs| :: !RefusedAs(xs[k], e)
  {
    if xs != [] {
      var init, x := xs[..|xs| - 1], xs[|xs| - 1];
      ScanChooses(init);
      FoundIs(x);
      assert forall k | 0 <= k < |init| :: xs[k] == init[k];
    }
  }

  lemma {:induction false} ScanFailsFirst(xs: seq<Found>, e: Error) returns (k: nat)
    requires ScanItems(xs).error == Some(e)
    ensures k < |xs| && RefusedAs(xs[k], e) && forall j, e' | 0 <= j < k :: !RefusedAs(xs[j], e')
  {
    var init, x := xs[..|xs| - 1], xs[|xs| - 1];
    if ScanItems(init).error.Some? {
      k := ScanFailsFirst(init, e);
    } else {
      ScanChooses(init);
      FoundIs(x);
      k := |init|;
    }
  }

  lemma IsAtSnoc<T>(at: seq<Spot>, xs: seq<T>, a: Spot, x: T, spot: Spot, y: T)
    requires |at| == |xs|
    ensures IsAt(at + [a], xs + [x], spot, y) <==> IsAt(at, xs, spot, y) || (spot == a && y == x)
  {
    IsAtConcat(at, xs, [a], [x], spot, y);
    assert [a][0] == a && [x][0] == x;
  }

  lemma {:induction false} ChosenSpots<T>(at: seq<Spot>, xs: seq<Found>, f: Found -> Option<T>) returns (at': seq<Spot>)
    requires |at| == |xs| && InOrder(at)
    ensures |at'| == |Chosen(xs, f)| && InOrder(at') && forall s | s in at' :: s in at
    ensures forall spot, t ::
              IsAt(at', Chosen(xs, f), spot, t) <==> exists x :: IsAt(at, xs, spot, x) && f(x) == Some(t)
    decreases |xs|
  {
    hide IsAt;
    if xs == [] {
      at' := [];
      assert forall spot, t: T :: !IsAt([], [], spot, t) by {
        NothingAt<T>();
      }
      assert forall spot, x: Found :: !IsAt([], [], spot, x) by {
        NothingAt<Found>();
      }
    } else {
      var n := |xs| - 1;
      var init, x := xs[..n], xs[n];
      assert xs == init + [x] && at == at[..n] + [at[n]];
      var before := ChosenSpots(at[..n], init, f);
      at' := if f(x).Some? then before + [at[n]] else before;
      assert Chosen(init, f) + [] == Chosen(init, f);
      forall s | s in before ensures Before(s, at[n]) {
        var i :| 0 <= i < n && at[i] == s;
      }
      forall spot, t
        ensures IsAt(at', Chosen(xs, f), spot, t) <==> exists y :: IsAt(at, xs, spot, y) && f(y) == Some(t)
      {
        forall y ensures IsAt(at, xs, spot, y) <==> IsAt(at[..n], init, spot, y) || (spot == at[n] && y == x) {
          IsAtSnoc(at[..n], init, at[n], x, spot, y);
        }
        if f(x).Some? {
          IsAtSnoc(before, Chosen(init, f), at[n], f(x).value, spot, t);
        }
        if IsAt(before, Chosen(init, f), spot, t) {
          var y :| IsAt(at[..n], init, spot, y) && f(y) == Some(t);
          assert IsAt(at, xs, spot, y);
        } else if f(x) == Some(t) && spot == at[n] {
          assert IsAt(at, xs, spot, x);
        }
      }
    }
  }

  lemma NothingAt<T>()
    ensures forall spot, x: T :: !IsAt([], [], spot, x)
  {
  }

  /** A scan of a model fails exactly when the extraction has to end at some spot, with the error of
      the first such spot; otherwise it finds all occurrences of facts and all dropped values. */
  lemma ScanModelFinds(m: Model) returns (at: seq<Spot>, warnedAt: seq<Spot>)
    ensures ScanModel(m).error.None? <==> Acceptable(m)
    ensures ScanModel(m).error.Some? ==> FailsFirst(m, ScanModel(m).error.value)
    ensures ScanModel(m).error.None? ==>
              SightingsAt(m, at, ScanModel(m).sightings) && WarningsAt(m, warnedAt, ScanModel(m).warnings)
  {
    hide ScanItems, FlattenFields, Reads;
    var xs := Flatten(m);
    var spots := FlattenReads(m);
    at, warnedAt := [], [];
    if ScanItems(xs).error.None? {
      at, warnedAt := ScanFinds(m, spots, xs);
    } else {
      ScanEnds(m, spots, xs, ScanItems(xs).error.value);
    }
  }

  lemma ScanEnds(m: Model, spots: seq<Spot>, xs: seq<Found>, e: Error)
    requires Reads(m, spots, xs) && ScanItems(xs).error == Some(e)
    ensures FailsFirst(m, e) && !Acceptable(m)
  {
    hide Sits, RefusedAs;
    var k := ScanFailsFirst(xs, e);
    assert IsAt(spots, xs, spots[k], xs[k]);
    assert RefusedAt(m, spots[k], e);
    forall spot, e' | RefusedAt(m, spot, e') ensures !Before(spot, spots[k]) {
      var x :| Sits(m, spot, x) && RefusedAs(x, e');
      var j :| 0 <= j < |spots| && spots[j] == spot && xs[j] == x;
      assert j >= k;
      BeforeOneWay(spots[k], spots[j]);
      BeforeOneWay(spots[k], spots[k]);
    }
  }

  lemma ScanFinds(m: Model, spots: seq<Spot>, xs: seq<Found>) returns (at: seq<Spot>, warnedAt: seq<Spot>)
    requires Reads(m, spots, xs) && ScanItems(xs).error.None?
    ensures Acceptable(m) && SightingsAt(m, at, ScanItems(xs).sightings)
    ensures WarningsAt(m, warnedAt, ScanItems(xs).warnings)
  {
    hide Sits, SightedAs, DroppedAs, RefusedAs, SightingOf, WarningOf, InOrder;
    ScanChooses(xs);
    at := ChosenSpots(spots, xs, SightingOf);
    warnedAt := ChosenSpots(spots, xs, WarningOf);
    forall x ensures forall s :: SightingOf(x) == Some(s) <==> SightedAs(x, s)
      ensures forall w :: WarningOf(x) == Some(w) <==> DroppedAs(x, w)
    {
      FoundIs(x);
    }
  }
}
