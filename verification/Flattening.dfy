/** The flat reading of a model tree, and that it reads all that sits in the tree. */
module Flattening {
  import opened Core
  import opened Trees

  function Flatten(m: Model): seq<Found> {
    FlattenFields(m.fields)
  }

  function FlattenFields(fs: seq<Field>): seq<Found> {
    if fs == [] then [] else FlattenFields(fs[..|fs| - 1]) + FlattenField(fs[|fs| - 1])
  }

  function FlattenField(f: Field): seq<Found> {
    match f.value
    case NoneVal => []
    case ListVal(items) => if f.entity.Some? then MarkedElements(f, items) else PlainElements(f, items)
    case ModelVal(m, self) => if f.entity.Some? then [LeafOf(f, Some(self))] else Flatten(m)
    case ScalarVal(s) => if f.entity.Some? then [LeafOf(f, Some(s))] else []
    case DictVal => if f.entity.Some? then [Reject(f.EdgeType())] else []
    case TupleVal => if f.entity.Some? then [Reject(f.EdgeType())] else []
  }

  function LeafOf(f: Field, value: Option<Scalar>): Found
    requires f.entity.Some?
  {
    Leaf(f.entity.value, value, f.EdgeType(), f.description)
  }

  /** The elements of a marked list: None and scalars are leaves, containers are refused. */
  function MarkedElements(f: Field, items: seq<Value>): seq<Found>
    requires f.entity.Some?
  {
    if items == [] then []
    else MarkedElements(f, items[..|items| - 1]) + [MarkedElement(f, items[|items| - 1])]
  }

  function MarkedElement(f: Field, v: Value): Found
    requires f.entity.Some?
  {
    match v
    case NoneVal => LeafOf(f, None)
    case ScalarVal(s) => LeafOf(f, Some(s))
    case _ => Reject(f.EdgeType())
  }

  /** The elements of an unmarked list: models are entered, containers refused, the rest ignored. */
  function PlainElements(f: Field, items: seq<Value>): seq<Found>
    decreases items
  {
    if items == [] then []
    else PlainElements(f, items[..|items| - 1]) + PlainElement(f, items[|items| - 1])
  }

  function PlainElement(f: Field, v: Value): seq<Found>
    decreases v
  {
    match v
    case ModelVal(m, _) => Flatten(m)
    case ListVal(_) => [Reject(f.EdgeType())]
    case DictVal => [Reject(f.EdgeType())]
    case TupleVal => [Reject(f.EdgeType())]
    case _ => []
  }

  // ----- Readings of part of a model -------------------------------------------------------------

  /** `xs` is all that sits in `m` at spots that start with one of the hops `hs`. */
  ghost predicate ReadsOver(m: Model, hs: iset<Hop>, at: seq<Spot>, xs: seq<Found>) {
    && |at| == |xs| && InOrder(at)
    && forall spot, x :: spot != [] && spot[0] in hs && Sits(m, spot, x) <==> IsAt(at, xs, spot, x)
  }

  /** Nothing sits at the hop or beyond. */
  ghost predicate Inert(m: Model, h: Hop) {
    Entered(m, h).None? && forall x :: !SitsHere(m, h, x)
  }

  lemma InertMeans(m: Model, h: Hop, spot: Spot, x: Found)
    requires Inert(m, h) && spot != [] && spot[0] == h
    ensures !Sits(m, spot, x)
  {
  }

  lemma IsAtConcat<T>(at: seq<Spot>, xs: seq<T>, at': seq<Spot>, xs': seq<T>, spot: Spot, x: T)
    requires |at| == |xs| && |at'| == |xs'|
    ensures IsAt(at + at', xs + xs', spot, x) <==> IsAt(at, xs, spot, x) || IsAt(at', xs', spot, x)
  {
    if IsAt(at, xs, spot, x) {
      var k :| 0 <= k < |at| && at[k] == spot && xs[k] == x;
      assert (at + at')[k] == spot && (xs + xs')[k] == x;
    }
    if IsAt(at', xs', spot, x) {
      var k :| 0 <= k < |at'| && at'[k] == spot && xs'[k] == x;
      assert (at + at')[|at| + k] == spot && (xs + xs')[|at| + k] == x;
    }
  }

  /** Readings of earlier hops, then of later ones. */
  lemma ReadsBoth(m: Model, hs: iset<Hop>, at: seq<Spot>, xs: seq<Found>,
                  hs': iset<Hop>, at': seq<Spot>, xs': seq<Found>)
    requires ReadsOver(m, hs, at, xs) && ReadsOver(m, hs', at', xs')
    requires forall a, b | a in hs && b in hs' :: HopBefore(a, b)
    ensures ReadsOver(m, hs + hs', at + at', xs + xs')
  {
    hide Sits;
    forall i, j | 0 <= i < |at| && 0 <= j < |at'| ensures Before(at[i], at'[j]) {
      assert IsAt(at, xs, at[i], xs[i]) && IsAt(at', xs', at'[j], xs'[j]);
    }
    forall spot, x
      ensures spot != [] && spot[0] in hs + hs' && Sits(m, spot, x) <==> IsAt(at + at', xs + xs', spot, x)
    {
      IsAtConcat(at, xs, at', xs', spot, x);
    }
  }

  /** Hops at which nothing sits may be left out. */
  lemma ReadsWidely(m: Model, hs: iset<Hop>, wide: iset<Hop>, at: seq<Spot>, xs: seq<Found>)
    requires ReadsOver(m, hs, at, xs) && hs <= wide && forall h | h in wide && h !in hs :: Inert(m, h)
    ensures ReadsOver(m, wide, at, xs)
  {
    hide Sits;
    forall spot, x | spot != [] && spot[0] in wide && Sits(m, spot, x) ensures spot[0] in hs {
      if spot[0] !in hs {
        InertMeans(m, spot[0], spot, x);
      }
    }
  }

  lemma ReadsNothing(m: Model, hs: iset<Hop>)
    requires forall h | h in hs :: Inert(m, h)
    ensures ReadsOver(m, hs, [], [])
  {
    hide Sits;
    forall spot, x ensures spot != [] && spot[0] in hs ==> !Sits(m, spot, x) {
      if spot != [] && spot[0] in hs {
        InertMeans(m, spot[0], spot, x);
      }
    }
  }

  lemma ReadsOne(m: Model, h: Hop, x: Found)
    requires SitsHere(m, h, x)
    ensures ReadsOver(m, iset{h}, [[h]], [x])
  {
    forall spot, y ensures spot != [] && spot[0] in iset{h} && Sits(m, spot, y) <==> IsAt([[h]], [x], spot, y) {
      if spot != [] && spot[0] == h && Sits(m, spot, y) {
        assert Entered(m, h).None? && spot == [h];
        SitsOnce(m, [h], x, y);
        assert [[h]][0] == spot;
      }
      if IsAt([[h]], [x], spot, y) {
        assert spot == [h] && y == x;
      }
    }
  }

  function Prefixed(h: Hop, at: seq<Spot>): seq<Spot> {
    seq(|at|, i requires 0 <= i < |at| => [h] + at[i])
  }

  lemma ReadsInside(m: Model, h: Hop, at: seq<Spot>, xs: seq<Found>)
    requires Entered(m, h).Some? && Reads(Entered(m, h).value, at, xs)
    ensures ReadsOver(m, iset{h}, Prefixed(h, at), xs)
  {
    var n, at' := Entered(m, h).value, Prefixed(h, at);
    forall i, j | 0 <= i < j < |at| ensures Before(at'[i], at'[j]) {
      assert at'[i][1..] == at[i] && at'[j][1..] == at[j];
    }
    forall spot, x ensures spot != [] && spot[0] in iset{h} && Sits(m, spot, x) <==> IsAt(at', xs, spot, x) {
      if spot != [] && spot[0] == h && Sits(m, spot, x) {
        assert forall y :: !SitsHere(m, h, y);
        assert Sits(n, spot[1..], x);
        var k :| 0 <= k < |at| && at[k] == spot[1..] && xs[k] == x;
        assert at'[k] == spot;
      }
      if IsAt(at', xs, spot, x) {
        var k :| 0 <= k < |at'| && at'[k] == spot && xs[k] == x;
        assert IsAt(at, xs, at[k], x);
        assert spot[0] == h && spot[1..] == at[k];
      }
    }
  }

  // ----- The flat reading ------------------------------------------------------------------------

  ghost function FieldsBelow(n: nat): iset<Hop> {
    iset h: Hop | h.field < n
  }

  ghost function InField(i: nat): iset<Hop> {
    iset h: Hop | h.field == i
  }

  ghost function ElementsBelow(i: nat, n: nat): iset<Hop> {
    iset h: Hop | h.field == i && h.element.Some? && h.element.value < n
  }

  /** The flat reading of a model is all that sits in it, at any depth, each once and in order. */
  lemma {:induction false} FlattenReads(m: Model) returns (at: seq<Spot>)
    ensures Reads(m, at, Flatten(m))
    decreases m, |m.fields| + 1
  {
    at := FieldsRead(m, |m.fields|);
    hide FlattenFields;
    assert m.fields[..|m.fields|] == m.fields;
    forall spot, x | Sits(m, spot, x) ensures spot != [] && spot[0] in FieldsBelow(|m.fields|) {
    }
  }

  lemma {:induction false} FieldsRead(m: Model, n: nat) returns (at: seq<Spot>)
    requires n <= |m.fields|
    ensures ReadsOver(m, FieldsBelow(n), at, FlattenFields(m.fields[..n]))
    decreases m, n
  {
    hide ReadsOver, FlattenField;
    if n == 0 {
      at := [];
      ReadsNothing(m, FieldsBelow(0));
    } else {
      var before := FieldsRead(m, n - 1);
      var last := FieldRead(m, n - 1);
      at := before + last;
      assert m.fields[..n][..n - 1] == m.fields[..n - 1];
      ReadsBoth(m, FieldsBelow(n - 1), before, FlattenFields(m.fields[..n - 1]),
          InField(n - 1), last, FlattenField(m.fields[n - 1]));
      assert FieldsBelow(n - 1) + InField(n - 1) == FieldsBelow(n);
    }
  }

  lemma {:induction false} FieldRead(m: Model, i: nat) returns (at: seq<Spot>)
    requires i < |m.fields|
    ensures ReadsOver(m, InField(i), at, FlattenField(m.fields[i]))
    decreases m, 0, 1
  {
    hide ReadsOver, MarkedElements, PlainElements, Reads;
    var f, h := m.fields[i], Hop(i, None);
    match f.value {
      case ListVal(items) =>
        at := ElementsRead(m, i, items, |items|);
        assert items[..|items|] == items;
        ReadsWidely(m, ElementsBelow(i, |items|), InField(i), at, FlattenField(f));
      case ModelVal(n, self) =>
        if f.entity.Some? {
          at := [[h]];
          ReadsOne(m, h, LeafOf(f, Some(self)));
        } else {
          var inner := FlattenReads(n);
          at := Prefixed(h, inner);
          ReadsInside(m, h, inner, Flatten(n));
        }
        ReadsWidely(m, iset{h}, InField(i), at, FlattenField(f));
      case NoneVal =>
        at := [];
        ReadsNothing(m, InField(i));
      case _ =>
        if f.entity.Some? {
          at := [[h]];
          ReadsOne(m, h, FlattenField(f)[0]);
          ReadsWidely(m, iset{h}, InField(i), at, FlattenField(f));
        } else {
          at := [];
          ReadsNothing(m, InField(i));
        }
    }
  }

  function ElementsOf(f: Field, items: seq<Value>): seq<Found> {
    if f.entity.Some? then MarkedElements(f, items) else PlainElements(f, items)
  }

  lemma {:induction false} ElementsRead(m: Model, i: nat, items: seq<Value>, n: nat) returns (at: seq<Spot>)
    requires i < |m.fields| && m.fields[i].value == ListVal(items) && n <= |items|
    ensures ReadsOver(m, ElementsBelow(i, n), at, ElementsOf(m.fields[i], items[..n]))
    decreases m, 0, 0, n
  {
    hide ReadsOver, Reads;
    var f := m.fields[i];
    if n == 0 {
      at := [];
      ReadsNothing(m, ElementsBelow(i, 0));
    } else {
      var h, v := Hop(i, Some(n - 1)), items[n - 1];
      var before := ElementsRead(m, i, items, n - 1);
      var last: seq<Spot>, xs: seq<Found> := [], [];
      if f.entity.Some? {
        last, xs := [[h]], [MarkedElement(f, v)];
        ReadsOne(m, h, MarkedElement(f, v));
      } else if v.ModelVal? {
        var inner := FlattenReads(v.model);
        last, xs := Prefixed(h, inner), Flatten(v.model);
        ReadsInside(m, h, inner, xs);
      } else if v.NoneVal? || v.ScalarVal? {
        ReadsNothing(m, iset{h});
      } else {
        last, xs := [[h]], [Reject(f.EdgeType())];
        ReadsOne(m, h, Reject(f.EdgeType()));
      }
      at := before + last;
      assert items[..n][..n - 1] == items[..n - 1] && items[..n][n - 1] == v;
      assert f.entity.None? ==> xs == PlainElement(f, v);
      assert ElementsOf(f, items[..n]) == ElementsOf(f, items[..n - 1]) + xs;
      ReadsBoth(m, ElementsBelow(i, n - 1), before, ElementsOf(f, items[..n - 1]), iset{h}, last, xs);
      assert ElementsBelow(i, n - 1) + iset{h} == ElementsBelow(i, n);
    }
  }
}
