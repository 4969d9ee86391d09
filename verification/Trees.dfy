/** Model trees, and what an extraction has to come across in one: which values sit at which spots. */
module Trees {
  import opened Core

  datatype Value =
    | NoneVal
    | ScalarVal(scalar: Scalar)
    | ModelVal(model: Model, self: Scalar)   // `self`: the object itself, as `str()` or a normalizer sees it
    | ListVal(items: seq<Value>)
    | DictVal
    | TupleVal

  datatype Model = Model(fields: seq<Field>)

  /** One field of an instance: its name, the class that declares it, its node marker if any. */
  datatype Field = Field(name: string, declaring: string, entity: Option<Entity>, description: string, value: Value) {
    function EdgeType(): string {
      declaring + "." + name
    }
  }

  /** What an extraction comes across: a marked leaf, or a shape it refuses. */
  datatype Found = Leaf(entity: Entity, value: Option<Scalar>, edgeType: string, description: string)
                | Reject(edgeType: string)

  // ----- Spots -----------------------------------------------------------------------------------

  /** From a model to a field's value, or to an element of the list in a field. A spot is reached by
      one hop after another; all but the last enter a model. */
  datatype Hop = Hop(field: nat, element: Option<nat>)

  type Spot = seq<Hop>

  function ValueAt(m: Model, h: Hop): Option<Value> {
    if h.field >= |m.fields| then None
    else
      var v := m.fields[h.field].value;
      match h.element
      case None => Some(v)
      case Some(j) => if v.ListVal? && j < |v.items| then Some(v.items[j]) else None
  }

  predicate IsMarked(m: Model, h: Hop) {
    h.field < |m.fields| && m.fields[h.field].entity.Some?
  }

  /** The model a hop enters: one in an unmarked field, by itself or in a list. */
  function Entered(m: Model, h: Hop): Option<Model> {
    match ValueAt(m, h)
    case Some(ModelVal(n, _)) => if IsMarked(m, h) then None else Some(n)
    case _ => None
  }

  /** A marked value: a scalar or a model by itself, a scalar or None in a list. */
  predicate HoldsLeaf(m: Model, h: Hop, v: Option<Scalar>) {
    IsMarked(m, h) &&
    match ValueAt(m, h)
    case Some(ScalarVal(s)) => v == Some(s)
    case Some(ModelVal(_, self)) => h.element.None? && v == Some(self)
    case Some(NoneVal) => h.element.Some? && v == None
    case _ => false
  }

  /** A refused shape: in a list any container but an unmarked model, elsewhere a marked dict or tuple. */
  predicate HoldsRefused(m: Model, h: Hop) {
    match ValueAt(m, h)
    case Some(ModelVal(_, _)) => h.element.Some? && IsMarked(m, h)
    case Some(ListVal(_)) => h.element.Some?
    case Some(DictVal) => h.element.Some? || IsMarked(m, h)
    case Some(TupleVal) => h.element.Some? || IsMarked(m, h)
    case _ => false
  }

  /** What sits right at the end of a hop. */
  ghost predicate SitsHere(m: Model, h: Hop, x: Found) {
    h.field < |m.fields| && var f := m.fields[h.field];
    match x
    case Leaf(entity, v, edgeType, description) =>
      && HoldsLeaf(m, h, v) && f.entity == Some(entity)
      && edgeType == f.declaring + "." + f.name && description == f.description
    case Reject(edgeType) => HoldsRefused(m, h) && edgeType == f.declaring + "." + f.name
  }

  /** What sits at a spot, at any depth. */
  ghost predicate Sits(m: Model, spot: Spot, x: Found)
    decreases |spot|
  {
    && spot != []
    && if |spot| == 1 then SitsHere(m, spot[0], x)
       else Entered(m, spot[0]).Some? && Sits(Entered(m, spot[0]).value, spot[1..], x)
  }

  // ----- Their order -----------------------------------------------------------------------------

  predicate HopBefore(a: Hop, b: Hop) {
    a.field < b.field ||
    (a.field == b.field && a.element.Some? && b.element.Some? && a.element.value < b.element.value)
  }

  /** Fields as the class lists them, elements as the list does, the outermost hop first. */
  predicate Before(a: Spot, b: Spot) {
    a != [] && b != [] && (HopBefore(a[0], b[0]) || (a[0] == b[0] && Before(a[1..], b[1..])))
  }

  predicate InOrder(at: seq<Spot>) {
    forall i, j | 0 <= i < j < |at| :: Before(at[i], at[j])
  }

  ghost predicate IsAt<T>(at: seq<Spot>, xs: seq<T>, spot: Spot, x: T) {
    exists k :: 0 <= k < |at| && k < |xs| && at[k] == spot && xs[k] == x
  }

  /** `xs` is all that sits in `m`, at the spots `at`, each once and in order. */
  ghost predicate Reads(m: Model, at: seq<Spot>, xs: seq<Found>) {
    && |at| == |xs| && InOrder(at)
    && forall spot, x :: Sits(m, spot, x) <==> IsAt(at, xs, spot, x)
  }

  // ----- There is one such reading ---------------------------------------------------------------

  lemma {:induction false} BeforeOneWay(a: Spot, b: Spot)
    ensures !(Before(a, b) && Before(b, a))
    decreases |a|
  {
    if Before(a, b) && Before(b, a) {
      BeforeOneWay(a[1..], b[1..]);
    }
  }

  lemma {:induction false} SitsOnce(m: Model, spot: Spot, x: Found, y: Found)
    requires Sits(m, spot, x) && Sits(m, spot, y)
    ensures x == y
    decreases |spot|
  {
    if |spot| > 1 {
      SitsOnce(Entered(m, spot[0]).value, spot[1..], x, y);
    }
  }

  lemma LastIsLast(a: seq<Spot>, b: seq<Spot>)
    requires InOrder(a) && InOrder(b) && a != [] && b != []
    requires forall s :: s in a <==> s in b
    ensures a[|a| - 1] == b[|b| - 1]
  {
    var x, y := a[|a| - 1], b[|b| - 1];
    assert x in a && y in b;
    var i :| 0 <= i < |a| && a[i] == y;
    var j :| 0 <= j < |b| && b[j] == x;
    if x != y {
      assert Before(y, x) && Before(x, y);
      BeforeOneWay(x, y);
    }
  }

  lemma FirstListed(a: seq<Spot>)
    requires a != []
    ensures a[0] in a
  {
  }

  lemma {:induction false} SameSpots(a: seq<Spot>, b: seq<Spot>)
    requires InOrder(a) && InOrder(b) && forall s :: s in a <==> s in b
    ensures a == b
    decreases |a|
  {
    hide InOrder;
    if a != [] {
      FirstListed(a);
    }
    if b != [] {
      FirstListed(b);
    }
    if a != [] && b != [] {
      LastIsLast(a, b);
      var x, init, init' := a[|a| - 1], a[..|a| - 1], b[..|b| - 1];
      assert a == init + [x] && b == init' + [x];
      forall s ensures s in init <==> s in init' {
        LastOnce(init, x, s);
        LastOnce(init', x, s);
      }
      InitInOrder(init, x);
      InitInOrder(init', x);
      SameSpots(init, init');
    }
  }

  lemma InitInOrder(init: seq<Spot>, x: Spot)
    requires InOrder(init + [x])
    ensures InOrder(init)
  {
    assert forall i | 0 <= i < |init| :: (init + [x])[i] == init[i];
  }

  lemma LastOnce(init: seq<Spot>, x: Spot, s: Spot)
    requires InOrder(init + [x])
    ensures s in init <==> s in init + [x] && s != x
  {
    var all := init + [x];
    if s in init {
      var i :| 0 <= i < |init| && init[i] == s;
      assert Before(all[i], all[|init|]);
      BeforeOneWay(s, x);
    }
  }

  lemma ReadSpots(m: Model, at: seq<Spot>, xs: seq<Found>, s: Spot)
    requires Reads(m, at, xs)
    ensures s in at <==> exists x :: Sits(m, s, x)
  {
    hide Sits, InOrder;
    if s in at {
      var k :| 0 <= k < |at| && at[k] == s;
      assert IsAt(at, xs, s, xs[k]);
      assert exists x :: Sits(m, s, x);
    }
    forall x | Sits(m, s, x) ensures s in at {
      assert IsAt(at, xs, s, x);
    }
  }

  /** What sits where in a model leaves no choice: there is one reading of it. */
  lemma ReadingIsUnique(m: Model, at: seq<Spot>, xs: seq<Found>, at': seq<Spot>, xs': seq<Found>)
    requires Reads(m, at, xs) && Reads(m, at', xs')
    ensures at == at' && xs == xs'
  {
    forall s ensures s in at <==> s in at' {
      ReadSpots(m, at, xs, s);
      ReadSpots(m, at', xs', s);
    }
    SameSpots(at, at');
    forall k | 0 <= k < |xs| ensures xs[k] == xs'[k] {
      assert IsAt(at, xs, at[k], xs[k]) && IsAt(at', xs', at[k], xs'[k]);
      SitsOnce(m, at[k], xs[k], xs'[k]);
    }
  }
}
