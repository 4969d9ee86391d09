/** The declared-entities registry and the scan of a cyclic graph of model classes that fills it. */
module Registry {
  import opened Core
  import opened Reach

  type ModelId = nat

  /** A field annotation: a model class, some other type, `None`, or a generic with arguments. */
  datatype Annotation = ModelType(model: ModelId) | OtherType | NoneType | Generic(args: seq<Annotation>)

  datatype FieldDecl = FieldDecl(name: string, entity: Option<Entity>, annotation: Annotation)

  datatype ModelDecl = ModelDecl(name: string, fields: seq<FieldDecl>)

  type Schema = map<ModelId, ModelDecl>

  /** The model classes an annotation mentions, at any depth of generic arguments. */
  function NestedModels(a: Annotation): seq<ModelId> {
    match a
    case ModelType(m) => [m]
    case Generic(args) => NestedInAll(args)
    case _ => []
  }

  function NestedInAll(args: seq<Annotation>): seq<ModelId> {
    if args == [] then [] else NestedModels(args[0]) + NestedInAll(args[1..])
  }

  /** The model class `m` is what a path of argument positions leads to. */
  predicate OccursAt(a: Annotation, path: seq<nat>, m: ModelId)
    decreases |path|
  {
    if path == [] then a == ModelType(m)
    else a.Generic? && path[0] < |a.args| && OccursAt(a.args[path[0]], path[1..], m)
  }

  ghost predicate OccursIn(a: Annotation, m: ModelId) {
    exists path: seq<nat> :: OccursAt(a, path, m)
  }

  /** The models listed for an annotation are exactly those that occur in it, at whatever depth. */
  lemma {:induction false} NestedModelsOccur(a: Annotation, m: ModelId)
    ensures m in NestedModels(a) <==> OccursIn(a, m)
    decreases a
  {
    match a
    case ModelType(n) =>
      assert OccursAt(a, [], n);
    case Generic(args) =>
      NestedInAllOccur(args, m);
      if i :| 0 <= i < |args| && OccursIn(args[i], m) {
        var path: seq<nat> :| OccursAt(args[i], path, m);
        assert ([i] + path)[1..] == path;
        assert OccursAt(a, [i] + path, m);
      }
      if path: seq<nat> :| OccursAt(a, path, m) {
        assert OccursAt(args[path[0]], path[1..], m);
      }
    case _ =>
  }

  lemma {:induction false} NestedInAllOccur(args: seq<Annotation>, m: ModelId)
    ensures m in NestedInAll(args) <==> exists i :: 0 <= i < |args| && OccursIn(args[i], m)
    decreases args
  {
    if args != [] {
      NestedModelsOccur(args[0], m);
      NestedInAllOccur(args[1..], m);
      if i :| 0 <= i < |args[1..]| && OccursIn(args[1..][i], m) {
        assert args[i + 1] == args[1..][i];
      }
      if i :| 0 <= i < |args| && OccursIn(args[i], m) {
        assert i > 0 ==> args[1..][i - 1] == args[i];
      }
    }
  }

  /** Whether an annotation is a model class or a generic with one among its arguments. */
  predicate IsModelTyped(a: Annotation) {
    match a
    case ModelType(_) => true
    case Generic(args) => AnyModelTyped(args)
    case _ => false
  }

  predicate AnyModelTyped(args: seq<Annotation>) {
    args != [] && (IsModelTyped(args[0]) || AnyModelTyped(args[1..]))
  }

  /** The rejection test and the descent agree: a node field is rejected exactly when, unmarked, it
      would have been descended into. */
  lemma {:induction false} RejectedWouldDescend(a: Annotation)
    ensures IsModelTyped(a) <==> NestedModels(a) != []
    decreases a
  {
    if a.Generic? {
      AnyRejectedWouldDescend(a.args);
    }
  }

  lemma {:induction false} AnyRejectedWouldDescend(args: seq<Annotation>)
    ensures AnyModelTyped(args) <==> NestedInAll(args) != []
    decreases args
  {
    if args != [] {
      RejectedWouldDescend(args[0]);
      AnyRejectedWouldDescend(args[1..]);
    }
  }

  // ----- The graph of model classes ------------------------------------------------------------

  /** The models mentioned by the unmarked fields among the first `n`. */
  function Mentioned(fields: seq<FieldDecl>, n: nat): set<ModelId>
    requires n <= |fields|
  {
    set i, m | 0 <= i < n && fields[i].entity.None? && m in NestedModels(fields[i].annotation) :: m
  }

  function Graph(schema: Schema): Adjacency<ModelId> {
    map m | m in schema :: Mentioned(schema[m].fields, |schema[m].fields|)
  }

  /** Every model class that is mentioned exists. */
  ghost predicate ClosedSchema(schema: Schema) {
    forall m | m in schema :: Next(Graph(schema), m) <= schema.Keys
  }

  /** A marked field whose annotation is a model: the scan rejects it. */
  predicate BadField(f: FieldDecl) {
    f.entity.Some? && IsModelTyped(f.annotation)
  }

  /** The scan goes from a model to those that occur in its unmarked fields, and rejects a marked field
      in which some model occurs. */
  lemma SchemaGraphIs(schema: Schema, m: ModelId, n: ModelId)
    requires m in schema
    ensures n in Next(Graph(schema), m) <==>
            exists f: FieldDecl :: f in schema[m].fields && f.entity.None? && OccursIn(f.annotation, n)
    ensures Bad(schema, m) <==>
            exists f: FieldDecl, k :: f in schema[m].fields && f.entity.Some? && OccursIn(f.annotation, k)
  {
    var fs := schema[m].fields;
    forall a, k ensures k in NestedModels(a) <==> OccursIn(a, k) {
      NestedModelsOccur(a, k);
    }
    forall a ensures IsModelTyped(a) <==> exists k :: OccursIn(a, k) {
      RejectedWouldDescend(a);
      if NestedModels(a) != [] {
        assert NestedModels(a)[0] in NestedModels(a);
      }
    }
    if f: FieldDecl :| f in fs && f.entity.None? && OccursIn(f.annotation, n) {
      var i :| 0 <= i < |fs| && fs[i] == f;
      assert n in Mentioned(fs, |fs|);
    }
    if f: FieldDecl, k :| f in fs && f.entity.Some? && OccursIn(f.annotation, k) {
      var i :| 0 <= i < |fs| && fs[i] == f;
      assert BadField(fs[i]);
    }
  }

  ghost predicate Bad(schema: Schema, m: ModelId) {
    m in schema && exists i :: 0 <= i < |schema[m].fields| && BadField(schema[m].fields[i])
  }

  /** The entity names on the marked fields among the first `n`. */
  function FieldNames(fields: seq<FieldDecl>, n: nat): set<string>
    requires n <= |fields|
  {
    set i | 0 <= i < n && fields[i].entity.Some? :: fields[i].entity.value.name
  }

  function NamesOf(schema: Schema, ms: set<ModelId>): set<string> {
    set m, x | m in ms && m in schema && x in FieldNames(schema[m].fields, |schema[m].fields|) :: x
  }

  /** Some model reachable from `root` has a field marked with this very entity. */
  ghost predicate DeclaredUnder(schema: Schema, root: ModelId, e: Entity) {
    exists m, i :: Reaches(Graph(schema), root, m) && m in schema && 0 <= i < |schema[m].fields|
                   && schema[m].fields[i].entity == Some(e)
  }

  lemma NamedIsDeclared(schema: Schema, root: ModelId, n: string)
    ensures NamedUnder(schema, root, n) <==> exists e: Entity :: e.name == n && DeclaredUnder(schema, root, e)
  {
    hide Reaches;
    if NamedUnder(schema, root, n) {
      var m :| Reaches(Graph(schema), root, m) && n in NamesOf(schema, {m});
      var i :| 0 <= i < |schema[m].fields| && schema[m].fields[i].entity.Some?
               && schema[m].fields[i].entity.value.name == n;
      assert DeclaredUnder(schema, root, schema[m].fields[i].entity.value);
    }
    if e: Entity :| e.name == n && DeclaredUnder(schema, root, e) {
      var m, i :| Reaches(Graph(schema), root, m) && m in schema && 0 <= i < |schema[m].fields|
                  && schema[m].fields[i].entity == Some(e);
      assert n in FieldNames(schema[m].fields, |schema[m].fields|);
      assert n in NamesOf(schema, {m});
    }
  }

  ghost predicate BadReachable(schema: Schema, root: ModelId) {
    exists m :: Reaches(Graph(schema), root, m) && Bad(schema, m)
  }

  /** Some model reachable from `root` has a field marked with an entity of this name. */
  ghost predicate NamedUnder(schema: Schema, root: ModelId, n: string) {
    exists m :: Reaches(Graph(schema), root, m) && n in NamesOf(schema, {m})
  }

  // ----- What a scan has done ------------------------------------------------------------------

  /** Models entered and finished: reachable, acceptable, and followed up within `seen`. */
  ghost predicate Finished(schema: Schema, root: ModelId, ms: set<ModelId>, seen: set<ModelId>) {
    forall m | m in ms :: Reaches(Graph(schema), root, m) && !Bad(schema, m) && Next(Graph(schema), m) <= seen
  }

  /** A whole call: from `seen0` and `names0` to `seen1` and `names1`. */
  ghost predicate Scanned(schema: Schema, root: ModelId, seen0: set<ModelId>, seen1: set<ModelId>,
                          names0: set<string>, names1: set<string>) {
    && seen0 <= seen1 <= schema.Keys
    && names1 == names0 + NamesOf(schema, seen1 - seen0)
    && Finished(schema, root, seen1 - seen0, seen1)
  }

  /** A call for `model` after its first `i` fields. */
  ghost predicate Progress(schema: Schema, root: ModelId, model: ModelId, seen0: set<ModelId>, seen1: set<ModelId>,
                           names0: set<string>, names1: set<string>, i: nat)
    requires model in schema && i <= |schema[model].fields|
  {
    var fields := schema[model].fields;
    && seen0 + {model} <= seen1 <= schema.Keys
    && names1 == names0 + NamesOf(schema, seen1 - seen0 - {model}) + FieldNames(fields, i)
    && Finished(schema, root, seen1 - seen0 - {model}, seen1)
    && Mentioned(fields, i) <= seen1
    && forall j | 0 <= j < i :: !BadField(fields[j])
  }

  lemma FieldRegistered(schema: Schema, root: ModelId, model: ModelId, seen0: set<ModelId>, seen1: set<ModelId>,
                        names0: set<string>, names1: set<string>, i: nat)
    requires model in schema && i < |schema[model].fields|
    requires Progress(schema, root, model, seen0, seen1, names0, names1, i)
    requires var f := schema[model].fields[i]; f.entity.Some? && !BadField(f)
    ensures Progress(schema, root, model, seen0, seen1, names0, names1 + {schema[model].fields[i].entity.value.name},
            i + 1)
  {
  }

  lemma NestedIsNext(schema: Schema, model: ModelId, i: nat, m: ModelId)
    requires model in schema && i < |schema[model].fields| && schema[model].fields[i].entity.None?
    requires m in NestedModels(schema[model].fields[i].annotation)
    ensures m in Next(Graph(schema), model)
  {
  }

  lemma FieldFollowed(schema: Schema, root: ModelId, model: ModelId, seen0: set<ModelId>, seen1: set<ModelId>,
                      seen2: set<ModelId>,
                      names0: set<string>, names1: set<string>, names2: set<string>, i: nat)
    requires model in schema && i < |schema[model].fields| && model !in seen0
    requires Progress(schema, root, model, seen0, seen1, names0, names1, i)
    requires Scanned(schema, root, seen1, seen2, names1, names2)
    requires var f := schema[model].fields[i];
             f.entity.None? && forall m | m in NestedModels(f.annotation) :: m in seen2
    ensures Progress(schema, root, model, seen0, seen2, names0, names2, i + 1)
  {
  }

  lemma ScannedNothing(schema: Schema, root: ModelId, seen: set<ModelId>, names: set<string>)
    requires seen <= schema.Keys
    ensures Scanned(schema, root, seen, seen, names, names)
  {
  }

  lemma ScansCompose(schema: Schema, root: ModelId, seen0: set<ModelId>, seen1: set<ModelId>, seen2: set<ModelId>,
                     names0: set<string>, names1: set<string>, names2: set<string>)
    requires Scanned(schema, root, seen0, seen1, names0, names1) && Scanned(schema, root, seen1, seen2, names1, names2)
    ensures Scanned(schema, root, seen0, seen2, names0, names2) && seen2 <= schema.Keys
  {
  }

  lemma ScanDone(schema: Schema, root: ModelId, model: ModelId, seen0: set<ModelId>, seen1: set<ModelId>,
                 names0: set<string>, names1: set<string>)
    requires model in schema && model !in seen0 && Reaches(Graph(schema), root, model)
    requires Progress(schema, root, model, seen0, seen1, names0, names1, |schema[model].fields|)
    ensures Scanned(schema, root, seen0, seen1, names0, names1)
  {
  }

  /** A finished scan from nothing has entered exactly the reachable models. */
  lemma SeenIsReachable(schema: Schema, root: ModelId, seen: set<ModelId>, names0: set<string>, names1: set<string>)
    requires Scanned(schema, root, {}, seen, names0, names1) && root in seen
    ensures forall m :: m in seen <==> Reaches(Graph(schema), root, m)
    ensures !BadReachable(schema, root)
    ensures forall n :: n in names1 <==> n in names0 || NamedUnder(schema, root, n)
  {
    assert seen - {} == seen;
    forall m | Reaches(Graph(schema), root, m) ensures m in seen {
      var k: nat :| m in Ball(Graph(schema), root, k);
      ClosedHoldsBall(Graph(schema), seen, root, k);
    }
    forall n ensures n in NamesOf(schema, seen) <==> NamedUnder(schema, root, n) {
      if n in NamesOf(schema, seen) {
        var m :| m in seen && m in schema && n in FieldNames(schema[m].fields, |schema[m].fields|);
        assert n in NamesOf(schema, {m});
      }
    }
  }

  // ----- The registry --------------------------------------------------------------------------

  datatype ConfigError = ModelTypedNode(model: ModelId, field: string)

  /** The set of models a scan has entered, shared by all its calls. */
  class SeenModels {
    var members: set<ModelId>

    constructor ()
      ensures members == {}
    {
      members := {};
    }
  }

  class EntityRegistry {
    var declared: map<string, Entity>
    var origins: map<string, string>

    constructor ()
      ensures Valid() && declared == map[]
    {
      declared, origins := map[], map[];
    }

    ghost predicate Valid()
      reads this
    {
      declared.Keys == origins.Keys && forall n | n in declared :: declared[n].name == n
    }

    /** What was declared stays as it was; what is new was declared under `root`. */
    ghost predicate Grown(before: map<string, Entity>, schema: Schema, root: ModelId)
      reads this
    {
      && Valid()
      && (forall n | n in before :: n in declared && declared[n] == before[n])
      && (forall n | n in declared && n !in before :: DeclaredUnder(schema, root, declared[n]))
    }

    /** The first declaration of a name wins. */
    method RegisterEntity(e: Entity, location: string)
      requires Valid()
      modifies this
      ensures Valid() && declared.Keys == old(declared.Keys) + {e.name}
      ensures forall n | n in old(declared) :: declared[n] == old(declared)[n] && origins[n] == old(origins)[n]
      ensures e.name !in old(declared) ==> declared[e.name] == e && origins[e.name] == location
    {
      if e.name !in declared {
        declared := declared[e.name := e];
        origins := origins[e.name := location];
      }
    }

    /** Enters one model, unless it has been entered already. */
    method Scan(schema: Schema, model: ModelId, seen: SeenModels,
                ghost root: ModelId) returns (err: Option<ConfigError>)
      requires Valid() && ClosedSchema(schema) && model in schema
      requires seen.members <= schema.Keys && Reaches(Graph(schema), root, model)
      modifies this, seen
      ensures Grown(old(declared), schema, root) && old(seen.members) <= seen.members
      ensures err.None? ==> model in seen.members
                            && Scanned(schema, root, old(seen.members), seen.members, old(declared.Keys), declared.Keys)
      ensures err.Some? ==> BadReachable(schema, root)
      decreases schema.Keys - seen.members, 0
    {
      ghost var seen0, names0 := seen.members, declared.Keys;
      if model in seen.members {
        ScannedNothing(schema, root, seen0, names0);
        return None;
      }
      seen.members := seen.members + {model};
      var fields := schema[model].fields;
      assert seen.members - seen0 - {model} == {} && NamesOf(schema, {}) == {};
      for i := 0 to |fields|
        invariant Grown(old(declared), schema, root)
        invariant Progress(schema, root, model, seen0, seen.members, names0, declared.Keys, i)
      {
        err := ScanField(schema, model, i, seen, root, seen0, names0);
        if err.Some? {
          return;
        }
      }
      ScanDone(schema, root, model, seen0, seen.members, names0, declared.Keys);
      err := None;
    }

    /** One field: rejected, registered, or followed into the models it mentions. */
    method ScanField(schema: Schema, model: ModelId, i: nat, seen: SeenModels, ghost root: ModelId,
                     ghost seen0: set<ModelId>, ghost names0: set<string>) returns (err: Option<ConfigError>)
      requires Valid() && ClosedSchema(schema) && model in schema && i < |schema[model].fields|
      requires Reaches(Graph(schema), root, model) && model !in seen0
      requires Progress(schema, root, model, seen0, seen.members, names0, declared.Keys, i)
      modifies this, seen
      ensures Grown(old(declared), schema, root) && old(seen.members) <= seen.members
      ensures err.None? ==> Progress(schema, root, model, seen0, seen.members, names0, declared.Keys, i + 1)
      ensures err.Some? ==> BadReachable(schema, root)
      decreases schema.Keys - seen.members, 2
    {
      var f := schema[model].fields[i];
      ghost var seen1, names1 := seen.members, declared.Keys;
      if f.entity.Some? {
        if IsModelTyped(f.annotation) {
          assert BadField(f) && Bad(schema, model);
          return Some(ModelTypedNode(model, f.name));
        }
        RegisterEntity(f.entity.value, schema[model].name + "." + f.name);
        FieldRegistered(schema, root, model, seen0, seen1, names0, names1, i);
        return None;
      }
      var nested := NestedModels(f.annotation);
      forall m | m in nested ensures m in schema && Reaches(Graph(schema), root, m) {
        NestedIsNext(schema, model, i, m);
        ReachesNext(Graph(schema), root, model, m);
      }
      err := ScanNested(schema, nested, seen, root);
      if err.None? {
        FieldFollowed(schema, root, model, seen0, seen1, seen.members, names0, names1, declared.Keys, i);
      }
    }

    /** The models that an unmarked field mentions, in order. */
    method ScanNested(schema: Schema, nested: seq<ModelId>, seen: SeenModels,
                      ghost root: ModelId) returns (err: Option<ConfigError>)
      requires Valid() && ClosedSchema(schema) && seen.members <= schema.Keys
      requires forall m | m in nested :: m in schema && Reaches(Graph(schema), root, m)
      modifies this, seen
      ensures Grown(old(declared), schema, root) && old(seen.members) <= seen.members
      ensures err.None? ==> Scanned(schema, root, old(seen.members), seen.members, old(declared.Keys), declared.Keys)
                            && forall m | m in nested :: m in seen.members
      ensures err.Some? ==> BadReachable(schema, root)
      decreases schema.Keys - seen.members, 1
    {
      hide Scanned, BadReachable, DeclaredUnder, Reaches;
      ghost var seen0, names0 := seen.members, declared.Keys;
      ghost var seen1, names1 := seen0, names0;
      ScannedNothing(schema, root, seen0, names0);
      for j := 0 to |nested|
        invariant Grown(old(declared), schema, root) && seen1 == seen.members <= schema.Keys && names1 == declared.Keys
        invariant seen0 <= seen1 && Scanned(schema, root, seen0, seen1, names0, names1)
        invariant forall k | 0 <= k < j :: nested[k] in seen1
      {
        err := Scan(schema, nested[j], seen, root);
        if err.Some? {
          return;
        }
        ScansCompose(schema, root, seen0, seen1, seen.members, names0, names1, declared.Keys);
        seen1, names1 := seen.members, declared.Keys;
      }
      err := None;
    }

    /** Eagerly registers every entity that `model` and the models below it declare. It fails
        exactly when a reachable model marks a model-typed field; otherwise exactly the names
        declared by reachable models are added, and no earlier entry ever changes. */
    method RegisterModel(schema: Schema, model: ModelId) returns (err: Option<ConfigError>)
      requires Valid() && ClosedSchema(schema) && model in schema
      modifies this
      ensures Grown(old(declared), schema, model)
      ensures err.Some? <==> BadReachable(schema, model)
      ensures err.None? ==> forall n :: n in declared <==>
                n in old(declared) || exists e: Entity :: e.name == n && DeclaredUnder(schema, model, e)
    {
      hide DeclaredUnder, NamedUnder;
      forall n
        ensures NamedUnder(schema, model, n) <==> exists e: Entity :: e.name == n && DeclaredUnder(schema, model, e)
      {
        NamedIsDeclared(schema, model, n);
      }
      var seen := new SeenModels();
      ReachesSelf(Graph(schema), model);
      err := Scan(schema, model, seen, model);
      if err.None? {
        SeenIsReachable(schema, model, seen.members, old(declared.Keys), declared.Keys);
      }
    }
  }
}
