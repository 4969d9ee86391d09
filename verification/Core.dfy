/** Identities, entities and the flat records that every other module shares. */
module Core {
  datatype Option<+T> = None | Some(value: T)

  /** The type name under which the graph indexes its event nodes. */
  const EVENT_NODE_TYPE := "Event"

  /** A UUID4, read as the number its hex digits spell: equality and order are those of the text. */
  type EventId = nat

  datatype Key = Key(nodeType: string, canonical: string)

  /** A fact's id is a digest of a text and an event's is a UUID. The two never coincide (their
      lengths differ), and the digest is taken to be collision free, so it is kept as its text. */
  datatype NodeId = FactDigest(text: string) | EventUuid(event: EventId)

  type FactId = id: NodeId | id.FactDigest? witness FactDigest("")

  function FactNodeId(k: Key): FactId {
    FactDigest(k.nodeType + "|" + k.canonical)
  }

  /** An edge's id: the event, the label and the target, joined by bars in the source. */
  datatype EdgeId = EdgeId(event: EventId, edgeType: string, target: NodeId)

  datatype FactEdge = FactEdge(event: EventId, target: NodeId, edgeType: string, description: string) {
    function Id(): EdgeId {
      EdgeId(event, edgeType, target)
    }
  }

  /** A value as a normalizer sees it: its `str()` text, and a tag that tells apart values printing alike. */
  datatype Scalar = Scalar(text: string, tag: nat)

  datatype Normalized = Canonical(text: string) | Raised

  datatype Entity = Entity(name: string, description: string, normalizer: Option<Scalar -> Normalized>)

  type Properties = map<string, Scalar>

  /** What the store keeps of a node: all of an event, and of a fact the fields that never change. */
  datatype Record =
    | EventRecord(uuid: EventId, tool: string, timestamp: int, properties: Properties)
    | FactRecord(id: FactId, nodeType: string, value: string, canonical: string)
  {
    function Id(): NodeId {
      if EventRecord? then EventUuid(uuid) else id
    }
  }

  // ----- Which keys share a digest text -------------------------------------------------------

  /** The key that each fact id stands for. The digest text of a key does not always determine the
      key, so what is proved of runs is proved for all keys that some such table names. By
      `NamingExistsIff` a set of keys has such a table unless two of them share an id. */
  type Naming = map<FactId, Key>

  predicate Named(names: Naming, k: Key) {
    FactNodeId(k) in names && names[FactNodeId(k)] == k
  }

  predicate NamesAll(names: Naming, ks: set<Key>) {
    forall k | k in ks :: Named(names, k)
  }

  predicate Apart(ks: set<Key>) {
    forall a, b | a in ks && b in ks && FactNodeId(a) == FactNodeId(b) :: a == b
  }

  /** A set of keys can be named exactly when no two of them share an id. */
  lemma NamingExistsIff(ks: set<Key>)
    ensures (exists names :: NamesAll(names, ks)) <==> Apart(ks)
  {
    if Apart(ks) {
      var names := NameAll(ks);
    }
    if names :| NamesAll(names, ks) {
      forall a, b | a in ks && b in ks && FactNodeId(a) == FactNodeId(b) ensures a == b {
        assert Named(names, a) && Named(names, b);
      }
    }
  }

  lemma {:induction false} NameAll(ks: set<Key>) returns (names: Naming)
    requires Apart(ks)
    ensures NamesAll(names, ks)
  {
    if ks == {} {
      names := map[];
    } else {
      var k :| k in ks;
      var rest := NameAll(ks - {k});
      names := rest[FactNodeId(k) := k];
      forall j | j in ks - {k} ensures Named(names, j) {
        assert Named(rest, j) && FactNodeId(j) != FactNodeId(k);
      }
    }
  }

  predicate PipeFree(s: string) {
    '|' !in s
  }

  /** One type name, with a bar appended, is a prefix of the other. */
  predicate Collide(t1: string, t2: string) {
    t1 != t2 && (t1 + "|" <= t2 || t2 + "|" <= t1)
  }

  /** Keys whose type names do not collide, as bar-free ones never do, do not share ids. */
  lemma TypesApart(ks: set<Key>)
    requires forall a, b | a in ks && b in ks :: !Collide(a.nodeType, b.nodeType)
    ensures Apart(ks)
  {
    forall a, b | a in ks && b in ks && FactNodeId(a) == FactNodeId(b) ensures a == b {
      if a.nodeType != b.nodeType {
        CollisionIsPrefix(a.nodeType, a.canonical, b.nodeType, b.canonical);
      } else {
        SameTypeSameKey(a.nodeType, a.canonical, b.canonical);
      }
    }
  }

  lemma SameTypeSameKey(t: string, c1: string, c2: string)
    requires t + "|" + c1 == t + "|" + c2
    ensures c1 == c2
  {
    assert c1 == (t + "|" + c1)[|t| + 1..] && c2 == (t + "|" + c2)[|t| + 1..];
  }

  lemma BarFreeNamesApart(t1: string, t2: string)
    requires PipeFree(t1) && PipeFree(t2)
    ensures !Collide(t1, t2)
  {
    assert (t1 + "|")[|t1|] == '|' && (t2 + "|")[|t2|] == '|';
  }

  /** On bar-free type names the digest text determines the key. */
  lemma FactIdsDetermineKeys(k1: Key, k2: Key)
    requires PipeFree(k1.nodeType) && PipeFree(k2.nodeType)
    ensures FactNodeId(k1) == FactNodeId(k2) <==> k1 == k2
  {
    BarFreeNamesApart(k1.nodeType, k2.nodeType);
    TypesApart({k1, k2});
  }

  /** Two different type names can produce the same fact id exactly when one of them, with a bar
      appended, is a prefix of the other. The source does not reject such names. */
  lemma TypesCollideIff(t1: string, t2: string)
    requires t1 != t2
    ensures (exists c1, c2 :: FactNodeId(Key(t1, c1)) == FactNodeId(Key(t2, c2)))
       <==> t1 + "|" <= t2 || t2 + "|" <= t1
  {
    if t1 + "|" <= t2 {
      CollisionWitness(t1, t2);
    } else if t2 + "|" <= t1 {
      CollisionWitness(t2, t1);
    }
    forall c1, c2 | FactNodeId(Key(t1, c1)) == FactNodeId(Key(t2, c2))
      ensures t1 + "|" <= t2 || t2 + "|" <= t1
    {
      CollisionIsPrefix(t1, c1, t2, c2);
    }
  }

  lemma CollisionWitness(shorter: string, longer: string)
    requires shorter + "|" <= longer
    ensures exists c1, c2 :: FactNodeId(Key(shorter, c1)) == FactNodeId(Key(longer, c2))
    ensures exists c1, c2 :: FactNodeId(Key(longer, c1)) == FactNodeId(Key(shorter, c2))
  {
    var c := longer[|shorter| + 1..] + "|";
    assert longer == shorter + "|" + longer[|shorter| + 1..];
    assert longer + "|" + "" == shorter + "|" + c;
    assert FactNodeId(Key(shorter, c)) == FactNodeId(Key(longer, ""));
  }

  lemma CollisionIsPrefix(t1: string, c1: string, t2: string, c2: string)
    requires t1 != t2 && t1 + "|" + c1 == t2 + "|" + c2
    ensures t1 + "|" <= t2 || t2 + "|" <= t1
  {
    var a, b := t1 + "|" + c1, t2 + "|" + c2;
    assert a[..|t1|] == t1 && b[..|t2|] == t2;
    if |t1| < |t2| {
      assert t1 + "|" == a[..|t1| + 1] == b[..|t1| + 1] == t2[..|t1| + 1];
    } else if |t2| < |t1| {
      assert t2 + "|" == b[..|t2| + 1] == a[..|t2| + 1] == t1[..|t2| + 1];
    }
  }

  // ----- The text of an edge id ----------------------------------------------------------------

  /** The joined text of an edge id, for an event id and a target id that hold no bar (a UUID and
      a hex digest never do), determines all three parts, whatever the label holds. */
  lemma EdgeTextDeterminesEdge(ev1: string, label1: string, t1: string, ev2: string, label2: string, t2: string)
    requires PipeFree(ev1) && PipeFree(ev2) && PipeFree(t1) && PipeFree(t2)
    requires ev1 + "|" + (label1 + "|" + t1) == ev2 + "|" + (label2 + "|" + t2)
    ensures ev1 == ev2 && label1 == label2 && t1 == t2
  {
    FactIdsDetermineKeys(Key(ev1, label1 + "|" + t1), Key(ev2, label2 + "|" + t2));
    LastBar(label1, t1, label2, t2);
  }

  lemma LastBar(x1: string, t1: string, x2: string, t2: string)
    requires PipeFree(t1) && PipeFree(t2) && x1 + "|" + t1 == x2 + "|" + t2
    ensures x1 == x2 && t1 == t2
  {
    var a, b := x1 + "|" + t1, x2 + "|" + t2;
    assert a[|x1|] == '|' && b[|x2|] == '|';
    assert forall i | |x1| < i < |a| :: a[i] == t1[i - |x1| - 1] != '|';
    assert forall i | |x2| < i < |b| :: b[i] == t2[i - |x2| - 1] != '|';
    assert a[..|x1|] == x1 && b[..|x2|] == x2;
    assert a[|x1| + 1..] == t1 && b[|x2| + 1..] == t2;
  }
}
