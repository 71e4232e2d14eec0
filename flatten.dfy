/**
 * Flattening a forest of column definitions (`flattenColDefs`) into a map
 * from `colId` to the attributes of the node that carries it, minus its
 * `children`.
 *
 * The specification is a fold of single-node writes over the pre-order
 * traversal (`FlattenOf`); the method `FlattenColDefs` is the source's
 * recursive loop with its threaded accumulator, proved equal to it.
 */
module Flatten {
  import opened Values

  /** A `ColDefLike` node: its own attributes, and its `children` (empty when the attribute is absent). */
  datatype Node = Node(attrs: Attrs, children: seq<Node>)

  /** The node's id when its `colId` attribute is truthy, that is, a non-empty string. */
  function ColId(n: Node): Option<string> {
    match Get(n.attrs, "colId")
    case Some(VStr(id)) => if id != "" then Some(id) else None
    case _ => None
  }

  /** Depth-first, pre-order: every node, then its children, then its later siblings. */
  function PreOrder(cols: seq<Node>): seq<Node> {
    if cols == [] then [] else [cols[0]] + PreOrder(cols[0].children) + PreOrder(cols[1..])
  }

  /** Every node of the forest is a proper object. */
  ghost predicate WellFormedForest(cols: seq<Node>) {
    forall n :: n in PreOrder(cols) ==> WellFormed(n.attrs)
  }

  /** The ids of `ns` that are truthy, in order and with repetitions. */
  function Ids(ns: seq<Node>): seq<string> {
    if ns == [] then [] else (if ColId(ns[0]).Some? then [ColId(ns[0]).value] else []) + Ids(ns[1..])
  }

  lemma {:induction false} IdsSpec(ns: seq<Node>)
    ensures forall k :: k in Ids(ns) <==> exists n :: n in ns && ColId(n) == Some(k)
  {
    if ns != [] {
      IdsSpec(ns[1..]);
      assert forall n :: n in ns <==> n == ns[0] || n in ns[1..] by {
        assert ns == [ns[0]] + ns[1..];
      }
    }
  }

  /** The accumulator `Record<string, ColDefLike>`: its keys in insertion order and its entries. */
  datatype FlatMap = FlatMap(order: seq<string>, entries: map<string, Attrs>)

  const Empty: FlatMap := FlatMap([], map[])

  /** `Object.keys` of the map lists each key once, and exactly its keys. */
  ghost predicate Indexed(m: FlatMap) {
    && Distinct(m.order)
    && forall k :: k in m.entries <==> k in m.order
  }

  /** What `flattenColDefs` stores: proper objects, keyed by their own `colId`, without `children`. */
  ghost predicate Stored(m: FlatMap) {
    && Indexed(m)
    && forall k :: k in m.entries ==>
         && WellFormed(m.entries[k])
         && Get(m.entries[k], "colId") == Some(VStr(k))
         && Get(m.entries[k], "children") == None
  }

  /** The assignment `map[id] = a`: a new key goes last, an existing key keeps its place. */
  function Put(m: FlatMap, id: string, a: Attrs): FlatMap {
    FlatMap(if id in m.entries then m.order else m.order + [id], m.entries[id := a])
  }

  /** The write one node makes, if it has an id. */
  function Record(m: FlatMap, n: Node): FlatMap {
    match ColId(n)
    case Some(id) => Put(m, id, Omit(n.attrs, "children"))
    case None => m
  }

  /** The writes of `ns`, in order. */
  function RecordAll(m: FlatMap, ns: seq<Node>): FlatMap
    decreases |ns|
  {
    if ns == [] then m else RecordAll(Record(m, ns[0]), ns[1..])
  }

  /** `flattenColDefs(cols)` with a fresh map. */
  function FlattenOf(cols: seq<Node>): FlatMap {
    RecordAll(Empty, PreOrder(cols))
  }

  /** `flattenColDefs(cols, acc)`: each node is recorded, then its children are flattened into the same map. */
  method FlattenColDefs(cols: seq<Node>, acc: FlatMap) returns (r: FlatMap)
    ensures r == RecordAll(acc, PreOrder(cols))
    decreases cols
  {
    r := acc;
    for i := 0 to |cols|
      invariant r == RecordAll(acc, PreOrder(cols[..i]))
    {
      var col := cols[i];
      var before := r;
      var id := ColId(col);
      if id.Some? {
        r := Put(r, id.value, Omit(col.attrs, "children"));
      }
      if |col.children| > 0 {
        r := FlattenColDefs(col.children, r);
      }
      assert r == RecordAll(Record(before, col), PreOrder(col.children));
      assert cols[..i + 1] == cols[..i] + [col];
      PreOrderAppend(cols[..i], [col]);
      assert PreOrder([col]) == [col] + PreOrder(col.children);
      RecordAllAppend(acc, PreOrder(cols[..i]), PreOrder([col]));
    }
    assert cols[..|cols|] == cols;
  }

  // ---- Lemmas about the traversal and the fold ----

  lemma {:induction false} PreOrderAppend(a: seq<Node>, b: seq<Node>)
    ensures PreOrder(a + b) == PreOrder(a) + PreOrder(b)
    decreases |a|
  {
    if a == [] {
      assert a + b == b;
    } else {
      assert (a + b)[0] == a[0] && (a + b)[1..] == a[1..] + b;
      PreOrderAppend(a[1..], b);
    }
  }

  /** One tree of a forest in pre-order: the node, its subtree, then the rest of the forest. */
  lemma PreOrderCons(n: Node, rest: seq<Node>)
    ensures PreOrder([n] + rest) == [n] + PreOrder(n.children) + PreOrder(rest)
  {
    assert ([n] + rest)[0] == n && ([n] + rest)[1..] == rest;
  }

  /** Recording a list is recording its head, then its tail. */
  lemma RecordAllCons(m: FlatMap, n: Node, rest: seq<Node>)
    ensures RecordAll(m, [n] + rest) == RecordAll(Record(m, n), rest)
  {
    assert ([n] + rest)[0] == n && ([n] + rest)[1..] == rest;
  }

  lemma {:induction false} RecordAllAppend(m: FlatMap, a: seq<Node>, b: seq<Node>)
    ensures RecordAll(m, a + b) == RecordAll(RecordAll(m, a), b)
    decreases |a|
  {
    if a == [] {
      assert a + b == b;
    } else {
      assert (a + b)[0] == a[0] && (a + b)[1..] == a[1..] + b;
      RecordAllAppend(Record(m, a[0]), a[1..], b);
    }
  }

  /** The key order stays an index of the keys, and grows by first insertions only. */
  lemma {:induction false} RecordAllOrder(m: FlatMap, ns: seq<Node>)
    requires Indexed(m)
    ensures Indexed(RecordAll(m, ns))
    ensures RecordAll(m, ns).order == DedupFrom(m.order, Ids(ns))
    decreases |ns|
  {
    if ns != [] {
      var m' := Record(m, ns[0]);
      if ColId(ns[0]).Some? {
        var id := ColId(ns[0]).value;
        if id !in m.entries { DistinctSnoc(m.order, id); }
        assert Ids(ns) == [id] + Ids(ns[1..]);
      } else {
        assert Ids(ns) == Ids(ns[1..]);
      }
      RecordAllOrder(m', ns[1..]);
    }
  }

  /** An id no node of `ns` carries keeps its old entry. */
  lemma {:induction false} RecordAllUntouched(m: FlatMap, ns: seq<Node>, k: string)
    requires forall j :: 0 <= j < |ns| ==> ColId(ns[j]) != Some(k)
    ensures k in RecordAll(m, ns).entries <==> k in m.entries
    ensures k in m.entries ==> RecordAll(m, ns).entries[k] == m.entries[k]
    decreases |ns|
  {
    if ns != [] {
      assert ColId(ns[0]) != Some(k);
      RecordAllUntouched(Record(m, ns[0]), ns[1..], k);
    }
  }

  /** The entry for `k` is written by the last node of `ns` that carries `k`. */
  lemma {:induction false} RecordAllLast(m: FlatMap, ns: seq<Node>, i: nat, k: string)
    requires i < |ns| && ColId(ns[i]) == Some(k)
    requires forall j :: i < j < |ns| ==> ColId(ns[j]) != Some(k)
    ensures k in RecordAll(m, ns).entries
    ensures RecordAll(m, ns).entries[k] == Omit(ns[i].attrs, "children")
    decreases |ns|
  {
    if i == 0 {
      RecordAllUntouched(Record(m, ns[0]), ns[1..], k);
    } else {
      RecordAllLast(Record(m, ns[0]), ns[1..], i - 1, k);
    }
  }

  /** Once some node of `ns` carries `k`, the entry for `k` no longer depends on the starting map. */
  lemma {:induction false} RecordAllOverride(m1: FlatMap, m2: FlatMap, ns: seq<Node>, k: string)
    requires k in Ids(ns)
    ensures k in RecordAll(m1, ns).entries && k in RecordAll(m2, ns).entries
    ensures RecordAll(m1, ns).entries[k] == RecordAll(m2, ns).entries[k]
    decreases |ns|
  {
    if k in Ids(ns[1..]) {
      RecordAllOverride(Record(m1, ns[0]), Record(m2, ns[0]), ns[1..], k);
    } else {
      IdsSpec(ns[1..]);
      assert ColId(ns[0]) == Some(k);
      forall j | 0 <= j < |ns[1..]| ensures ColId(ns[1..][j]) != Some(k) {
        assert ns[1..][j] in ns[1..];
      }
      RecordAllUntouched(Record(m1, ns[0]), ns[1..], k);
      RecordAllUntouched(Record(m2, ns[0]), ns[1..], k);
    }
  }

  /** One write keeps the map stored: the node's copy is a proper object without `children`, under its own id. */
  lemma RecordStored(m: FlatMap, n: Node)
    requires Stored(m) && WellFormed(n.attrs)
    ensures Stored(Record(m, n))
  {
    OmitSpec(n.attrs, "children");
    if ColId(n).Some? && ColId(n).value !in m.entries {
      DistinctSnoc(m.order, ColId(n).value);
    }
  }

  /** Every entry written from proper objects is stored as `flattenColDefs` promises. */
  lemma {:induction false} RecordAllStored(m: FlatMap, ns: seq<Node>)
    requires Stored(m)
    requires forall n :: n in ns ==> WellFormed(n.attrs)
    ensures Stored(RecordAll(m, ns))
    decreases |ns|
  {
    if ns != [] {
      assert ns[0] in ns;
      RecordStored(m, ns[0]);
      assert forall n :: n in ns[1..] ==> n in ns;
      RecordAllStored(Record(m, ns[0]), ns[1..]);
    }
  }

  // ---- What flattenColDefs promises ----

  /** A key is stored exactly when some node reached in pre-order carries it; container nodes without one are still descended into. */
  lemma FlattenKeys(cols: seq<Node>, k: string)
    ensures k in FlattenOf(cols).entries <==> exists n :: n in PreOrder(cols) && ColId(n) == Some(k)
  {
    var ns := PreOrder(cols);
    IdsSpec(ns);
    if k in Ids(ns) {
      RecordAllOverride(Empty, Empty, ns, k);
    } else {
      forall j | 0 <= j < |ns| ensures ColId(ns[j]) != Some(k) {
        assert ns[j] in ns;
      }
      RecordAllUntouched(Empty, ns, k);
    }
  }

  /** Last write wins: the stored entry is that of the last node in pre-order carrying the id. */
  lemma FlattenLastWins(cols: seq<Node>, i: nat, k: string)
    requires i < |PreOrder(cols)| && ColId(PreOrder(cols)[i]) == Some(k)
    requires forall j :: i < j < |PreOrder(cols)| ==> ColId(PreOrder(cols)[j]) != Some(k)
    ensures k in FlattenOf(cols).entries
    ensures FlattenOf(cols).entries[k] == Omit(PreOrder(cols)[i].attrs, "children")
  {
    RecordAllLast(Empty, PreOrder(cols), i, k);
  }

  /** A descendant that reuses an id, its parent's included, overrides the earlier entry. */
  lemma ChildOverridesParent(n: Node, k: string)
    requires k in FlattenOf(n.children).entries
    ensures k in FlattenOf([n]).entries
    ensures FlattenOf([n]).entries[k] == FlattenOf(n.children).entries[k]
  {
    var ns := PreOrder(n.children);
    assert PreOrder([n]) == [n] + ns by {
      assert [n][1..] == [];
    }
    assert FlattenOf([n]) == RecordAll(Record(Empty, n), ns);
    FlattenKeys(n.children, k);
    IdsSpec(ns);
    assert k in Ids(ns);
    RecordAllOverride(Record(Empty, n), Empty, ns, k);
  }

  /** The key order is that of first insertion, each id once. */
  lemma FlattenOrder(cols: seq<Node>)
    ensures Indexed(FlattenOf(cols))
    ensures FlattenOf(cols).order == DedupFrom([], Ids(PreOrder(cols)))
  {
    RecordAllOrder(Empty, PreOrder(cols));
  }

  /** From proper objects, every stored entry is a proper object keyed by its own colId, without `children`. */
  lemma FlattenStored(cols: seq<Node>)
    requires WellFormedForest(cols)
    ensures Stored(FlattenOf(cols))
  {
    RecordAllStored(Empty, PreOrder(cols));
  }

  // ---- The flattened content does not depend on the order of the nodes ----

  /** When every node of `ns` that carries `k` has the attributes `a`, the entry for `k` is `a` minus `children`. */
  lemma {:induction false} RecordAllAgree(m: FlatMap, ns: seq<Node>, k: string, a: Attrs)
    requires k in Ids(ns)
    requires forall j :: 0 <= j < |ns| && ColId(ns[j]) == Some(k) ==> ns[j].attrs == a
    ensures k in RecordAll(m, ns).entries
    ensures RecordAll(m, ns).entries[k] == Omit(a, "children")
    decreases |ns|
  {
    var rest := ns[1..];
    if k in Ids(rest) {
      forall j | 0 <= j < |rest| && ColId(rest[j]) == Some(k) ensures rest[j].attrs == a {
        assert rest[j] == ns[j + 1];
      }
      RecordAllAgree(Record(m, ns[0]), rest, k, a);
    } else {
      IdsSpec(rest);
      assert ColId(ns[0]) == Some(k);
      forall j | 0 <= j < |rest| ensures ColId(rest[j]) != Some(k) {
        assert rest[j] in rest;
      }
      RecordAllUntouched(Record(m, ns[0]), rest, k);
    }
  }

  /**
   * The nodes of the traversal that share an id all have the same attributes:
   * the only collisions are repetitions of one column.
   */
  ghost predicate Unambiguous(cols: seq<Node>) {
    forall n1, n2 :: n1 in PreOrder(cols) && n2 in PreOrder(cols) && ColId(n1).Some? && ColId(n1) == ColId(n2) ==>
      n1.attrs == n2.attrs
  }

  /** When every node carrying the id of `n` has `n`'s attributes, `n` is stored as it is, minus `children`. */
  lemma FlattenContent(cols: seq<Node>, n: Node)
    requires n in PreOrder(cols) && ColId(n).Some?
    requires forall n' :: n' in PreOrder(cols) && ColId(n') == ColId(n) ==> n'.attrs == n.attrs
    ensures ColId(n).value in FlattenOf(cols).entries
    ensures FlattenOf(cols).entries[ColId(n).value] == Omit(n.attrs, "children")
  {
    var ns := PreOrder(cols);
    IdsSpec(ns);
    forall j | 0 <= j < |ns| && ColId(ns[j]) == Some(ColId(n).value) ensures ns[j].attrs == n.attrs {
      assert ns[j] in ns;
    }
    RecordAllAgree(Empty, ns, ColId(n).value, n.attrs);
  }

  /** Some node reached in pre-order has exactly the attributes `a`. */
  ghost predicate Carries(cols: seq<Node>, a: Attrs) {
    exists n :: n in PreOrder(cols) && n.attrs == a
  }

  /**
   * Order matters only for colliding ids: two forests whose traversals carry
   * the same attribute records, and in which nodes sharing an id agree,
   * flatten to the same entries, whatever the order of their nodes and children.
   */
  lemma FlattenPermutation(c1: seq<Node>, c2: seq<Node>)
    requires Unambiguous(c1) && Unambiguous(c2)
    requires forall a :: Carries(c1, a) <==> Carries(c2, a)
    ensures FlattenOf(c1).entries == FlattenOf(c2).entries
  {
    var e1, e2 := FlattenOf(c1).entries, FlattenOf(c2).entries;
    forall k | k in e1 ensures k in e2 && e2[k] == e1[k] {
      FlattenKeys(c1, k);
      var n1 :| n1 in PreOrder(c1) && ColId(n1) == Some(k);
      assert Carries(c1, n1.attrs);
      var n2 :| n2 in PreOrder(c2) && n2.attrs == n1.attrs;
      FlattenContent(c1, n1);
      FlattenContent(c2, n2);
    }
    forall k | k in e2 ensures k in e1 {
      FlattenKeys(c2, k);
      var n2 :| n2 in PreOrder(c2) && ColId(n2) == Some(k);
      assert Carries(c2, n2.attrs);
      var n1 :| n1 in PreOrder(c1) && n1.attrs == n2.attrs;
      FlattenKeys(c1, k);
    }
  }
}
