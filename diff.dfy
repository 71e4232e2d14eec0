/**
 * `diffColDefs`: flatten both forests, then classify every colId. Pass 1
 * walks origin's keys and reports removed columns and updated ones; pass 2
 * walks edited's keys and reports added columns.
 *
 * The specification `DiffOf` builds each output list by collecting one
 * record per key (`RecordFor`); the methods below are the source's loops,
 * proved equal to it; the lemmas state what the report means.
 */
module Diff {
  import opened Values
  import opened Flatten

  /** `ColChangeItem`: one attribute whose value differs; `None` is `undefined`. */
  datatype Change = Change(key: string, from: Option<Value>, to: Option<Value>)

  /** `ColChange`: one reported column. */
  datatype ColChange = ColChange(colId: string, headerName: Option<Value>, changes: seq<Change>)

  datatype DiffResult = DiffResult(updated: seq<ColChange>, added: seq<ColChange>, removed: seq<ColChange>)

  /** The change items for `keys`, in their order: `colId` is skipped, an unequal value is reported. */
  function ChangesOf(o: Attrs, e: Attrs, keys: seq<string>): seq<Change>
    decreases |keys|
  {
    if keys == [] then []
    else
      var k := keys[|keys| - 1];
      var before, after := Get(o, k), Get(e, k);
      ChangesOf(o, e, keys[..|keys| - 1])
        + (if k != "colId" && before != after then [Change(k, before, after)] else [])
  }

  /** The change items of a column present on both sides, over the union of its keys. */
  function AttrChanges(o: Attrs, e: Attrs): seq<Change> {
    ChangesOf(o, e, UnionKeys(o, e))
  }

  /** The change items of an added column: each attribute but `colId`, from `undefined`. */
  function AddedChanges(e: Attrs): seq<Change> {
    var keys := Without(e.order, "colId");
    seq(|keys|, i requires 0 <= i < |keys| => Change(keys[i], None, Get(e, keys[i])))
  }

  /** Which of the three output lists a record goes to. */
  datatype Kind = Update | Addition | Removal

  /** The record, if any, that the pass for `kind` pushes for `id`. */
  function RecordFor(kind: Kind, om: FlatMap, em: FlatMap, id: string): seq<ColChange> {
    match kind
    case Removal =>
      if id in om.entries && id !in em.entries
      then [ColChange(id, Get(om.entries[id], "headerName"), [])]
      else []
    case Update =>
      if id in om.entries && id in em.entries then
        var o, e := om.entries[id], em.entries[id];
        var changes := AttrChanges(o, e);
        if changes != [] then [ColChange(id, Coalesce(Get(o, "headerName"), Get(e, "headerName")), changes)] else []
      else []
    case Addition =>
      if id in em.entries && id !in om.entries
      then [ColChange(id, Get(em.entries[id], "headerName"), AddedChanges(em.entries[id]))]
      else []
  }

  /** The records pushed while walking `ids` in order. */
  function Collect(kind: Kind, om: FlatMap, em: FlatMap, ids: seq<string>): seq<ColChange>
    decreases |ids|
  {
    if ids == [] then []
    else Collect(kind, om, em, ids[..|ids| - 1]) + RecordFor(kind, om, em, ids[|ids| - 1])
  }

  /** The report for two flattened maps: origin's key order for updated and removed, edited's for added. */
  function DiffOf(om: FlatMap, em: FlatMap): DiffResult {
    DiffResult(
      Collect(Update, om, em, om.order),
      Collect(Addition, om, em, em.order),
      Collect(Removal, om, em, om.order))
  }

  /** The inner `keys.forEach` of pass 1. */
  method ColumnChanges(o: Attrs, e: Attrs) returns (changes: seq<Change>)
    ensures changes == AttrChanges(o, e)
  {
    var keys := UnionKeys(o, e);
    changes := [];
    for j := 0 to |keys|
      invariant changes == ChangesOf(o, e, keys[..j])
    {
      var key := keys[j];
      assert keys[..j + 1][..j] == keys[..j];
      if key != "colId" {
        var before := Get(o, key);
        var after := Get(e, key);
        if before != after {
          changes := changes + [Change(key, before, after)];
        }
      }
    }
    assert keys[..|keys|] == keys;
  }

  /** `diffColDefs(origin, edited)`. */
  method DiffColDefs(origin: seq<Node>, edited: seq<Node>) returns (res: DiffResult)
    ensures res == DiffOf(FlattenOf(origin), FlattenOf(edited))
  {
    var originMap := FlattenColDefs(origin, Empty);
    var editedMap := FlattenColDefs(edited, Empty);
    FlattenOrder(origin);
    FlattenOrder(edited);
    var updated, removed := UpdatedAndRemoved(originMap, editedMap);
    var added := Added(originMap, editedMap);
    res := DiffResult(updated, added, removed);
  }

  /** Pass 1 of `diffColDefs`: updated and removed columns, walking origin's ids. */
  method UpdatedAndRemoved(originMap: FlatMap, editedMap: FlatMap) returns (updated: seq<ColChange>, removed: seq<ColChange>)
    requires Indexed(originMap)
    ensures updated == Collect(Update, originMap, editedMap, originMap.order)
    ensures removed == Collect(Removal, originMap, editedMap, originMap.order)
  {
    updated, removed := [], [];
    var ids := originMap.order;
    for i := 0 to |ids|
      invariant updated == Collect(Update, originMap, editedMap, ids[..i])
      invariant removed == Collect(Removal, originMap, editedMap, ids[..i])
    {
      var colId := ids[i];
      assert ids[..i + 1] == ids[..i] + [colId];
      CollectSnoc(Update, originMap, editedMap, ids[..i], colId);
      CollectSnoc(Removal, originMap, editedMap, ids[..i], colId);
      assert colId in originMap.entries;
      var originCol := originMap.entries[colId];
      if colId !in editedMap.entries {
        removed := removed + [ColChange(colId, Get(originCol, "headerName"), [])];
      } else {
        var editedCol := editedMap.entries[colId];
        var changes := ColumnChanges(originCol, editedCol);
        if |changes| > 0 {
          updated := updated + [ColChange(colId, Coalesce(Get(originCol, "headerName"), Get(editedCol, "headerName")), changes)];
        }
      }
    }
    assert ids[..|ids|] == ids;
  }

  /** Pass 2 of `diffColDefs`: added columns, walking edited's ids. */
  method Added(originMap: FlatMap, editedMap: FlatMap) returns (added: seq<ColChange>)
    requires Indexed(editedMap)
    ensures added == Collect(Addition, originMap, editedMap, editedMap.order)
  {
    added := [];
    var ids := editedMap.order;
    for i := 0 to |ids|
      invariant added == Collect(Addition, originMap, editedMap, ids[..i])
    {
      var colId := ids[i];
      assert ids[..i + 1] == ids[..i] + [colId];
      CollectSnoc(Addition, originMap, editedMap, ids[..i], colId);
      if colId !in originMap.entries {
        assert colId in editedMap.entries;
        var editedCol := editedMap.entries[colId];
        added := added + [ColChange(colId, Get(editedCol, "headerName"), AddedChanges(editedCol))];
      }
    }
    assert ids[..|ids|] == ids;
  }

  // ---- Vocabulary of the properties ----

  predicate DistinctKeys(cs: seq<Change>) {
    forall i, j :: 0 <= i < j < |cs| ==> cs[i].key != cs[j].key
  }

  predicate DistinctIds(rs: seq<ColChange>) {
    forall i, j :: 0 <= i < j < |rs| ==> rs[i].colId != rs[j].colId
  }

  /** Some record of `rs` is about `id`. */
  ghost predicate Mentions(rs: seq<ColChange>, id: string) {
    exists r :: r in rs && r.colId == id
  }

  /** The two records agree on every attribute but `colId`. */
  ghost predicate SameColumn(o: Attrs, e: Attrs) {
    forall k :: k != "colId" ==> Get(o, k) == Get(e, k)
  }

  /** A present column that differs in some attribute, or one present on one side only. */
  ghost predicate Changed(om: FlatMap, em: FlatMap, id: string) {
    if id in om.entries && id in em.entries then !SameColumn(om.entries[id], em.entries[id])
    else id in om.entries || id in em.entries
  }

  /** `c` reports a real difference of a non-`colId` attribute, with both sides' values. */
  ghost predicate IsChange(o: Attrs, e: Attrs, c: Change) {
    && c.key != "colId"
    && (c.key in o.values || c.key in e.values)
    && c.from == Get(o, c.key)
    && c.to == Get(e, c.key)
    && c.from != c.to
  }

  /** `cs` reports every difference between `o` and `e` exactly once, and nothing else. */
  ghost predicate ExactChanges(o: Attrs, e: Attrs, cs: seq<Change>) {
    && DistinctKeys(cs)
    && (forall c :: c in cs ==> IsChange(o, e, c))
    && (forall k :: k != "colId" && Get(o, k) != Get(e, k) ==> exists c :: c in cs && c.key == k)
  }

  /** `cs` lists every attribute of `e` but `colId` exactly once, from `undefined` to its value. */
  ghost predicate AllAdded(e: Attrs, cs: seq<Change>) {
    && DistinctKeys(cs)
    && (forall c :: c in cs ==> c.key != "colId" && c.key in e.values && c.from == None && c.to == Some(e.values[c.key]))
    && (forall k :: k in e.values && k != "colId" ==> exists c :: c in cs && c.key == k)
  }

  // ---- Change lists ----

  lemma {:induction false} ChangesOfSpec(o: Attrs, e: Attrs, keys: seq<string>)
    ensures forall c :: c in ChangesOf(o, e, keys) ==>
      c.key in keys && c.key != "colId" && c.from == Get(o, c.key) && c.to == Get(e, c.key) && c.from != c.to
    ensures forall k :: k in keys && k != "colId" && Get(o, k) != Get(e, k) ==>
      exists c :: c in ChangesOf(o, e, keys) && c.key == k
    ensures Distinct(keys) ==> DistinctKeys(ChangesOf(o, e, keys))
    decreases |keys|
  {
    if keys != [] {
      var n := |keys| - 1;
      var init := keys[..n];
      var last := keys[n];
      ChangesOfSpec(o, e, init);
      var prev := ChangesOf(o, e, init);
      var cs := ChangesOf(o, e, keys);
      assert forall k :: k in keys <==> k in init || k == last by {
        assert keys == init + [last];
      }
      forall k | k in keys && k != "colId" && Get(o, k) != Get(e, k)
        ensures exists c :: c in cs && c.key == k
      {
        if k in init {
          var c :| c in prev && c.key == k;
          assert c in cs;
        } else {
          assert cs[|cs| - 1].key == k;
        }
      }
      if Distinct(keys) {
        assert last !in init;
        assert Distinct(init);
        forall i, j | 0 <= i < j < |cs| ensures cs[i].key != cs[j].key {
          if j < |prev| {
            assert cs[i] == prev[i] && cs[j] == prev[j];
          } else {
            assert cs[i] == prev[i] && prev[i] in prev;
          }
        }
      }
    }
  }

  lemma {:induction false} ChangesOfSelf(a: Attrs, keys: seq<string>)
    ensures ChangesOf(a, a, keys) == []
    decreases |keys|
  {
    if keys != [] {
      ChangesOfSelf(a, keys[..|keys| - 1]);
    }
  }

  /** Pass 1's change list is exact, and empty precisely for an unchanged column. */
  lemma AttrChangesSpec(o: Attrs, e: Attrs)
    requires WellFormed(o) && WellFormed(e)
    ensures ExactChanges(o, e, AttrChanges(o, e))
    ensures AttrChanges(o, e) == [] <==> SameColumn(o, e)
  {
    var keys := UnionKeys(o, e);
    UnionKeysSpec(o, e);
    ChangesOfSpec(o, e, keys);
    var cs := AttrChanges(o, e);
    if cs != [] {
      assert cs[0] in cs;
    }
    if !SameColumn(o, e) {
      var k :| k != "colId" && Get(o, k) != Get(e, k);
      assert k in keys;
    }
  }

  /** Pass 2's change list: one item per attribute but `colId`, from `undefined` to its value. */
  lemma AddedChangesSpec(e: Attrs)
    requires WellFormed(e)
    ensures AllAdded(e, AddedChanges(e))
  {
    var keys := Without(e.order, "colId");
    WithoutSpec(e.order, "colId");
    var cs := AddedChanges(e);
    forall k | k in e.values && k != "colId" ensures exists c :: c in cs && c.key == k {
      var i :| 0 <= i < |keys| && keys[i] == k;
      assert cs[i] in cs;
    }
  }

  // ---- Collected records ----

  lemma {:induction false} CollectSpec(kind: Kind, om: FlatMap, em: FlatMap, ids: seq<string>)
    ensures forall r :: r in Collect(kind, om, em, ids) ==>
      r.colId in ids && RecordFor(kind, om, em, r.colId) == [r]
    ensures forall id :: id in ids && RecordFor(kind, om, em, id) != [] ==>
      exists r :: r in Collect(kind, om, em, ids) && r.colId == id
    ensures Distinct(ids) ==> DistinctIds(Collect(kind, om, em, ids))
    decreases |ids|
  {
    if ids != [] {
      var n := |ids| - 1;
      var init := ids[..n];
      var last := ids[n];
      CollectSpec(kind, om, em, init);
      var prev := Collect(kind, om, em, init);
      var rs := Collect(kind, om, em, ids);
      assert forall id :: id in ids <==> id in init || id == last by {
        assert ids == init + [last];
      }
      assert forall r :: r in RecordFor(kind, om, em, last) ==> r.colId == last;
      forall id | id in ids && RecordFor(kind, om, em, id) != []
        ensures exists r :: r in rs && r.colId == id
      {
        if id in init {
          var r :| r in prev && r.colId == id;
          assert r in rs;
        } else {
          assert rs[|rs| - 1] in rs;
        }
      }
      if Distinct(ids) {
        assert last !in init;
        assert Distinct(init);
        forall i, j | 0 <= i < j < |rs| ensures rs[i].colId != rs[j].colId {
          if j < |prev| {
            assert rs[i] == prev[i] && rs[j] == prev[j];
          } else {
            assert rs[i] == prev[i] && prev[i] in prev;
            assert rs[j] in RecordFor(kind, om, em, last);
          }
        }
      }
    }
  }

  /** Collecting over one more id appends that id's record. */
  lemma CollectSnoc(kind: Kind, om: FlatMap, em: FlatMap, ids: seq<string>, id: string)
    ensures Collect(kind, om, em, ids + [id]) == Collect(kind, om, em, ids) + RecordFor(kind, om, em, id)
  {
    assert (ids + [id])[..|ids|] == ids;
  }

  lemma {:induction false} CollectNone(kind: Kind, om: FlatMap, em: FlatMap, ids: seq<string>)
    requires forall i :: 0 <= i < |ids| ==> RecordFor(kind, om, em, ids[i]) == []
    ensures Collect(kind, om, em, ids) == []
    decreases |ids|
  {
    if ids != [] {
      CollectNone(kind, om, em, ids[..|ids| - 1]);
    }
  }

  // ---- What diffColDefs promises ----

  /** Diffing a tree against itself reports nothing: deep equality is reflexive. */
  lemma DiffSelf(m: FlatMap)
    ensures DiffOf(m, m) == DiffResult([], [], [])
  {
    forall id | id in m.entries ensures AttrChanges(m.entries[id], m.entries[id]) == [] {
      var a := m.entries[id];
      ChangesOfSelf(a, UnionKeys(a, a));
    }
    CollectNone(Update, m, m, m.order);
    CollectNone(Addition, m, m, m.order);
    CollectNone(Removal, m, m, m.order);
  }

  /** A removed column is in origin only, has no change items and carries origin's headerName; every such column is reported. */
  lemma RemovedRecords(om: FlatMap, em: FlatMap)
    requires Indexed(om)
    ensures forall r :: r in DiffOf(om, em).removed ==>
      && r.colId in om.entries && r.colId !in em.entries
      && r.changes == []
      && r.headerName == Get(om.entries[r.colId], "headerName")
    ensures forall id :: id in om.entries && id !in em.entries ==> Mentions(DiffOf(om, em).removed, id)
  {
    CollectSpec(Removal, om, em, om.order);
  }

  /**
   * An updated column is on both sides and differs: its change items are exactly
   * the differing attributes, and its headerName is origin's unless that is
   * null or undefined, then edited's. Every differing column is reported.
   */
  lemma UpdatedRecords(om: FlatMap, em: FlatMap)
    requires Stored(om) && Stored(em)
    ensures forall r :: r in DiffOf(om, em).updated ==>
      && r.colId in om.entries && r.colId in em.entries
      && r.changes != []
      && ExactChanges(om.entries[r.colId], em.entries[r.colId], r.changes)
      && r.headerName == Coalesce(Get(om.entries[r.colId], "headerName"), Get(em.entries[r.colId], "headerName"))
    ensures forall id :: id in om.entries && id in em.entries && !SameColumn(om.entries[id], em.entries[id]) ==>
      Mentions(DiffOf(om, em).updated, id)
  {
    var d := DiffOf(om, em);
    CollectSpec(Update, om, em, om.order);
    forall r | r in d.updated
      ensures r.colId in om.entries && r.colId in em.entries
      ensures r.changes != []
      ensures ExactChanges(om.entries[r.colId], em.entries[r.colId], r.changes)
      ensures r.headerName == Coalesce(Get(om.entries[r.colId], "headerName"), Get(em.entries[r.colId], "headerName"))
    {
      assert RecordFor(Update, om, em, r.colId) == [r];
      AttrChangesSpec(om.entries[r.colId], em.entries[r.colId]);
    }
    forall id | id in om.entries && id in em.entries && !SameColumn(om.entries[id], em.entries[id])
      ensures Mentions(d.updated, id)
    {
      MentionsUpdated(om, em, id);
    }
  }

  /** An added column is in edited only and lists each of its attributes but `colId` once, from `undefined`; every such column is reported. */
  lemma AddedRecords(om: FlatMap, em: FlatMap)
    requires Stored(em)
    ensures forall r :: r in DiffOf(om, em).added ==>
      && r.colId in em.entries && r.colId !in om.entries
      && r.headerName == Get(em.entries[r.colId], "headerName")
      && AllAdded(em.entries[r.colId], r.changes)
    ensures forall id :: id in em.entries && id !in om.entries ==> Mentions(DiffOf(om, em).added, id)
  {
    CollectSpec(Addition, om, em, em.order);
    forall id | id in em.entries ensures AllAdded(em.entries[id], AddedChanges(em.entries[id])) {
      AddedChangesSpec(em.entries[id]);
    }
  }

  /** Each colId is reported at most once: no list repeats one and the three lists are disjoint. */
  lemma DiffDisjoint(om: FlatMap, em: FlatMap)
    requires Indexed(om) && Indexed(em)
    ensures DistinctIds(DiffOf(om, em).updated)
    ensures DistinctIds(DiffOf(om, em).added)
    ensures DistinctIds(DiffOf(om, em).removed)
    ensures forall id :: Mentions(DiffOf(om, em).updated, id) ==> !Mentions(DiffOf(om, em).added, id) && !Mentions(DiffOf(om, em).removed, id)
    ensures forall id :: Mentions(DiffOf(om, em).added, id) ==> !Mentions(DiffOf(om, em).removed, id)
  {
    CollectSpec(Update, om, em, om.order);
    CollectSpec(Addition, om, em, em.order);
    CollectSpec(Removal, om, em, om.order);
  }

  /** A column is in `updated` exactly when it is on both sides and differs in some attribute. */
  lemma MentionsUpdated(om: FlatMap, em: FlatMap, id: string)
    requires Stored(om) && Stored(em)
    ensures Mentions(DiffOf(om, em).updated, id) <==>
      id in om.entries && id in em.entries && !SameColumn(om.entries[id], em.entries[id])
  {
    CollectSpec(Update, om, em, om.order);
    if id in om.entries && id in em.entries {
      AttrChangesSpec(om.entries[id], em.entries[id]);
    }
  }

  /** A column is in `added` exactly when it is in edited only. */
  lemma MentionsAdded(om: FlatMap, em: FlatMap, id: string)
    requires Indexed(em)
    ensures Mentions(DiffOf(om, em).added, id) <==> id in em.entries && id !in om.entries
  {
    CollectSpec(Addition, om, em, em.order);
  }

  /** A column is in `removed` exactly when it is in origin only. */
  lemma MentionsRemoved(om: FlatMap, em: FlatMap, id: string)
    requires Indexed(om)
    ensures Mentions(DiffOf(om, em).removed, id) <==> id in om.entries && id !in em.entries
  {
    CollectSpec(Removal, om, em, om.order);
  }

  /**
   * The reported colIds are exactly those that changed, so an unchanged column,
   * nested or not, is in no list.
   */
  lemma DiffReportsChanged(om: FlatMap, em: FlatMap)
    requires Stored(om) && Stored(em)
    ensures forall id ::
      (Mentions(DiffOf(om, em).updated, id) || Mentions(DiffOf(om, em).added, id) || Mentions(DiffOf(om, em).removed, id))
      <==> Changed(om, em, id)
  {
    forall id ensures
      (Mentions(DiffOf(om, em).updated, id) || Mentions(DiffOf(om, em).added, id) || Mentions(DiffOf(om, em).removed, id))
      <==> Changed(om, em, id)
    {
      MentionsUpdated(om, em, id);
      MentionsAdded(om, em, id);
      MentionsRemoved(om, em, id);
    }
  }
}
