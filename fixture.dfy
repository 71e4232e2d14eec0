/**
 * The demonstration scenario that accompanies `diffColDefs`: a title column
 * whose `field` changes and which gains `addedOption`, a group of two option
 * columns left as they are, and a chart column that is dropped.
 */
module Fixture {
  import opened Values
  import opened Flatten
  import opened Diff

  const TitleOrigin: Node := Node(
    Attrs(["headerName", "field", "colId"],
      map["headerName" := VStr("title"), "field" := VStr("title"), "colId" := VStr("col_title")]),
    [])

  const OptionA: Node := Node(
    Attrs(["headerName", "field", "colId"],
      map["headerName" := VStr("a"), "field" := VStr("optionA"), "colId" := VStr("col_option_a")]),
    [])

  const OptionB: Node := Node(
    Attrs(["headerName", "field", "colId"],
      map["headerName" := VStr("b"), "field" := VStr("optionB"), "colId" := VStr("col_option_b")]),
    [])

  /** The group container; the same value on both sides. */
  const GroupOption: Node := Node(
    Attrs(["headerName", "colId"], map["headerName" := VStr("option"), "colId" := VStr("group_option")]),
    [OptionA, OptionB])

  const ChartOrigin: Node := Node(
    Attrs(["headerName", "field", "colId"],
      map["headerName" := VStr("chart"), "field" := VStr("chart"), "colId" := VStr("col_chart")]),
    [])

  const TitleEdited: Node := Node(
    Attrs(["field", "headerName", "addedOption", "colId"],
      map["field" := VStr("title2"), "headerName" := VStr("title"),
          "addedOption" := VStr("title"), "colId" := VStr("col_title")]),
    [])

  const OriginColDefs: seq<Node> := [TitleOrigin, GroupOption, ChartOrigin]

  const EditedColDefs: seq<Node> := [TitleEdited, GroupOption]

  /** The column ids of the scenario are five different strings. */
  lemma IdsDiffer()
    ensures "col_title" != "group_option" && "col_title" != "col_option_a" && "col_title" != "col_option_b"
    ensures "col_title" != "col_chart" && "group_option" != "col_option_a" && "group_option" != "col_option_b"
    ensures "group_option" != "col_chart" && "col_option_a" != "col_option_b" && "col_option_a" != "col_chart"
    ensures "col_option_b" != "col_chart"
  {
    assert "col_title"[4] != "col_chart"[4];
    assert "group_option"[0] != "col_option_a"[0] && "group_option"[0] != "col_option_b"[0];
    assert "col_option_a"[11] != "col_option_b"[11];
  }

  /** The attribute keys of the scenario are different strings, and none is `children`. */
  lemma KeysDiffer()
    ensures "headerName" != "field" && "headerName" != "colId" && "headerName" != "addedOption"
    ensures "field" != "colId" && "field" != "addedOption" && "colId" != "addedOption"
    ensures "headerName" != "children" && "field" != "children" && "colId" != "children"
    ensures "addedOption" != "children"
  {
    assert "field"[0] != "colId"[0];
  }

  /** A group of two leaves between two leaves, in pre-order. */
  lemma PreOrderOfGroup(t: Node, g: Node, a: Node, b: Node, c: Node)
    requires t.children == [] && g.children == [a, b] && a.children == [] && b.children == [] && c.children == []
    ensures PreOrder([t, g, c]) == [t, g, a, b, c]
    ensures PreOrder([t, g]) == [t, g, a, b]
  {
    PreOrderCons(b, []);
    assert [b] + [] == [b];
    PreOrderCons(a, [b]);
    assert [a] + [b] == [a, b];
    PreOrderCons(c, []);
    assert [c] + [] == [c];
    PreOrderCons(g, [c]);
    assert [g] + [c] == [g, c];
    PreOrderCons(t, [g, c]);
    assert [t] + [g, c] == [t, g, c];
    PreOrderCons(g, []);
    assert [g] + [] == [g];
    PreOrderCons(t, [g]);
    assert [t] + [g] == [t, g];
  }

  /** Both forests in pre-order: the group is followed by its two option columns. */
  lemma FixturePreOrder()
    ensures PreOrder(OriginColDefs) == [TitleOrigin, GroupOption, OptionA, OptionB, ChartOrigin]
    ensures PreOrder(EditedColDefs) == [TitleEdited, GroupOption, OptionA, OptionB]
  {
    PreOrderOfGroup(TitleOrigin, GroupOption, OptionA, OptionB, ChartOrigin);
    PreOrderOfGroup(TitleEdited, GroupOption, OptionA, OptionB, ChartOrigin);
  }

  const OriginMap: FlatMap := FlatMap(
    ["col_title", "group_option", "col_option_a", "col_option_b", "col_chart"],
    map["col_title" := TitleOrigin.attrs, "group_option" := GroupOption.attrs, "col_option_a" := OptionA.attrs,
        "col_option_b" := OptionB.attrs, "col_chart" := ChartOrigin.attrs])

  const EditedMap: FlatMap := FlatMap(
    ["col_title", "group_option", "col_option_a", "col_option_b"],
    map["col_title" := TitleEdited.attrs, "group_option" := GroupOption.attrs, "col_option_a" := OptionA.attrs,
        "col_option_b" := OptionB.attrs])

  /** The maps after the first one, two, three and four writes of origin's traversal. */
  const O1: FlatMap := FlatMap(["col_title"], map["col_title" := TitleOrigin.attrs])
  const O2: FlatMap := FlatMap(["col_title", "group_option"],
    map["col_title" := TitleOrigin.attrs, "group_option" := GroupOption.attrs])
  const O3: FlatMap := FlatMap(["col_title", "group_option", "col_option_a"],
    map["col_title" := TitleOrigin.attrs, "group_option" := GroupOption.attrs, "col_option_a" := OptionA.attrs])
  const O4: FlatMap := FlatMap(["col_title", "group_option", "col_option_a", "col_option_b"],
    map["col_title" := TitleOrigin.attrs, "group_option" := GroupOption.attrs, "col_option_a" := OptionA.attrs,
        "col_option_b" := OptionB.attrs])

  /** The same for edited's traversal. */
  const E1: FlatMap := FlatMap(["col_title"], map["col_title" := TitleEdited.attrs])
  const E2: FlatMap := FlatMap(["col_title", "group_option"],
    map["col_title" := TitleEdited.attrs, "group_option" := GroupOption.attrs])
  const E3: FlatMap := FlatMap(["col_title", "group_option", "col_option_a"],
    map["col_title" := TitleEdited.attrs, "group_option" := GroupOption.attrs, "col_option_a" := OptionA.attrs])

  /** A node with a truthy id and no `children` key is stored as it is. */
  lemma RecordLeaf(m: FlatMap, n: Node, id: string)
    requires ColId(n) == Some(id) && "children" !in n.attrs.order && "children" !in n.attrs.values
    ensures Record(m, n) == Put(m, id, n.attrs)
  {
    OmitAbsent(n.attrs, "children");
  }

  /** Recording five nodes one after the other. */
  lemma RecordAllFive(m: FlatMap, n1: Node, n2: Node, n3: Node, n4: Node, n5: Node)
    ensures RecordAll(m, [n1, n2, n3, n4, n5]) == Record(Record(Record(Record(Record(m, n1), n2), n3), n4), n5)
    ensures RecordAll(m, [n1, n2, n3, n4]) == Record(Record(Record(Record(m, n1), n2), n3), n4)
  {
    var m1 := Record(m, n1);
    var m2 := Record(m1, n2);
    var m3 := Record(m2, n3);
    var m4 := Record(m3, n4);
    RecordAllCons(m4, n5, []);
    assert [n5] + [] == [n5];
    RecordAllCons(m3, n4, [n5]);
    assert [n4] + [n5] == [n4, n5];
    RecordAllCons(m2, n3, [n4, n5]);
    assert [n3] + [n4, n5] == [n3, n4, n5];
    RecordAllCons(m1, n2, [n3, n4, n5]);
    assert [n2] + [n3, n4, n5] == [n2, n3, n4, n5];
    RecordAllCons(m, n1, [n2, n3, n4, n5]);
    assert [n1] + [n2, n3, n4, n5] == [n1, n2, n3, n4, n5];
    RecordAllCons(m3, n4, []);
    assert [n4] + [] == [n4];
    RecordAllCons(m2, n3, [n4]);
    assert [n3] + [n4] == [n3, n4];
    RecordAllCons(m1, n2, [n3, n4]);
    assert [n2] + [n3, n4] == [n2, n3, n4];
    RecordAllCons(m, n1, [n2, n3, n4]);
    assert [n1] + [n2, n3, n4] == [n1, n2, n3, n4];
  }

  lemma LeafNodes()
    ensures ColId(TitleOrigin) == Some("col_title") && ColId(TitleEdited) == Some("col_title")
    ensures ColId(GroupOption) == Some("group_option") && ColId(OptionA) == Some("col_option_a")
    ensures ColId(OptionB) == Some("col_option_b") && ColId(ChartOrigin) == Some("col_chart")
    ensures "children" !in TitleOrigin.attrs.order && "children" !in TitleOrigin.attrs.values
    ensures "children" !in TitleEdited.attrs.order && "children" !in TitleEdited.attrs.values
    ensures "children" !in GroupOption.attrs.order && "children" !in GroupOption.attrs.values
    ensures "children" !in OptionA.attrs.order && "children" !in OptionA.attrs.values
    ensures "children" !in OptionB.attrs.order && "children" !in OptionB.attrs.values
    ensures "children" !in ChartOrigin.attrs.order && "children" !in ChartOrigin.attrs.values
  {
    KeysDiffer();
  }

  lemma PutTitle()
    ensures Put(Empty, "col_title", TitleOrigin.attrs) == O1
    ensures Put(Empty, "col_title", TitleEdited.attrs) == E1
  {
  }

  lemma PutGroup()
    ensures Put(O1, "group_option", GroupOption.attrs) == O2
    ensures Put(E1, "group_option", GroupOption.attrs) == E2
  {
    IdsDiffer();
  }

  lemma PutOptionA()
    ensures Put(O2, "col_option_a", OptionA.attrs) == O3
    ensures Put(E2, "col_option_a", OptionA.attrs) == E3
  {
    IdsDiffer();
  }

  lemma PutOptionB()
    ensures Put(O3, "col_option_b", OptionB.attrs) == O4
    ensures Put(E3, "col_option_b", OptionB.attrs) == EditedMap
  {
    IdsDiffer();
  }

  lemma PutChart()
    ensures Put(O4, "col_chart", ChartOrigin.attrs) == OriginMap
  {
    IdsDiffer();
  }

  /** The group container is stored under its own id beside its children. */
  lemma FixtureFlatten()
    ensures FlattenOf(OriginColDefs) == OriginMap
    ensures FlattenOf(EditedColDefs) == EditedMap
  {
    var t, g, a, b, c, t' := TitleOrigin, GroupOption, OptionA, OptionB, ChartOrigin, TitleEdited;
    FixturePreOrder();
    RecordAllFive(Empty, t, g, a, b, c);
    RecordAllFive(Empty, t', g, a, b, c);
    LeafNodes();
    RecordLeaf(Empty, t, "col_title");
    RecordLeaf(O1, g, "group_option");
    RecordLeaf(O2, a, "col_option_a");
    RecordLeaf(O3, b, "col_option_b");
    RecordLeaf(O4, c, "col_chart");
    PutTitle();
    PutGroup();
    PutOptionA();
    PutOptionB();
    PutChart();
    RecordLeaf(Empty, t', "col_title");
    RecordLeaf(E1, g, "group_option");
    RecordLeaf(E2, a, "col_option_a");
    RecordLeaf(E3, b, "col_option_b");
  }

  lemma FixtureTitleUnion()
    ensures UnionKeys(TitleOrigin.attrs, TitleEdited.attrs) == ["headerName", "field", "colId", "addedOption"]
  {
    IdsDiffer();
    KeysDiffer();
    var o, e := TitleOrigin.attrs, TitleEdited.attrs;
    UnionKeysAfter(o, e);
    assert DedupFrom(o.order, e.order) == ["headerName", "field", "colId", "addedOption"];
  }

  /** The title column's key union is origin's keys then `addedOption`; two of them differ. */
  lemma FixtureTitleChanges()
    ensures AttrChanges(TitleOrigin.attrs, TitleEdited.attrs) == [
      Change("field", Some(VStr("title")), Some(VStr("title2"))),
      Change("addedOption", None, Some(VStr("title")))]
  {
    IdsDiffer();
    KeysDiffer();
    var o, e := TitleOrigin.attrs, TitleEdited.attrs;
    var keys := ["headerName", "field", "colId", "addedOption"];
    FixtureTitleUnion();
    assert UnionKeys(o, e) == keys;
    assert keys[..1] == ["headerName"] && keys[..2][..1] == keys[..1] && keys[..3][..2] == keys[..2];
    assert keys[..4] == keys && keys[..4][..3] == keys[..3];
    assert ChangesOf(o, e, keys[..1]) == [];
    assert ChangesOf(o, e, keys[..2]) == [Change("field", Some(VStr("title")), Some(VStr("title2")))];
    assert ChangesOf(o, e, keys[..3]) == ChangesOf(o, e, keys[..2]);
    assert ChangesOf(o, e, keys[..4]) == ChangesOf(o, e, keys[..3]) + [Change("addedOption", None, Some(VStr("title")))];
  }

  const TitleChange: ColChange := ColChange("col_title", Some(VStr("title")), [
    Change("field", Some(VStr("title")), Some(VStr("title2"))),
    Change("addedOption", None, Some(VStr("title")))])

  const ChartRemoval: ColChange := ColChange("col_chart", Some(VStr("chart")), [])

  /** The group and its two options are the same on both sides, so pass 1 reports nothing for them. */
  lemma FixtureUnchanged()
    ensures RecordFor(Update, OriginMap, EditedMap, "group_option") == []
    ensures RecordFor(Update, OriginMap, EditedMap, "col_option_a") == []
    ensures RecordFor(Update, OriginMap, EditedMap, "col_option_b") == []
  {
    IdsDiffer();
    KeysDiffer();
    ChangesOfSelf(GroupOption.attrs, UnionKeys(GroupOption.attrs, GroupOption.attrs));
    ChangesOfSelf(OptionA.attrs, UnionKeys(OptionA.attrs, OptionA.attrs));
    ChangesOfSelf(OptionB.attrs, UnionKeys(OptionB.attrs, OptionB.attrs));
  }

  /** Collecting over five ids concatenates their records. */
  lemma CollectFive(kind: Kind, om: FlatMap, em: FlatMap, i1: string, i2: string, i3: string, i4: string, i5: string)
    ensures Collect(kind, om, em, [i1, i2, i3, i4, i5]) == RecordFor(kind, om, em, i1) + RecordFor(kind, om, em, i2)
      + RecordFor(kind, om, em, i3) + RecordFor(kind, om, em, i4) + RecordFor(kind, om, em, i5)
  {
    var r1, r2, r3 := RecordFor(kind, om, em, i1), RecordFor(kind, om, em, i2), RecordFor(kind, om, em, i3);
    var r4, r5 := RecordFor(kind, om, em, i4), RecordFor(kind, om, em, i5);
    assert Collect(kind, om, em, [i1]) == r1 by {
      CollectSnoc(kind, om, em, [], i1);
      assert [] + [i1] == [i1];
    }
    assert Collect(kind, om, em, [i1, i2]) == r1 + r2 by {
      CollectSnoc(kind, om, em, [i1], i2);
      assert [i1] + [i2] == [i1, i2];
    }
    assert Collect(kind, om, em, [i1, i2, i3]) == r1 + r2 + r3 by {
      CollectSnoc(kind, om, em, [i1, i2], i3);
      assert [i1, i2] + [i3] == [i1, i2, i3];
    }
    assert Collect(kind, om, em, [i1, i2, i3, i4]) == r1 + r2 + r3 + r4 by {
      CollectSnoc(kind, om, em, [i1, i2, i3], i4);
      assert [i1, i2, i3] + [i4] == [i1, i2, i3, i4];
    }
    CollectSnoc(kind, om, em, [i1, i2, i3, i4], i5);
    assert [i1, i2, i3, i4] + [i5] == [i1, i2, i3, i4, i5];
  }

  lemma FixtureTitleUpdated()
    ensures RecordFor(Update, OriginMap, EditedMap, "col_title") == [TitleChange]
  {
    IdsDiffer();
    KeysDiffer();
    FixtureTitleChanges();
  }

  lemma FixtureChartKept()
    ensures RecordFor(Update, OriginMap, EditedMap, "col_chart") == []
  {
    IdsDiffer();
  }

  lemma FixtureUpdated()
    ensures Collect(Update, OriginMap, EditedMap, OriginMap.order) == [TitleChange]
  {
    CollectFive(Update, OriginMap, EditedMap, "col_title", "group_option", "col_option_a", "col_option_b", "col_chart");
    FixtureTitleUpdated();
    FixtureUnchanged();
    FixtureChartKept();
  }

  /** Only the chart column is in origin and not in edited. */
  lemma FixtureRemovals()
    ensures RecordFor(Removal, OriginMap, EditedMap, "col_title") == []
    ensures RecordFor(Removal, OriginMap, EditedMap, "group_option") == []
    ensures RecordFor(Removal, OriginMap, EditedMap, "col_option_a") == []
    ensures RecordFor(Removal, OriginMap, EditedMap, "col_option_b") == []
    ensures RecordFor(Removal, OriginMap, EditedMap, "col_chart") == [ChartRemoval]
  {
    IdsDiffer();
  }

  lemma FixtureRemoved()
    ensures Collect(Removal, OriginMap, EditedMap, OriginMap.order) == [ChartRemoval]
  {
    CollectFive(Removal, OriginMap, EditedMap, "col_title", "group_option", "col_option_a", "col_option_b", "col_chart");
    FixtureRemovals();
  }

  lemma FixtureAdded()
    ensures Collect(Addition, OriginMap, EditedMap, EditedMap.order) == []
  {
    CollectNone(Addition, OriginMap, EditedMap, EditedMap.order);
  }

  /** The title column changes in `field` and `addedOption`, nothing is added, and the chart column is removed. */
  lemma FixtureDiff()
    ensures DiffOf(FlattenOf(OriginColDefs), FlattenOf(EditedColDefs)) == DiffResult(
      [ColChange("col_title", Some(VStr("title")), [
        Change("field", Some(VStr("title")), Some(VStr("title2"))),
        Change("addedOption", None, Some(VStr("title")))])],
      [],
      [ColChange("col_chart", Some(VStr("chart")), [])])
  {
    FixtureFlatten();
    FixtureUpdated();
    FixtureRemoved();
    FixtureAdded();
  }
}
