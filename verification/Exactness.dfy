/**
 Inputs on which a nested read does not give what was asked for, and exactly when that can happen: the window of a
 fetch, keys that are aliased, taken or hidden, parents that are not given back, bare items and the names in a branch.
 */
module Exactness {
  import opened Rows
  import opened Wrappers
  import opened QueryModel
  import opened NestedJoin
  import opened Unstripped
  import opened Merging
  import opened Windows
  import opened Batches
  import opened Stripping

  // ----- inputs on which the window does not fit -----

  /** One collection of rows that have nothing but a key. */
  function Numbered(keys: seq<int>): World {
    World(map["a" := Collection("id", {"id"})],
          map["a" := seq(|keys|, i requires 0 <= i < |keys| => map["id" := Num(keys[i])])],
          (c, sort) => (x, y) => true, -1)
  }

  lemma NumberedIsSound(keys: seq<int>)
    requires forall i, j :: 0 <= i < j < |keys| ==> keys[i] != keys[j]
    ensures Sound(Numbered(keys))
  {
  }

  const PLAIN := Query(ANYTHING, None, 0, 0, [])

  /** A many-to-one node with an offset of one loses the only row its parents point at. */
  lemma OffsetHidesRelated()
    ensures var w := Numbered([1]);
            var node := M2O("up", "up", "a", [], PLAIN.(offset := 1));
            Sound(w) && !FindsRelated(w, "a", node.query, [Num(1)], M2OQuery(w, node, [Num(1)]))
  {
    var w := Numbered([1]);
    var node := M2O("up", "up", "a", [], PLAIN.(offset := 1));
    var row: Row := map["id" := Num(1)];
    NumberedIsSound([1]);
    assert w.Table("a")[0] == row;
    assert SomeRelated(w, "a", node.query, [Num(1)]);
    OffsetFitsIff(w, "a", node.query, [Num(1)], M2OQuery(w, node, [Num(1)]));
    WindowFitsIff(w, "a", node.query, [Num(1)], M2OQuery(w, node, [Num(1)]));
  }

  /** So does a branch of a many-to-any node with an offset. */
  lemma OffsetHidesBranch()
    ensures var w := Numbered([1]);
            var b := Branch("a", [], PLAIN.(offset := 1));
            Sound(w) && !FindsRelated(w, "a", b.query, [Num(1)], BranchQuery(w, b, [Num(1)]))
  {
    var w := Numbered([1]);
    var b := Branch("a", [], PLAIN.(offset := 1));
    var row: Row := map["id" := Num(1)];
    NumberedIsSound([1]);
    assert w.Table("a")[0] == row;
    assert SomeRelated(w, "a", b.query, [Num(1)]);
    OffsetFitsIff(w, "a", b.query, [Num(1)], BranchQuery(w, b, [Num(1)]));
    WindowFitsIff(w, "a", b.query, [Num(1)], BranchQuery(w, b, [Num(1)]));
  }

  /** A branch whose filter has an operator on the primary key, here one that lets every row through:
      the limit is the number of ids, and the one row they name is behind another. */
  lemma OperatorLetsTheLimitCut()
    ensures var w := Numbered([1, 2]);
            var b := Branch("a", [], PLAIN.(filter := Filter([On("id", Where(_ => true))])));
            Sound(w) && !FindsRelated(w, "a", b.query, [Num(2)], BranchQuery(w, b, [Num(2)]))
  {
    var w := Numbered([1, 2]);
    var b := Branch("a", [], PLAIN.(filter := Filter([On("id", Where(_ => true))])));
    var rows := w.Table("a");
    NumberedIsSound([1, 2]);
    assert b.query.filter.clauses[1..] == [];
    KeepAll(rows, Passes(b.query.filter));
    SortOfSorted(rows, w.before("a", []));
    assert Matching(w, "a", b.query) == rows;
    assert Cell(Matching(w, "a", b.query)[1], "id") in [Num(2)];
    OperatorFitsIff(w, "a", b.query, [Num(2)], BranchQuery(w, b, [Num(2)]));
    WindowFitsIff(w, "a", b.query, [Num(2)], BranchQuery(w, b, [Num(2)]));
  }

  /** An `_in` of the user's on the primary key is replaced by the keys at hand. */
  lemma InIsForgotten()
    ensures var w := Numbered([1, 2]);
            var node := M2O("up", "up", "a", [], PLAIN.(filter := Filter([On("id", In([Num(1)]))])));
            Sound(w) && !FindsRelated(w, "a", node.query, [Num(2)], M2OQuery(w, node, [Num(2)]))
  {
    var w := Numbered([1, 2]);
    var node := M2O("up", "up", "a", [], PLAIN.(filter := Filter([On("id", In([Num(1)]))])));
    NumberedIsSound([1, 2]);
    assert w.Table("a")[1] == map["id" := Num(2)];
    assert Others(node.query.filter.clauses, "id") == [];
    assert TestOn(node.query.filter.clauses, "id") == Some(In([Num(1)]));
    InFitsIff(w, "a", node.query, [Num(2)], M2OQuery(w, node, [Num(2)]));
    WindowFitsIff(w, "a", node.query, [Num(2)], M2OQuery(w, node, [Num(2)]));
  }

  /** The item is there, and the parent that asks for it under another name gets none. */
  lemma AliasedNodeGetsNull()
    ensures var w := Numbered([1]);
            var node := A2O("thing", "item", "collection", [Branch("a", [], PLAIN)]);
            var parent: Row := map["item" := Num(1), "collection" := Text("a")];
            var fetched := Obj(map["id" := Num(1)]);
            && RawNested(w, "p", node, parent) == fetched
            && FindAny(w, map["a" := [fetched]], Cell(parent, node.collectionField), Cell(parent, node.key)) == Null
            && FindAny(w, map["a" := [fetched]], Cell(parent, node.collectionField), Cell(parent, node.field)) == fetched
  {
    var w := Numbered([1]);
    var node := A2O("thing", "item", "collection", [Branch("a", [], PLAIN)]);
    var parent: Row := map["item" := Num(1), "collection" := Text("a")];
    var row: Row := map["id" := Num(1)];
    NumberedIsSound([1]);
    assert w.Table("a") == [row];
    KeepAll(w.Table("a"), Passes(ANYTHING));
    SortOfSorted(w.Table("a"), w.before("a", []));
    assert Matching(w, "a", PLAIN) == [row];
    FirstHaving(w, "a", Matching(w, "a", PLAIN), row);
    assert RelatedRow(w, "a", PLAIN, Num(1)) == Some(row);
    BareBranch(w, "a", row);
    assert "thing" !in parent by {
      assert "thing"[0] != "item"[0] && "thing"[0] != "collection"[0];
    }
    assert BranchFor(node.branches, Text("a")) == Some(node.branches[0]);
    var fetched := Obj(map["id" := Num(1)]);
    NoneHasNull([fetched], "id");
    assert FindBy([fetched], "id", Num(1)) == fetched;
  }

  // ----- the foreign key of a one-to-many node -----

  /** Where nothing hides the foreign key, the merge links the rows that name the parent exactly when
      the foreign key is selected, or when no row names it anyway: requested under another key only,
      it is in no item, and no child matches any parent. */
  lemma ForeignKeyShownIff(w: World, c: string, node: Node, key: Value)
    requires Sound(w) && SortFilled(node) && node.O2M? && ColumnUnhidden(node.children, node.field)
    requires forall i :: 0 <= i < |node.children| && node.children[i].IsNested() ==> node.children[i].key != node.field
    requires key != Null && !key.Obj? && !key.Arr?
    ensures (forall r :: r in w.Table(node.related) ==>
               (MatchesParent(node.field, w.Primary(c), key)(Obj(RawItem(w, node.related, node.children, Extras(node), r)))
                <==> LinkedTo(node, key)(r)))
            <==> ForeignKeyShown(w, node) || forall r :: r in w.Table(node.related) ==> Cell(r, node.field) != key
  {
    forall r | r in w.Table(node.related)
      ensures LinkedTo(node, key)(r) <==> Cell(r, node.field) == key
      ensures MatchesParent(node.field, w.Primary(c), key)(Obj(RawItem(w, node.related, node.children, Extras(node), r)))
              <==> ForeignKeyShown(w, node) && Cell(r, node.field) == key
    {
      var selected := Selected(w, node.related, node.children, Extras(node), r);
      OverlayKeeps(w, node.related, node.children, r, selected, node.field);
      CellForColumn(w, node.related, node.children, r, node.field);
      CellIsScalar(w, node.related, r, node.field);
    }
  }

  lemma CellIsScalar(w: World, c: string, row: Row, column: string)
    requires Sound(w) && row in w.Table(c)
    ensures !Cell(row, column).Obj? && !Cell(row, column).Arr?
  {
    var i: nat :| i < |w.Table(c)| && w.Table(c)[i] == row;
  }

  /** Children requested with their foreign key under another key: it is not selected. */
  lemma AliasedForeignKeyIsNotSelected(w: World, query: Query)
    requires w.Primary("posts") == "id"
    ensures var node := O2M("posts", "author", "posts", None, [Field("author", "writer")], query);
            !ForeignKeyShown(w, node)
  {
    var node := O2M("posts", "author", "posts", None, [Field("author", "writer")], query);
    assert node.children[0].Field? && node.children[0].name == node.field;
    assert Extras(node) == {};
    assert node.children[1..] == [];
    assert "author"[0] != "writer"[0] && "author"[0] != "id"[0];
    assert ColumnKeys(w, "posts", []) == {};
    assert "author" !in SelectKeys(w, "posts", node.children, {});
  }

  // ----- a foreign key that is taken -----

  /** A world of few rows in which no order tells rows apart. */
  function Small(schema: map<string, Collection>, tables: map<string, seq<Row>>): World {
    World(schema, tables, (c, sort) => (x, y) => true, -1)
  }

  /** Pages that point at one author. */
  function Pages(): World {
    Small(map["a" := Collection("id", {"id"}), "p" := Collection("uuid", {"uuid", "author", "title"})],
          map["a" := [map["id" := Num(1)]], "p" := [map["uuid" := Num(9), "author" := Num(1), "title" := Text("t")]]])
  }

  lemma PagesAreSound()
    ensures Sound(Pages())
  {
    var w := Pages();
    assert "uuid"[0] != "id"[0] && "a"[0] != "p"[0];
    assert w.Table("a") == [map["id" := Num(1)]];
  }

  lemma AuthorIsRelated(w: World, row: Row)
    requires w == Pages() && row == map["id" := Num(1)]
    ensures RelatedRow(w, "a", PLAIN, Num(1)) == Some(row)
  {
    PagesAreSound();
    assert w.Table("a") == [row];
    KeepAll(w.Table("a"), Passes(ANYTHING));
    SortOfSorted(w.Table("a"), w.before("a", []));
    FirstHaving(w, "a", Matching(w, "a", PLAIN), row);
  }

  /** Two nodes on one column, the second under an alias: a well-formed tree, and what the second is
      compared with is the item of the first. */
  lemma SecondNodeGetsNull()
    ensures var w := Pages();
            var children := [M2O("author", "author", "a", [], PLAIN), M2O("writer", "author", "a", [], PLAIN)];
            var row := w.Table("p")[0];
            && SortsFilled(children) && Good(w, "p", children, {})
            && Cell(RawItem(w, "p", children, {}, row), "writer") == Null
            && RequestedNested(w, "p", children[1], row) == Num(1)
            && !Intact(w, "p", false, children, row)
  {
    var w := Pages();
    var first, second := M2O("author", "author", "a", [], PLAIN), M2O("writer", "author", "a", [], PLAIN);
    var children := [first, second];
    var row := w.Table("p")[0];
    TwoNodesAreGood(w, first, second);
    assert children[0].IsNested() && children[0].key == children[1].field;
    assert FieldTaken(children, 1);
    AuthorIsRelated(w, map["id" := Num(1)]);
    OverlayWrites(w, "p", children, row, Selected(w, "p", children, {}, row), 1);
  }

  lemma TwoNodesAreGood(w: World, first: Node, second: Node)
    requires w.Primary("p") == "uuid"
    requires first == M2O("author", "author", "a", [], PLAIN) && second == M2O("writer", "author", "a", [], PLAIN)
    ensures SortsFilled([first, second])
    ensures SortFilled(first)
    ensures SortFilled(second)
    ensures Good(w, "p", [first, second], {})
  {
    var children := [first, second];
    assert "author"[0] != "writer"[0] && "author"[0] != "uuid"[0] && "writer"[0] != "uuid"[0];
    assert children[..1] == [first] && [first][..0] == [];
    assert SortsFilled([first][..0]) && SortFilled(first) && SortFilled(second) && SortsFilled([first]);
    assert Good(w, "a", [], {});
    assert Needed(w, "p", children, {}) == {"author", "uuid"};
  }

  // ----- a column alias that hides a key -----

  lemma {:induction false} FindByFinds(values: seq<Value>, k: string, v: Value)
    ensures FindBy(values, k, v) != Null ==> Cell(FieldsOf(FindBy(values, k, v)), k) == v
  {
    if values != [] {
      FindByFinds(values[1..], k, v);
    }
  }

  /** What an item shows under the primary key: the first column requested under its name. */
  lemma ShownUnderPrimary(w: World, c: string, children: seq<Node>, row: Row)
    requires SortsFilled(children)
    requires forall i :: 0 <= i < |children| && children[i].IsNested() ==> children[i].key != w.Primary(c)
    ensures Cell(RawItem(w, c, children, {}, row), w.Primary(c)) == CellFor(w, c, children, row, w.Primary(c))
  {
    OverlayKeeps(w, c, children, row, Selected(w, c, children, {}, row), w.Primary(c));
  }

  lemma {:induction false} FindShown(w: World, c: string, children: seq<Node>, rows: seq<Row>, v: Value)
    requires SortsFilled(children)
    requires forall i :: 0 <= i < |children| && children[i].IsNested() ==> children[i].key != w.Primary(c)
    requires forall i :: 0 <= i < |rows| ==> CellFor(w, c, children, rows[i], w.Primary(c)) == Cell(rows[i], w.Primary(c))
    ensures FindBy(RawAll(w, c, children, {}, rows), w.Primary(c), v)
            == RawOrNull(w, c, children, First(Keep(rows, HavingCell(w.Primary(c), v))))
  {
    if rows != [] {
      FindShown(w, c, children, rows[1..], v);
      ShownUnderPrimary(w, c, children, rows[0]);
    }
  }

  /** A column requested under the name of the primary key: the lookup by key still works for the items
      of the level exactly when each shows the key of its own row there all the same. */
  lemma HiddenPrimaryIff(w: World, c: string, children: seq<Node>, rows: seq<Row>)
    requires SortsFilled(children) && Distinct(rows, w.Primary(c))
    requires forall i :: 0 <= i < |children| && children[i].IsNested() ==> children[i].key != w.Primary(c)
    ensures (forall v :: FindBy(RawAll(w, c, children, {}, rows), w.Primary(c), v)
                         == RawOrNull(w, c, children, First(Keep(rows, HavingCell(w.Primary(c), v)))))
            <==> forall i :: 0 <= i < |rows| ==> CellFor(w, c, children, rows[i], w.Primary(c)) == Cell(rows[i], w.Primary(c))
  {
    var pk := w.Primary(c);
    var raw := RawAll(w, c, children, {}, rows);
    if forall i :: 0 <= i < |rows| ==> CellFor(w, c, children, rows[i], pk) == Cell(rows[i], pk) {
      forall v ensures FindBy(raw, pk, v) == RawOrNull(w, c, children, First(Keep(rows, HavingCell(pk, v)))) {
        FindShown(w, c, children, rows, v);
      }
    } else if forall v :: FindBy(raw, pk, v) == RawOrNull(w, c, children, First(Keep(rows, HavingCell(pk, v)))) {
      forall i | 0 <= i < |rows| ensures CellFor(w, c, children, rows[i], pk) == Cell(rows[i], pk) {
        hide RawItem, CellFor, FindBy;
        FirstOfDistinct(rows, pk, i);
        FindByFinds(raw, pk, Cell(rows[i], pk));
        ShownUnderPrimary(w, c, children, rows[i]);
      }
    }
  }

  lemma FirstOfDistinct(rows: seq<Row>, k: string, i: nat)
    requires Distinct(rows, k) && i < |rows|
    ensures First(Keep(rows, HavingCell(k, Cell(rows[i], k)))) == Some(rows[i])
  {
    var p := HavingCell(k, Cell(rows[i], k));
    var kept := Keep(rows, p);
    KeepMembers(rows, p);
    assert p(rows[i]) && rows[i] in kept;
    assert kept[0] in kept;
    var j :| 0 <= j < |rows| && rows[j] == kept[0];
    assert j == i;
  }

  /** The title requested under the name of the primary key: the item is not found by its key. */
  lemma AliasHidesPrimary()
    ensures var w := Pages();
            var children := [Field("title", "uuid")];
            var row := w.Table("p")[0];
            && SortsFilled(children) && row["uuid"] == Num(9)
            && CellFor(w, "p", children, row, "uuid") == Text("t")
            && FindBy([Obj(RawItem(w, "p", children, {}, row))], "uuid", Num(9)) == Null
  {
    var w := Pages();
    var children := [Field("title", "uuid")];
    var row := w.Table("p")[0];
    assert "title"[0] != "uuid"[0] && "author"[0] != "uuid"[0];
    assert SortFilled(children[0]) && SortsFilled(children[..0]);
    ShownUnderPrimary(w, "p", children, row);
    assert [Obj(RawItem(w, "p", children, {}, row))][1..] == [];
  }

  /** A column requested under the name of a foreign key: the parent shows `v` there, and gets what it
      points at exactly when `v` points at it too. */
  lemma HiddenForeignKeyIff(w: World, c: string, node: Node, row: Row, ids: seq<Value>, v: Value)
    requires Sound(w) && node.M2O? && SortFilled(node) && NodeGood(w, c, node)
    requires v in ids || v == Null
    ensures FindBy(RawAll(w, node.related, node.children, {}, Fetch(w, node.related, M2OQuery(w, node, ids))),
                   w.Primary(node.related), v) == RawNested(w, c, node, row)
            <==> RelatedRow(w, node.related, node.query, v) == RelatedRow(w, node.related, node.query, Cell(row, node.field))
  {
    var query := M2OQuery(w, node, ids);
    FoundIff(w, node.related, node.query, query, node.children, v);
    FindsAnyway(w, c, node, ids, v);
    hide RelatedRow, RawItem, Finds, NodeGood;
    SameRawIff(w, node, v, Cell(row, node.field));
  }

  lemma FindsAnyway(w: World, c: string, node: Node, ids: seq<Value>, v: Value)
    requires Sound(w) && node.M2O? && NodeGood(w, c, node) && (v in ids || v == Null)
    ensures Finds(w, node.related, node.query, M2OQuery(w, node, ids), v)
  {
    var query := M2OQuery(w, node, ids);
    if v == Null {
      NoKeyFindsNothing(w, node.related, node.query, query, v);
    } else {
      hide RelatedRow, Good;
      assert Fetch(w, node.related, query) == Matching(w, node.related, query);
      RelatedThroughPrefilter(w, node.related, node.query, ids, v);
      SameRelated(w, node.related, node.query.(filter := query.filter), query, v);
    }
  }

  lemma SameRelated(w: World, c: string, q: Query, q': Query, v: Value)
    requires q'.sort == q.sort && q'.filter == q.filter
    ensures RelatedRow(w, c, q, v) == RelatedRow(w, c, q', v) == First(Keep(Matching(w, c, q'), HavingCell(w.Primary(c), v)))
  {
    assert Matching(w, c, q) == Matching(w, c, q');
  }

  /** Different related rows have different items. */
  lemma SameRawIff(w: World, node: Node, a: Value, b: Value)
    requires Sound(w) && node.M2O? && SortFilled(node) && Good(w, node.related, node.children, {})
    ensures var x := RelatedRow(w, node.related, node.query, a);
            var y := RelatedRow(w, node.related, node.query, b);
            RawOrNull(w, node.related, node.children, x) == RawOrNull(w, node.related, node.children, y) <==> x == y
  {
    hide RelatedRow, RawItem;
    var x := RelatedRow(w, node.related, node.query, a);
    var y := RelatedRow(w, node.related, node.query, b);
    if x.Some? && y.Some? {
      RelatedRowIsRelated(w, node.related, node.query, a);
      RelatedRowIsRelated(w, node.related, node.query, b);
      RawShowsPrimary(w, node.related, node.children, {}, x.value);
      RawShowsPrimary(w, node.related, node.children, {}, y.value);
      if RawItem(w, node.related, node.children, {}, x.value) == RawItem(w, node.related, node.children, {}, y.value) {
        OneWithKey(w, node.related, x.value, y.value);
      }
    }
  }

  /** The title requested under the name of the foreign key: the parent shows a title that is nobody's
      key, and points at an author. */
  lemma AliasHidesForeignKey()
    ensures var w := Pages();
            var children := [Field("title", "author"), M2O("writer", "author", "a", [], PLAIN)];
            var row := w.Table("p")[0];
            && Cell(Selected(w, "p", children, {}, row), "author") == Text("t")
            && RelatedRow(w, "a", PLAIN, Text("t")) == None
            && RelatedRow(w, "a", PLAIN, Cell(row, "author")) == Some(map["id" := Num(1)])
  {
    var w := Pages();
    var children := [Field("title", "author"), M2O("writer", "author", "a", [], PLAIN)];
    var row := w.Table("p")[0];
    assert "title"[0] != "author"[0] && "title"[0] != "uuid"[0];
    AuthorIsRelated(w, map["id" := Num(1)]);
    NeededAreSelected(w, "p", children, 0);
    assert w.Table("a") == [map["id" := Num(1)]];
    MatchingMembers(w, "a", PLAIN);
    FirstHavingNone(Matching(w, "a", PLAIN), "id", Text("t"));
  }

  /** A parent whose primary key is hidden is given the children of `v`, which are its own exactly when
      the same rows are. */
  lemma HiddenParentKeyIff(w: World, c: string, node: Node, q': Query, ids: seq<Value>, v: Value, key: Value)
    requires Sound(w) && SortFilled(node) && node.O2M? && NodeGood(w, c, node)
    requires v != Null && !v.Obj? && !v.Arr? && v in ids
    requires q'.sort == node.query.sort && q'.filter == MergeIn(node.query.filter, node.field, ids)
    ensures Merged(w, c, node, RawAll(w, node.related, node.children, Extras(node), Matching(w, node.related, q')), v)
            == RawAll(w, node.related, node.children, Extras(node), MergedRows(w, node, key))
            <==> MergedRows(w, node, v) == MergedRows(w, node, key)
  {
    hide Matching, MergedRows, RawItem;
    MergedAreLinked(w, c, node, q', v);
    MergedMembers(w, node, v);
    MergedMembers(w, node, key);
    SameItemsIff(w, node.related, node.children, Extras(node), MergedRows(w, node, v), MergedRows(w, node, key));
  }

  lemma MergedMembers(w: World, node: Node, key: Value)
    requires node.O2M? && node.query.sort != []
    ensures forall r :: r in MergedRows(w, node, key) ==> r in w.Table(node.related)
  {
    LinkedMembers(w, node, key);
  }

  lemma SameItemsIff(w: World, c: string, children: seq<Node>, extras: set<string>, a: seq<Row>, b: seq<Row>)
    requires Sound(w) && SortsFilled(children) && KeysGood(w, c, children, extras)
    requires (forall r :: r in a ==> r in w.Table(c)) && forall r :: r in b ==> r in w.Table(c)
    ensures RawAll(w, c, children, extras, a) == RawAll(w, c, children, extras, b) <==> a == b
  {
    hide RawItem, KeysGood;
    var x, y := RawAll(w, c, children, extras, a), RawAll(w, c, children, extras, b);
    if x == y {
      assert |a| == |x| == |b|;
      forall i | 0 <= i < |a| ensures a[i] == b[i] {
        assert x[i] == y[i];
        assert a[i] in a && b[i] in b;
        RawShowsPrimary(w, c, children, extras, a[i]);
        RawShowsPrimary(w, c, children, extras, b[i]);
        OneWithKey(w, c, a[i], b[i]);
      }
    }
  }

  // ----- a sort column that is hidden by a node -----

  /** `Array.prototype.sort`'s question of `mergeWithParentItems`.  Two items are different objects: never
      identical, and neither is less. */
  function Compare(a: Value, b: Value, desc: bool): int {
    if Identical(a, b) then 0
    else if a == Null then 1
    else if b == Null then -1
    else if !desc then (if Less(a, b) then -1 else 1)
    else (if Less(a, b) then 1 else -1)
  }

  predicate Identical(a: Value, b: Value) {
    !a.Obj? && !a.Arr? && a == b
  }

  predicate Less(a: Value, b: Value) {
    || (a.Num? && b.Num? && a.n < b.n)
    || (a.Text? && b.Text? && a.s != b.s && TextLeq(a.s, b.s))
  }

  predicate IsItem(v: Value) {
    v.Obj? || v.Arr?
  }

  /** Values of one column: cells of one type or items, and nulls. */
  predicate OneKind(a: Value, b: Value) {
    a == Null || b == Null || (a.Num? && b.Num?) || (a.Text? && b.Text?) || (IsItem(a) && IsItem(b))
  }

  lemma {:induction false} TextAntisymmetric(a: string, b: string)
    requires TextLeq(a, b) && TextLeq(b, a)
    ensures a == b
  {
    if a != "" {
      TextAntisymmetric(a[1..], b[1..]);
      assert a == [a[0]] + a[1..] && b == [b[0]] + b[1..];
    }
  }

  /** The comparison answers one way for a pair and the other way for the pair reversed, exactly unless
      both are items: under the key of a node there is no order to sort by. */
  lemma ComparisonIsOrderIff(a: Value, b: Value, desc: bool)
    requires OneKind(a, b)
    ensures Compare(a, b, desc) == -Compare(b, a, desc) <==> !(IsItem(a) && IsItem(b))
    ensures !IsItem(a) && !IsItem(b) ==> (Compare(a, b, desc) <= 0 <==> ValueLeq(a, b, desc))
  {
    if a.Text? && b.Text? {
      TextTotal(a.s, b.s);
      if TextLeq(a.s, b.s) && TextLeq(b.s, a.s) {
        TextAntisymmetric(a.s, b.s);
      }
    }
  }

  /** The title requested under the name of the sort column: children are sorted by it. */
  lemma AliasHidesSortColumn(w: World)
    requires w.Primary("posts") == "id" && "title" in w.Fields("posts")
    ensures var o := Order("date", false);
            var node := O2M("posts", "author", "posts", None, [Field("title", "date")], PLAIN.(sort := [o]));
            var first: Row := map["date" := Num(1), "title" := Text("b")];
            var second: Row := map["date" := Num(2), "title" := Text("a")];
            ItemLeq(o)(first, second) && !ChildLeq(w, node)(first, second) && ChildLeq(w, node)(second, first)
  {
    var o := Order("date", false);
    var node := O2M("posts", "author", "posts", None, [Field("title", "date")], PLAIN.(sort := [o]));
    var first: Row := map["date" := Num(1), "title" := Text("b")];
    var second: Row := map["date" := Num(2), "title" := Text("a")];
    assert "date"[0] != "title"[0] && "date"[0] != "id"[0];
    NeededAreSelected(w, "posts", node.children, 0);
    assert Shown(w, node, first) == Text("b") && Shown(w, node, second) == Text("a");
    ChildLeqShown(w, node, first, second);
    ChildLeqShown(w, node, second, first);
    assert "b"[0] == 'b' && "a"[0] == 'a';
    assert ItemLeq(o)(first, second) == ValueLeq(Cell(first, o.column), Cell(second, o.column), o.desc);
  }

  // ----- a parent that is not given back -----

  /** An author and a post of the author's. */
  function Authors(): World {
    Small(map["authors" := Collection("id", {"id"}), "posts" := Collection("id", {"id", "author"})],
          map["authors" := [map["id" := Num(1)]], "posts" := [map["id" := Num(2), "author" := Num(1)]]])
  }

  /** The posts of an author, who is requested back through a filter that nobody passes: a well-formed
      tree, and the author is left without posts. */
  lemma FilteredWayBackLosesChildren()
    ensures var w := Authors();
            var back := M2O("author", "author", "authors", [], PLAIN.(filter := Filter([On("id", Where(_ => false))])));
            var node := O2M("posts", "author", "posts", None, [back], PLAIN.(sort := [Order("id", false)]));
            var author := w.Table("authors")[0];
            && Sound(w) && SortsFilled([node]) && Good(w, "authors", [node], {})
            && LinkedRows(w, node, Num(1)) == w.Table("posts") && MergedRows(w, node, Num(1)) == []
            && !Intact(w, "authors", false, [node], author)
  {
    var w := Authors();
    var back := M2O("author", "author", "authors", [], PLAIN.(filter := Filter([On("id", Where(_ => false))])));
    var node := O2M("posts", "author", "posts", None, [back], PLAIN.(sort := [Order("id", false)]));
    var author := w.Table("authors")[0];
    AuthorsAreGood(w, node, back);
    AuthorHasPosts(w, node);
    assert IsWayBack(node, node.children[0]);
    MatchingMembers(w, "authors", back.query);
    forall r: Row ensures !Holds(back.query.filter, r) {
      assert back.query.filter.clauses[0] == On("id", Where(_ => false));
    }
    FirstHavingNone(Matching(w, "authors", back.query), "id", Num(1));
    assert !WayBackShows(w, node, Num(1));
    assert [node][0].IsNested() && SortFilled([node][0]) && !FieldTaken([node], 0);
  }

  lemma AuthorsAreGood(w: World, node: Node, back: Node)
    requires w == Authors()
    requires back.M2O? && back == M2O("author", "author", "authors", [], back.query) && back.query.offset == 0
    requires NoInOn(back.query.filter, "id")
    requires node == O2M("posts", "author", "posts", None, [back], PLAIN.(sort := [Order("id", false)]))
    ensures Sound(w) && SortsFilled([node]) && Good(w, "authors", [node], {})
  {
    AuthorsAreSound();
    assert "author"[0] != "id"[0] && "posts"[0] != "id"[0];
    assert [back][..0] == [] && [node][..0] == [];
    assert SortsFilled([back][..0]) && SortFilled(back) && SortsFilled([back]) && SortFilled(node);
    BackIsGood(w, back);
    hide Sound, Good, NodeGood;
    AuthorIsSelected(w, node, back);
    assert O2MGood(w, "authors", node);
    assert KeysGood(w, "authors", [node], {});
    OneNodeIsGood(w, node, back);
  }

  lemma AuthorsAreSound()
    ensures Sound(Authors()) && Authors().Primary("posts") == "id" && Authors().Primary("authors") == "id"
    ensures "author" in Authors().Fields("posts")
  {
    assert |"authors"| != |"posts"|;
  }

  lemma BackIsGood(w: World, back: Node)
    requires w.Primary("posts") == "id" && w.Primary("authors") == "id"
    requires back.M2O? && back == M2O("author", "author", "authors", [], back.query) && back.query.offset == 0
    requires NoInOn(back.query.filter, "id")
    ensures Good(w, "posts", [back], {"author"})
  {
    assert "author"[0] != "id"[0];
    assert Good(w, "authors", [], {});
    assert NodeGood(w, "posts", back);
    assert KeysGood(w, "posts", [back], {"author"});
  }

  lemma AuthorIsSelected(w: World, node: Node, back: Node)
    requires "author" in w.Fields("posts") && back.M2O?
    requires node.O2M? && node == O2M("posts", "author", "posts", None, [back], node.query)
    ensures Extras(node) == {"author"} && ForeignKeyShown(w, node)
  {
  }

  lemma OneNodeIsGood(w: World, node: Node, back: Node)
    requires node.O2M? && KeysGood(w, "authors", [node], {}) && O2MGood(w, "authors", node)
    requires Good(w, node.related, node.children, Extras(node))
    ensures Good(w, "authors", [node], {})
  {
    assert NodeGood(w, "authors", node);
  }

  lemma AuthorHasPosts(w: World, node: Node)
    requires w == Authors() && node.O2M? && node.related == "posts" && node.field == "author"
    requires node.query == PLAIN.(sort := [Order("id", false)])
    ensures LinkedRows(w, node, Num(1)) == w.Table("posts")
  {
    var rows := w.Table("posts");
    KeepAll(rows, Passes(ANYTHING));
    SortOfSorted(rows, w.before("posts", node.query.sort));
    KeepAll(rows, LinkedTo(node, Num(1)));
    SortOfSorted(rows, ChildLeq(w, node));
  }

  // ----- bare items -----

  /** A bare many-to-one node in a branch is read under the primary key of the branch. */
  lemma BareInBranchIff(w: World, c: string, node: Node, row: Row)
    requires Sound(w) && node.M2O? && node.children == [] && SortFilled(node)
    ensures NodeStripped(w, c, true, node, row) == RequestedNested(w, c, node, row)
            <==> w.Primary(node.related) == w.Primary(c)
                 || RelatedRow(w, node.related, node.query, Cell(row, node.field)).None?
  {
    hide RelatedRow;
    if RelatedRow(w, node.related, node.query, Cell(row, node.field)).Some? {
      BareIsReadBy(w, node.related, node.query, Cell(row, node.field), w.Primary(c));
    }
  }

  /** A bare branch of a many-to-any node is read under the primary key of the parents' collection. */
  lemma BareBranchIff(w: World, c: string, inBranch: bool, node: Node, row: Row)
    requires Sound(w) && node.A2O? && SortFilled(node)
    requires var b := BranchFor(node.branches, Cell(row, node.collectionField)); b.Some? && b.value.children == []
    ensures var b := BranchFor(node.branches, Cell(row, node.collectionField)).value;
            NodeStripped(w, c, inBranch, node, row) == RequestedNested(w, c, node, row)
            <==> w.Primary(b.collection) == w.Primary(c)
                 || RelatedRow(w, b.collection, b.query, Cell(row, node.field)).None?
  {
    hide RelatedRow;
    var b := BranchFor(node.branches, Cell(row, node.collectionField)).value;
    if RelatedRow(w, b.collection, b.query, Cell(row, node.field)).Some? {
      BareIsReadBy(w, b.collection, b.query, Cell(row, node.field), w.Primary(c));
    }
  }

  /** An allowed collection of which nothing is requested, its key under another name than the parents':
      a well-formed tree that yields null for a row that is there. */
  lemma BareBranchGetsNull()
    ensures var w := Pages();
            var node := A2O("item", "item", "collection", [Branch("a", [], PLAIN)]);
            var row: Row := map["uuid" := Num(9), "item" := Num(1), "collection" := Text("a")];
            && SortsFilled([node]) && Good(w, "p", [node], {})
            && NodeStripped(w, "p", false, node, row) == Null
            && RequestedNested(w, "p", node, row) == Num(1)
            && !Intact(w, "p", false, [node], row)
  {
    var w := Pages();
    var node := A2O("item", "item", "collection", [Branch("a", [], PLAIN)]);
    var row: Row := map["uuid" := Num(9), "item" := Num(1), "collection" := Text("a")];
    BareTreeIsGood(w, node);
    hide Good;
    assert BranchFor(node.branches, Text("a")) == Some(node.branches[0]);
    AuthorIsRelated(w, map["id" := Num(1)]);
    BareBranch(w, "a", map["id" := Num(1)]);
    assert [node][0].IsNested() && SortFilled([node][0]) && !FieldTaken([node], 0);
  }

  lemma BareTreeIsGood(w: World, node: Node)
    requires w.Primary("p") == "uuid" && node == A2O("item", "item", "collection", [Branch("a", [], PLAIN)])
    ensures SortsFilled([node])
    ensures SortFilled(node)
    ensures Good(w, "p", [node], {})
  {
    assert [node][..0] == [];
    assert SortsFilled([node][..0]) && SortFilled(node);
    BareNodeIsGood(w, node);
    hide NodeGood;
    assert "item"[0] != "uuid"[0] && "item"[0] != "collection"[0];
    assert KeysGood(w, "p", [node], {});
  }

  lemma BareNodeIsGood(w: World, node: Node)
    requires w.Primary("p") == "uuid" && node == A2O("item", "item", "collection", [Branch("a", [], PLAIN)])
    ensures NodeGood(w, "p", node)
  {
    assert Good(w, "a", [], {});
    assert BranchIsGood(w, node.branches[0]);
  }

  // ----- the columns of a branch -----

  /** One aliased column in a branch: of the alias and the primary key that the run adds for itself,
      the name picks the second or neither. */
  lemma AliasedColumnKeys(w: World, c: string, name: string, key: string)
    requires w.Primary(c) == "id" && name in w.Fields(c) && key != name && key != "id"
    ensures var children := [Field(name, key)];
            && LeftKeys(w, c, true, children, {}) == (if name == "id" then {"id"} else {})
            && RequestedKeys(w, c, children) == {key}
            && SortsFilled(children) && KeysGood(w, c, children, {})
  {
    var children := [Field(name, key)];
    assert children[1..] == [] && SortsFilled(children[..0]);
    assert PickedKey(true, children[0]) == name;
    assert IsRequested(w, c, children[0]);
    assert ColumnKeys(w, c, []) == {};
    assert SelectKeys(w, c, children, {}) == {"id", key};
    assert NestedKeys(children) == {};
    assert PickedKeys(true, children) == {name};
  }

  /** The primary key requested under another key, in a branch: what is left is the key the run added
      for itself, which nobody requested. */
  lemma InjectedKeyIsLeft(w: World, c: string, row: Row)
    requires w.Primary(c) == "id" && "id" in w.Fields(c)
    ensures var children := [Field("id", "key")];
            var r := StripItem(w, c, "id", true, children, RawItem(w, c, children, {}, row));
            && r == Obj(map["id" := Cell(row, "id")])
            && Requested(w, c, children, row) == Obj(map["key" := Cell(row, "id")])
  {
    var children := [Field("id", "key")];
    assert "id"[0] != "key"[0];
    AliasedColumnKeys(w, c, "id", "key");
    var raw := RawItem(w, c, children, {}, row);
    assert children[..0] == [];
    assert StripNested(w, c, true, children, raw) == raw;
    RawShowsPrimary(w, c, children, {}, row);
    OverlayKeys(w, c, children, row, Selected(w, c, children, {}, row));
    assert NestedKeys(children) == {};
    SelectedShows(w, c, children, {}, row, "id");
    OverlayKeeps(w, c, children, row, Selected(w, c, children, {}, row), "id");
    assert Pick(raw, PickedKeys(true, children)).Keys == LeftKeys(w, c, true, children, {});
  }

  /** Any other column under another key is dropped. */
  lemma AliasIsDropped(w: World, c: string, row: Row)
    requires w.Primary(c) == "id" && "title" in w.Fields(c)
    ensures var children := [Field("title", "headline")];
            && StripItem(w, c, "id", true, children, RawItem(w, c, children, {}, row)) == Obj(map[])
            && Requested(w, c, children, row) == Obj(map["headline" := Cell(row, "title")])
  {
    var children := [Field("title", "headline")];
    assert "title"[0] != "headline"[0] && "title"[0] != "id"[0] && "headline"[0] != "id"[0];
    AliasedColumnKeys(w, c, "title", "headline");
    var raw := RawItem(w, c, children, {}, row);
    assert children[..0] == [];
    assert StripNested(w, c, true, children, raw) == raw;
    OverlayKeys(w, c, children, row, Selected(w, c, children, {}, row));
    assert NestedKeys(children) == {};
    assert Pick(raw, PickedKeys(true, children)).Keys == LeftKeys(w, c, true, children, {});
  }
}
