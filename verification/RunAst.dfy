/**
 `runAST`: one fetch per level and batch, merged into the parents in place, comes out as the nested join has it.
 */
module RunAst {
  import opened Rows
  import opened Wrappers
  import opened QueryModel
  import opened NestedJoin
  import opened Unstripped
  import opened Merging
  import opened Batches
  import opened Windows
  import opened Stripping
  import opened Counts

  /** The items of a fetch, as the values a parent holds. */
  function Wrap(items: seq<Item>): (r: seq<Value>)
    ensures |r| == |items|
    ensures forall i :: 0 <= i < |items| ==> r[i] == Obj(items[i])
  {
    if items == [] then [] else [Obj(items[0])] + Wrap(items[1..])
  }

  ghost predicate RawOf(w: World, c: string, children: seq<Node>, extras: set<string>, rows: seq<Row>, items: seq<Item>)
    requires SortsFilled(children)
  {
    |items| == |rows| && forall i :: 0 <= i < |rows| ==> items[i] == RawItem(w, c, children, extras, rows[i])
  }

  lemma WrapRaw(w: World, c: string, children: seq<Node>, extras: set<string>, rows: seq<Row>, items: seq<Item>)
    requires SortsFilled(children) && RawOf(w, c, children, extras, rows, items)
    ensures Wrap(items) == RawAll(w, c, children, extras, rows)
  {
  }

  // ----- merging in place -----

  method MergeM2O(w: World, node: Node, nested: seq<Value>, parents: seq<Item>) returns (merged: seq<Item>)
    requires node.M2O?
    ensures |merged| == |parents|
    ensures forall i :: 0 <= i < |parents| ==>
              merged[i] == parents[i][node.key := FindBy(nested, w.Primary(node.related), Cell(parents[i], node.field))]
  {
    merged := parents;
    for i := 0 to |parents|
      invariant |merged| == |parents|
      invariant forall j :: 0 <= j < i ==>
                  merged[j] == parents[j][node.key := FindBy(nested, w.Primary(node.related), Cell(parents[j], node.field))]
      invariant forall j :: i <= j < |parents| ==> merged[j] == parents[j]
    {
      var child := FindBy(nested, w.Primary(node.related), Cell(merged[i], node.field));
      merged := merged[i := merged[i][node.key := child]];
    }
  }

  ghost predicate MergedWith(w: World, c: string, node: Node, batch: seq<Value>, parents: seq<Item>, merged: seq<Item>)
    requires node.O2M? && node.query.sort != []
  {
    && |merged| == |parents|
    && forall i :: 0 <= i < |parents| ==>
         merged[i] == AfterBatch(w, c, node, batch, parents[i])
  }

  /** The children of one parent after a batch: appended, cut to the window of the query, sorted. */
  method MergeIntoParent(w: World, c: string, node: Node, batch: seq<Value>, parent: Item) returns (children: seq<Value>)
    requires node.O2M? && node.query.sort != []
    ensures children == ChildrenAfter(w, c, node, batch, parent)
  {
    hide Keep, Sort, Existing, MatchesParent, LimitOf, Drop, Take;
    var limit := LimitOf(w, node.query);
    children := Existing(parent, node.key)
                + Keep(batch, MatchesParent(node.field, w.Primary(c), Cell(parent, w.Primary(c))));
    ghost var all := children;
    var paged := 0;
    if node.query.page > 1 && limit > -1 {
      paged := limit * (node.query.page - 1);
      children := Drop(children, paged);
    }
    if node.query.offset > 0 {
      children := Drop(children, node.query.offset);
    }
    DropTwice(all, paged, node.query.offset);
    children := Take(children, limit);
    children := Sort(children, ValuesLeq(node.query.sort[0]));
  }

  method MergeO2M(w: World, c: string, node: Node, batch: seq<Value>, parents: seq<Item>) returns (merged: seq<Item>)
    requires node.O2M? && node.query.sort != []
    ensures MergedWith(w, c, node, batch, parents, merged)
  {
    hide ChildrenAfter;
    merged := parents;
    for i := 0 to |parents|
      invariant |merged| == |parents|
      invariant forall j :: 0 <= j < i ==>
                  merged[j] == parents[j][node.key := Arr(ChildrenAfter(w, c, node, batch, parents[j]))]
      invariant forall j :: i <= j < |parents| ==> merged[j] == parents[j]
    {
      var children := MergeIntoParent(w, c, node, batch, merged[i]);
      merged := merged[i := merged[i][node.key := Arr(children)]];
    }
  }

  lemma DropTwice<T>(s: seq<T>, m: nat, n: nat)
    ensures Drop(Drop(s, m), n) == Drop(s, m + n)
    ensures Drop(s, 0) == s
  {
  }

  method MergeA2O(w: World, node: Node, results: Results, parents: seq<Item>) returns (merged: seq<Item>)
    requires node.A2O?
    ensures |merged| == |parents|
    ensures forall i :: 0 <= i < |parents| ==>
              merged[i] == parents[i][node.key :=
                FindAny(w, results, Cell(parents[i], node.collectionField), Cell(parents[i], node.key))]
  {
    merged := parents;
    for i := 0 to |parents|
      invariant |merged| == |parents|
      invariant forall j :: 0 <= j < i ==>
                  merged[j] == parents[j][node.key :=
                    FindAny(w, results, Cell(parents[j], node.collectionField), Cell(parents[j], node.key))]
      invariant forall j :: i <= j < |parents| ==> merged[j] == parents[j]
    {
      var relatedCollection := Cell(merged[i], node.collectionField);
      if relatedCollection.Text? && relatedCollection.s in results {
        var child := FindBy(results[relatedCollection.s], w.Primary(relatedCollection.s), Cell(merged[i], node.key));
        merged := merged[i := merged[i][node.key := child]];
      } else {
        merged := merged[i := merged[i][node.key := Null]];
      }
    }
  }

  // ----- one node -----

  /** The parents of a node: what was selected for each row, what earlier nodes made of it, and that
      the node still finds the columns it reads, or nothing of a key in their place. */
  ghost predicate ParentsOf(w: World, c: string, node: Node, rows: seq<Row>, selected: seq<Item>, items: seq<Item>) {
    && |selected| == |rows| && |items| == |rows|
    && (forall i :: 0 <= i < |rows| ==> rows[i] in w.Table(c))
    && Shows(rows, selected, w.Primary(c)) && Shows(rows, items, w.Primary(c))
    && (node.M2O? ==> Shows(rows, selected, node.field) && (Shows(rows, items, node.field) || Taken(items, node.field)))
    && (node.A2O? ==>
          && Shows(rows, selected, node.field) && Shows(rows, selected, node.collectionField)
          && (KeysShow(node, rows, items) || Taken(items, node.key) || Taken(items, node.collectionField)))
    && (node.O2M? ==> forall i :: 0 <= i < |items| ==> node.key !in items[i])
  }

  ghost predicate Nests(w: World, c: string, node: Node, rows: seq<Row>, items: seq<Item>, merged: seq<Item>)
    requires SortFilled(node) && node.IsNested() && |items| == |rows|
  {
    && |merged| == |items|
    && forall i :: 0 <= i < |items| ==> merged[i] == items[i][node.key := RawNested(w, c, node, rows[i])]
  }

  /** One fetch and the merge: every parent gets the row it points at, or null, exactly when the window
      of the fetch fits; where the foreign key has been taken every parent gets null, which is right
      exactly when none points at a row. */
  method RunM2O(w: World, batchSize: nat, c: string, node: Node, selected: seq<Item>, items: seq<Item>, ghost rows: seq<Row>)
    returns (merged: seq<Item>)
    requires batchSize > 0 && Sound(w) && node.M2O? && SortFilled(node) && Good(w, node.related, node.children, {})
    requires ParentsOf(w, c, node, rows, selected, items)
    ensures Nests(w, c, node, rows, items, merged) <==> M2OFits(w, c, node, selected, rows, items)
    ensures |merged| == |items|
    ensures Taken(items, node.field) ==> forall i :: 0 <= i < |items| ==> merged[i] == items[i][node.key := Null]
    decreases node, 1
  {
    hide Good, Sound, RawOf;
    var query := M2OQuery(w, node, ParentIds(selected, node.field));
    var nested := Run(w, batchSize, node.related, node.children, {}, query);
    merged := MergeM2O(w, node, Wrap(nested), items);
    WrapRaw(w, node.related, node.children, {}, Fetch(w, node.related, query), nested);
    hide RawNested, M2OFits, FindBy, M2OQuery;
    M2OFoundIff(w, c, node, selected, rows, items);
    forall i | 0 <= i < |items|
      ensures merged[i] == items[i][node.key := RawNested(w, c, node, rows[i])]
              <==> FindBy(Wrap(nested), w.Primary(node.related), Cell(items[i], node.field)) == RawNested(w, c, node, rows[i])
    {
      SameUpdate(items[i], node.key, RawNested(w, c, node, rows[i]),
                 FindBy(Wrap(nested), w.Primary(node.related), Cell(items[i], node.field)));
    }
  }

  lemma BatchIsSlice(w: World, c: string, q: Query, size: nat, offset: nat)
    requires size > 0 && offset <= |Matching(w, c, q)|
    ensures var rows := Matching(w, c, q);
            var end := if offset + size <= |rows| then offset + size else |rows|;
            Fetch(w, c, q.(limit := Some(size), offset := offset, page := 0)) == rows[offset..end]
  {
    var rows := Matching(w, c, q);
    assert Matching(w, c, q.(limit := Some(size), offset := offset, page := 0)) == rows;
    assert Drop(rows, offset) == rows[offset..];
  }

  /** All the children of a node there are to fetch. */
  ghost function RawChildren(w: World, node: Node, query: Query): seq<Value>
    requires node.O2M? && SortFilled(node)
  {
    RawAll(w, node.related, node.children, Extras(node), Matching(w, node.related, query))
  }

  function BatchQuery(query: Query, size: nat, offset: nat): Query {
    query.(limit := Some(size), offset := offset, page := 0)
  }

  /** The items of one batch, as a slice of all the children. */
  lemma BatchFetched(w: World, size: nat, node: Node, query: Query, offset: nat, nested: seq<Item>)
    requires size > 0 && node.O2M? && SortFilled(node) && offset <= |RawChildren(w, node, query)|
    requires RawOf(w, node.related, node.children, Extras(node),
                   Fetch(w, node.related, BatchQuery(query, size, offset)), nested)
    ensures |nested| <= size && offset + |nested| <= |RawChildren(w, node, query)|
    ensures |nested| < size ==> offset + |nested| == |RawChildren(w, node, query)|
    ensures Wrap(nested) == RawChildren(w, node, query)[offset..offset + |nested|]
  {
    hide Matching, Extras;
    var fetched := Matching(w, node.related, query);
    BatchIsSlice(w, node.related, query, size, offset);
    WrapRaw(w, node.related, node.children, Extras(node), fetched[offset..offset + |nested|], nested);
    RawSlice(w, node.related, node.children, Extras(node), fetched, offset, offset + |nested|);
  }

  lemma RawSlice(w: World, c: string, children: seq<Node>, extras: set<string>, rows: seq<Row>, n: nat, m: nat)
    requires SortsFilled(children) && n <= m <= |rows|
    ensures RawAll(w, c, children, extras, rows[n..m]) == RawAll(w, c, children, extras, rows)[n..m]
  {
  }

  /** Where the merging stands: the rows still to come, merged into what there is, give what all of
      them give. */
  ghost predicate MergingAt(w: World, c: string, node: Node, size: nat, raw: seq<Value>, n: nat, items: seq<Item>, merged: seq<Item>)
    requires node.O2M? && node.query.sort != [] && size > 0
  {
    && n <= |raw| && |merged| == |items|
    && forall i :: 0 <= i < |items| ==>
         AfterBatches(w, c, node, raw[n..], size, merged[i]) == AfterBatches(w, c, node, raw, size, items[i])
  }

  ghost predicate AllMerged(w: World, c: string, node: Node, size: nat, raw: seq<Value>, items: seq<Item>, merged: seq<Item>)
    requires node.O2M? && node.query.sort != [] && size > 0
  {
    && |merged| == |items|
    && forall i :: 0 <= i < |items| ==> merged[i] == AfterBatches(w, c, node, raw, size, items[i])
  }

  /** One batch of the loop, merged. */
  lemma BatchMerged(w: World, c: string, node: Node, size: nat, raw: seq<Value>, n: nat, m: nat,
                    items: seq<Item>, before: seq<Item>, after: seq<Item>)
    requires node.O2M? && node.query.sort != [] && size > 0
    requires MergingAt(w, c, node, size, raw, n, items, before) && n <= m <= |raw|
    requires MergedWith(w, c, node, raw[n..m], before, after)
    ensures m == n + size ==> MergingAt(w, c, node, size, raw, m, items, after)
    ensures m < n + size && m == |raw| ==> AllMerged(w, c, node, size, raw, items, after)
  {
    hide AfterBatch;
    assert raw[n..][..m - n] == raw[n..m] && raw[n..][m - n..] == raw[m..];
    assert m == |raw| ==> raw[n..] == raw[n..m];
    forall i | 0 <= i < |items| ensures after[i] == AfterBatch(w, c, node, raw[n..m], before[i]) { }
  }

  /** Fetch one batch of children and merge it: the next rows, all of them if it is not full. */
  method NextBatch(w: World, batchSize: nat, c: string, node: Node, query: Query, offset: nat, items: seq<Item>, before: seq<Item>)
    returns (after: seq<Item>, count: nat)
    requires batchSize > 0 && Sound(w)
    requires node.O2M? && SortFilled(node) && Good(w, node.related, node.children, Extras(node))
    requires MergingAt(w, c, node, batchSize, RawChildren(w, node, query), offset, items, before)
    ensures count <= batchSize && offset + count <= |RawChildren(w, node, query)|
    ensures count == batchSize ==>
              MergingAt(w, c, node, batchSize, RawChildren(w, node, query), offset + count, items, after)
    ensures count < batchSize ==> AllMerged(w, c, node, batchSize, RawChildren(w, node, query), items, after)
    decreases node, 0
  {
    hide Good, Sound, RawOf, RawChildren, MergedWith, AfterBatches;
    var nestedItems := Run(w, batchSize, node.related, node.children, Extras(node), BatchQuery(query, batchSize, offset));
    count := |nestedItems|;
    BatchFetched(w, batchSize, node, query, offset, nestedItems);
    after := MergeO2M(w, c, node, Wrap(nestedItems), before);
    assert node.query.sort != [] && MergedWith(w, c, node, RawChildren(w, node, query)[offset..offset + count], before, after);
    hide *;
    BatchMerged(w, c, node, batchSize, RawChildren(w, node, query), offset, offset + count, items, before, after);
  }

  method FetchBatches(w: World, batchSize: nat, c: string, node: Node, query: Query, items: seq<Item>)
    returns (merged: seq<Item>)
    requires batchSize > 0 && Sound(w)
    requires node.O2M? && SortFilled(node) && Good(w, node.related, node.children, Extras(node))
    ensures AllMerged(w, c, node, batchSize, RawChildren(w, node, query), items, merged)
    decreases node, 1
  {
    hide Good, Sound, RawChildren, AfterBatches;
    ghost var raw := RawChildren(w, node, query);
    assert raw[0..] == raw;
    merged := items;
    var hasMore := true;
    var batchCount := 0;
    while hasMore
      invariant hasMore ==> MergingAt(w, c, node, batchSize, raw, batchCount * batchSize, items, merged)
      invariant !hasMore ==> AllMerged(w, c, node, batchSize, raw, items, merged)
      decreases hasMore, |raw| - batchCount * batchSize
    {
      var nestedCount;
      merged, nestedCount := NextBatch(w, batchSize, c, node, query, batchCount * batchSize, items, merged);
      if nestedCount < batchSize {
        hasMore := false;
      }
      batchCount := batchCount + 1;
      assert batchCount * batchSize == (batchCount - 1) * batchSize + batchSize;
    }
  }

  /** The batches of a node and the merge: every parent gets the children the merge links to it, which
      are all that name it exactly when it was given back to them or there are none. */
  method RunO2M(w: World, batchSize: nat, c: string, node: Node, selected: seq<Item>, items: seq<Item>, ghost rows: seq<Row>)
    returns (merged: seq<Item>)
    requires batchSize > 0 && Sound(w) && node.O2M? && SortFilled(node) && NodeGood(w, c, node)
    requires ParentsOf(w, c, node, rows, selected, items) && node.key != w.Primary(c)
    ensures Nests(w, c, node, rows, items, merged)
    ensures forall i :: 0 <= i < |items| ==>
              (merged[i] == items[i][node.key := NaiveNested(w, c, node, rows[i])] <==> ChildrenGiven(w, c, node, rows[i]))
    decreases node, 2
  {
    hide Good, Sound, AfterBatches;
    var ids := ParentIds(selected, w.Primary(c));
    var query := node.query.(filter := MergeIn(node.query.filter, node.field, ids));
    merged := FetchBatches(w, batchSize, c, node, query, items);
    ghost var raw := RawChildren(w, node, query);
    forall i | 0 <= i < |items| ensures merged[i] == items[i][node.key := RawNested(w, c, node, rows[i])] {
      var key := Cell(rows[i], w.Primary(c));
      KeyIsScalar(w, c, rows[i]);
      assert Cell(selected[i], w.Primary(c)) in ids;
      BatchesMerge(w, c, node, raw, batchSize, items[i]);
      assert Merged(w, c, node, raw, key) == RawAll(w, node.related, node.children, Extras(node), MergedRows(w, node, key)) by {
        MergedAreLinked(w, c, node, query, key);
      }
    }
    forall i | 0 <= i < |items|
      ensures merged[i] == items[i][node.key := NaiveNested(w, c, node, rows[i])] <==> ChildrenGiven(w, c, node, rows[i])
    {
      hide LinkedRows, WayBackShows;
      SameUpdate(items[i], node.key, NaiveNested(w, c, node, rows[i]), RawNested(w, c, node, rows[i]));
    }
  }

  /** The items of all the children that name the parent. */
  function NaiveNested(w: World, c: string, node: Node, row: Row): Value
    requires node.O2M? && SortFilled(node)
  {
    Arr(RawAll(w, node.related, node.children, Extras(node), LinkedRows(w, node, Cell(row, w.Primary(c)))))
  }

  /** The parent was given back to its children, or there are none for it. */
  ghost predicate ChildrenGiven(w: World, c: string, node: Node, row: Row)
    requires node.O2M? && SortFilled(node)
  {
    WayBackShows(w, node, Cell(row, w.Primary(c))) || LinkedRows(w, node, Cell(row, w.Primary(c))) == []
  }

  /** One fetch for each branch, and the merge: every parent gets the row it points at exactly when the
      node fits. */
  method RunA2O(w: World, batchSize: nat, c: string, node: Node, selected: seq<Item>, items: seq<Item>, ghost rows: seq<Row>)
    returns (merged: seq<Item>)
    requires batchSize > 0 && Sound(w) && node.A2O? && SortFilled(node) && BranchesGood(w, node)
    requires ParentsOf(w, c, node, rows, selected, items)
    ensures Nests(w, c, node, rows, items, merged) <==> A2OFits(w, c, node, selected, rows, items)
    decreases node, 1
  {
    hide Sound, Good, RawOf, BranchesGood, Fetch;
    var results: Results := map[];
    for n := 0 to |node.branches|
      invariant ResultsOf(w, node, n, selected, results)
    {
      hide ResultsOf;
      var b := node.branches[n];
      var ids := BranchIds(node, b, selected);
      assert Good(w, b.collection, b.children, {}) by { BranchGoodAt(w, node, n); }
      var nested := Run(w, batchSize, b.collection, b.children, {}, BranchQuery(w, b, ids));
      WrapRaw(w, b.collection, b.children, {}, Fetch(w, b.collection, BranchQuery(w, b, ids)), nested);
      ResultsGrow(w, node, n, selected, results);
      results := results[b.collection := Wrap(nested)];
    }
    merged := MergeA2O(w, node, results, items);
    hide ResultsOf, RawNested, A2OFits, FindAny;
    A2OFoundIff(w, c, node, selected, rows, items, results);
    forall j | 0 <= j < |items|
      ensures merged[j] == items[j][node.key := RawNested(w, c, node, rows[j])]
              <==> FindAny(w, results, Cell(items[j], node.collectionField), Cell(items[j], node.key)) == RawNested(w, c, node, rows[j])
    {
      SameUpdate(items[j], node.key, RawNested(w, c, node, rows[j]),
                 FindAny(w, results, Cell(items[j], node.collectionField), Cell(items[j], node.key)));
    }
  }

  lemma BranchGoodAt(w: World, node: Node, n: nat)
    requires node.A2O? && BranchesGood(w, node) && n < |node.branches|
    ensures Good(w, node.branches[n].collection, node.branches[n].children, {})
  {
  }

  lemma SameUpdate(item: Item, k: string, v: Value, v': Value)
    ensures item[k := v'] == item[k := v] <==> v' == v
  {
    assert item[k := v][k] == v && item[k := v'][k] == v';
  }

  // ----- one level -----

  method SelectAll(w: World, c: string, children: seq<Node>, extras: set<string>, rows: seq<Row>) returns (items: seq<Item>)
    ensures |items| == |rows|
    ensures forall i :: 0 <= i < |rows| ==> items[i] == Selected(w, c, children, extras, rows[i])
  {
    items := [];
    for i := 0 to |rows|
      invariant |items| == i
      invariant forall j :: 0 <= j < i ==> items[j] == Selected(w, c, children, extras, rows[j])
    {
      items := items + [Selected(w, c, children, extras, rows[i])];
    }
  }

  /** No column is selected under the key of a one-to-many node. */
  lemma KeyIsFree(w: World, c: string, children: seq<Node>, extras: set<string>, row: Row, i: nat)
    requires KeysGood(w, c, children, extras) && i < |children|
    requires children[i].O2M?
    ensures children[i].key !in Selected(w, c, children, extras, row)
  {
    var k := children[i].key;
    assert k !in Needed(w, c, children, extras);
    if k in ColumnKeys(w, c, children) {
      ColumnKeysFrom(w, c, children, k);
    }
  }

  /** A foreign key that an earlier node has taken: an item or null is there. */
  lemma TakenByEarlier(w: World, c: string, children: seq<Node>, extras: set<string>, rows: seq<Row>,
                       selected: seq<Item>, items: seq<Item>, k: nat)
    requires SortsFilled(children) && KeysGood(w, c, children, extras)
    requires k < |children| && SortsFilled(children[..k]) && FieldTaken(children, k)
    requires |selected| == |rows| && |items| == |rows|
    requires forall i :: 0 <= i < |rows| ==> items[i] == Overlay(w, c, children[..k], rows[i], selected[i])
    ensures Taken(items, children[k].field)
  {
    var front := children[..k];
    var j :| 0 <= j < k && children[j].IsNested() && children[j].key == children[k].field;
    assert children[k].field in Needed(w, c, children, extras);
    assert !children[j].O2M? && front[j] == children[j];
    forall m | j < m < |front| ensures front[m].key != front[j].key {
      assert children[m].key != children[j].key;
    }
    forall i | 0 <= i < |items| ensures IsNoKey(Cell(items[i], children[k].field)) {
      OverlayWrites(w, c, front, rows[i], selected[i], j);
    }
  }

  /** Before node `k`, the items still show the columns it reads, unless an earlier node has taken its
      foreign key, and its key is free. */
  lemma ParentsReady(w: World, c: string, children: seq<Node>, extras: set<string>, rows: seq<Row>,
                     selected: seq<Item>, items: seq<Item>, k: nat)
    requires SortsFilled(children) && KeysGood(w, c, children, extras)
    requires k < |children| && children[k].IsNested() && SortsFilled(children[..k])
    requires |selected| == |rows| && |items| == |rows|
    requires forall i :: 0 <= i < |rows| ==> rows[i] in w.Table(c)
    requires forall i :: 0 <= i < |rows| ==> selected[i] == Selected(w, c, children, extras, rows[i])
    requires forall i :: 0 <= i < |rows| ==> items[i] == Overlay(w, c, children[..k], rows[i], selected[i])
    requires children[k].A2O? ==> children[k].key == children[k].field
    ensures ParentsOf(w, c, children[k], rows, selected, items) && children[k].key != w.Primary(c)
    ensures children[k].M2O? ==>
              if FieldTaken(children, k) then Taken(items, children[k].field) else Shows(rows, items, children[k].field)
    ensures children[k].A2O? ==> KeysShow(children[k], rows, items)
  {
    hide Overlay, Selected;
    var node := children[k];
    ColumnShows(w, c, children, extras, rows, selected, items, k, w.Primary(c));
    if node.M2O? {
      assert node.field in Needed(w, c, children, extras);
      if FieldTaken(children, k) {
        SelectedShow(w, c, children, extras, rows, selected, node.field);
        TakenByEarlier(w, c, children, extras, rows, selected, items, k);
      } else {
        ColumnShows(w, c, children, extras, rows, selected, items, k, node.field);
      }
    } else if node.A2O? {
      assert node.field in Needed(w, c, children, extras) && node.collectionField in Needed(w, c, children, extras);
      ColumnShows(w, c, children, extras, rows, selected, items, k, node.field);
      ColumnShows(w, c, children, extras, rows, selected, items, k, node.collectionField);
    } else {
      forall i | 0 <= i < |rows| ensures node.key !in items[i] {
        KeyIsFree(w, c, children, extras, rows[i], k);
        OverlayKeeps(w, c, children[..k], rows[i], selected[i], node.key);
      }
    }
  }

  lemma SelectedShow(w: World, c: string, children: seq<Node>, extras: set<string>, rows: seq<Row>, selected: seq<Item>, column: string)
    requires KeysGood(w, c, children, extras) && column in Needed(w, c, children, extras)
    requires |selected| == |rows| && forall i :: 0 <= i < |rows| ==> selected[i] == Selected(w, c, children, extras, rows[i])
    ensures Shows(rows, selected, column)
  {
    forall i | 0 <= i < |rows| ensures Cell(selected[i], column) == Cell(rows[i], column) {
      SelectedShows(w, c, children, extras, rows[i], column);
    }
  }

  lemma ColumnShows(w: World, c: string, children: seq<Node>, extras: set<string>, rows: seq<Row>,
                    selected: seq<Item>, items: seq<Item>, k: nat, column: string)
    requires KeysGood(w, c, children, extras) && k <= |children| && SortsFilled(children[..k])
    requires column in Needed(w, c, children, extras)
    requires forall i :: 0 <= i < k && children[i].IsNested() ==> children[i].key != column
    requires |selected| == |rows| && |items| == |rows|
    requires forall i :: 0 <= i < |rows| ==> selected[i] == Selected(w, c, children, extras, rows[i])
    requires forall i :: 0 <= i < |rows| ==> items[i] == Overlay(w, c, children[..k], rows[i], selected[i])
    ensures Shows(rows, selected, column) && Shows(rows, items, column)
  {
    forall i | 0 <= i < |rows|
      ensures Cell(items[i], column) == Cell(selected[i], column) == Cell(rows[i], column)
    {
      ColumnStays(w, c, children, extras, rows[i], k, column);
    }
  }

  lemma ColumnStays(w: World, c: string, children: seq<Node>, extras: set<string>, row: Row, k: nat, column: string)
    requires KeysGood(w, c, children, extras) && k <= |children| && SortsFilled(children[..k])
    requires column in Needed(w, c, children, extras)
    requires forall i :: 0 <= i < k && children[i].IsNested() ==> children[i].key != column
    ensures var selected := Selected(w, c, children, extras, row);
            Cell(Overlay(w, c, children[..k], row, selected), column) == Cell(selected, column) == Cell(row, column)
  {
    SelectedShows(w, c, children, extras, row, column);
    OverlayKeeps(w, c, children[..k], row, Selected(w, c, children, extras, row), column);
  }

  lemma {:induction false} SortsFilledPrefix(children: seq<Node>, k: nat)
    requires SortsFilled(children) && k <= |children|
    ensures SortsFilled(children[..k])
  {
    if k < |children| {
      SortsFilledPrefix(children[..|children| - 1], k);
      assert children[..|children| - 1][..k] == children[..k];
    } else {
      assert children[..k] == children;
    }
  }

  /** One more node, overlaid. */
  lemma OverlayMore(w: World, c: string, children: seq<Node>, k: nat, row: Row, selected: Item)
    requires k < |children| && SortsFilled(children[..k]) && SortsFilled(children[..k + 1]) && SortFilled(children[k])
    ensures var before := Overlay(w, c, children[..k], row, selected);
            Overlay(w, c, children[..k + 1], row, selected) ==
            if !children[k].IsNested() then before
            else before[children[k].key := if FieldTaken(children, k) then Null else RawNested(w, c, children[k], row)]
  {
    hide RawNested;
    assert children[..k + 1][..k] == children[..k];
    FieldTakenBefore(children, k + 1, k);
  }

  /** One level: fetch, select, then nest node by node. */
  method Run(w: World, batchSize: nat, c: string, children: seq<Node>, extras: set<string>, query: Query)
    returns (items: seq<Item>)
    requires batchSize > 0 && Sound(w) && SortsFilled(children) && Good(w, c, children, extras)
    ensures RawOf(w, c, children, extras, Fetch(w, c, query), items)
    decreases children, 3
  {
    hide Sound, KeysGood, NodeGood, A2OFits, M2OWindowFits, RawNested, Selected, Overlay, FieldTaken, Taken, Shows, KeysShow;
    var rows := Fetch(w, c, query);
    var selected := SelectAll(w, c, children, extras, rows);
    items := selected;
    if |items| == 0 {
      return;
    }
    FetchMembers(w, c, query);
    SortsFilledPrefix(children, 0);
    NothingOverlaid(w, c, children, rows, selected);
    for k := 0 to |children|
      invariant SortsFilled(children[..k])
      invariant |items| == |rows|
      invariant forall i :: 0 <= i < |rows| ==> items[i] == Overlay(w, c, children[..k], rows[i], selected[i])
    {
      var node := children[k];
      SortsFilledPrefix(children, k + 1);
      SortsFilledAt(children, k);
      ghost var before := items;
      forall i | 0 <= i < |rows|
        ensures Overlay(w, c, children[..k + 1], rows[i], selected[i]) ==
                if !node.IsNested() then before[i]
                else before[i][node.key := if FieldTaken(children, k) then Null else RawNested(w, c, node, rows[i])]
      {
        OverlayMore(w, c, children, k, rows[i], selected[i]);
      }
      if node.IsNested() {
        OwnKey(w, c, node);
        ParentsReady(w, c, children, extras, rows, selected, items, k);
        if node.M2O? {
          GoodM2OFits(w, c, node, selected);
          items := RunM2O(w, batchSize, c, node, selected, items, rows);
        } else if node.O2M? {
          NotTaken(children, k);
          items := RunO2M(w, batchSize, c, node, selected, items, rows);
        } else {
          NotTaken(children, k);
          GoodA2OFits(w, c, node, selected, rows, items);
          items := RunA2O(w, batchSize, c, node, selected, items, rows);
        }
      }
    }
    assert children[..|children|] == children;
    AllOverlaid(w, c, children, extras, rows, selected, items);
  }

  lemma OwnKey(w: World, c: string, node: Node)
    requires NodeGood(w, c, node)
    ensures node.A2O? ==> node.key == node.field
  {
  }

  lemma NotTaken(children: seq<Node>, k: nat)
    requires k < |children| && !children[k].M2O?
    ensures !FieldTaken(children, k)
  {
  }

  lemma NothingOverlaid(w: World, c: string, children: seq<Node>, rows: seq<Row>, selected: seq<Item>)
    requires |selected| == |rows| && SortsFilled(children[..0])
    ensures forall i :: 0 <= i < |rows| ==> Overlay(w, c, children[..0], rows[i], selected[i]) == selected[i]
  {
  }

  lemma AllOverlaid(w: World, c: string, children: seq<Node>, extras: set<string>, rows: seq<Row>, selected: seq<Item>, items: seq<Item>)
    requires SortsFilled(children) && |selected| == |rows| && |items| == |rows|
    requires forall i :: 0 <= i < |rows| ==> selected[i] == Selected(w, c, children, extras, rows[i])
    requires forall i :: 0 <= i < |rows| ==> items[i] == Overlay(w, c, children, rows[i], selected[i])
    ensures RawOf(w, c, children, extras, rows, items)
  {
  }

  /** What a read of the database comes to, row by row. */
  function Answer(w: World, ast: Ast): seq<Value>
    requires SortsFilled(ast.children)
  {
    StripEach(w, ast.name, w.Primary(ast.name), false, ast.children,
              RawAll(w, ast.name, ast.children, {}, Fetch(w, ast.name, ast.query)))
  }

  /** The whole read: the raw items of the root, stripped.  The batch size, the prefilters and the
      temporary columns leave no trace: a row comes out as the join has it exactly when it is intact,
      and its counts count the rows that point at it either way. */
  method RunAst(w: World, batchSize: nat, ast: Ast) returns (result: seq<Value>)
    requires batchSize > 0 && Sound(w)
    requires SortsFilled(ast.children) && Good(w, ast.name, ast.children, {})
    ensures result == Answer(w, ast)
    ensures |result| == |Join(w, ast)|
    ensures forall i :: 0 <= i < |result| ==>
              (result[i] == Join(w, ast)[i] <==> Intact(w, ast.name, false, ast.children, Fetch(w, ast.name, ast.query)[i]))
    ensures result == Join(w, ast) <==> AllIntact(w, ast)
    ensures CountsShown(w, ast, result)
  {
    hide ShowsCount, KeysGood;
    hide Intact, StripItem, Requested, RawItem, Good, Sound, RawOf;
    var items := Run(w, batchSize, ast.name, ast.children, {}, ast.query);
    ghost var rows := Fetch(w, ast.name, ast.query);
    WrapRaw(w, ast.name, ast.children, {}, rows, items);
    StrippedAllIffIntact(w, ast.name, ast.children, {}, rows);
    var stripped := RemoveTemporaryFields(w, ast.name, w.Primary(ast.name), false, ast.children, Arr(Wrap(items)));
    result := stripped.items;
    assert KeysGood(w, ast.name, ast.children, {}) by { GoodKeys(w, ast.name, ast.children, {}); }
    forall i, k | 0 <= i < |result| && 0 <= k < |ast.children| && ast.children[k].Count?
      ensures ShowsCount(w, ast.name, ast.children[k], rows[i], result[i])
    {
      StrippedCounts(w, ast.name, w.Primary(ast.name), false, ast.children, {}, rows[i], k);
    }
  }

  lemma GoodKeys(w: World, c: string, children: seq<Node>, extras: set<string>)
    requires Good(w, c, children, extras)
    ensures KeysGood(w, c, children, extras)
  {
  }
}
