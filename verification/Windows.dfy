/**
 When the parents of a many-to-one or many-to-any node find what they are related to: exactly when the
 window fits, which is said for offsets, for other operators and for an `_in` of the user's on the key in
 turn.
 */
module Windows {
  import opened Rows
  import opened Wrappers
  import opened QueryModel
  import opened NestedJoin
  import opened Unstripped
  import opened Merging

  // A window that does not fit shows too little or too much: an offset, a limit made for the ids behind another
  // operator, an `_in` that the ids have replaced.

  // ----- the window of a prefiltered fetch -----

  /** What is fetched for the parents of a many-to-one node. */
  function M2OQuery(w: World, node: Node, ids: seq<Value>): Query
    requires node.M2O?
  {
    Unlimited(node.query.(filter := MergeIn(node.query.filter, w.Primary(node.related), ids)))
  }

  /** What is fetched for the parents of one branch. */
  function BranchQuery(w: World, b: Branch, ids: seq<Value>): Query {
    b.query.(filter := MergeIn(b.query.filter, w.Primary(b.collection), ids), limit := Some(|ids|))
  }

  /** `q'` is `q` with the ids merged into its filter, and some window. */
  ghost predicate Prefiltered(w: World, c: string, q: Query, ids: seq<Value>, q': Query) {
    q'.sort == q.sort && q'.filter == MergeIn(q.filter, w.Primary(c), ids)
  }

  /** Among the rows fetched by `q'` a key finds the row that the user's query relates it to, or none
      if there is none. */
  ghost predicate Finds(w: World, c: string, q: Query, q': Query, v: Value) {
    First(Keep(Fetch(w, c, q'), HavingCell(w.Primary(c), v))) == RelatedRow(w, c, q, v)
  }

  ghost predicate FindsRelated(w: World, c: string, q: Query, ids: seq<Value>, q': Query) {
    forall v :: v in ids ==> Finds(w, c, q, q', v)
  }

  predicate InWindow(w: World, q: Query, i: int) {
    OffsetOf(w, q) <= i && (LimitOf(w, q) < 0 || i < OffsetOf(w, q) + LimitOf(w, q))
  }

  /** Of the matching rows an id names, exactly those the user's filter lets through stand in the
      window. */
  ghost predicate WindowFits(w: World, c: string, q: Query, ids: seq<Value>, q': Query) {
    forall i :: 0 <= i < |Matching(w, c, q')| && Cell(Matching(w, c, q')[i], w.Primary(c)) in ids ==>
      (InWindow(w, q', i) <==> Holds(q.filter, Matching(w, c, q')[i]))
  }

  ghost predicate Distinct(rows: seq<Row>, k: string) {
    forall i, j :: 0 <= i < j < |rows| ==> Cell(rows[i], k) != Cell(rows[j], k)
  }

  lemma {:induction false} KeepDistinct(rows: seq<Row>, k: string, p: Row -> bool)
    requires Distinct(rows, k)
    ensures Distinct(Keep(rows, p), k)
  {
    if rows != [] {
      var rest := rows[1..];
      assert forall i :: 0 <= i < |rest| ==> rest[i] == rows[i + 1];
      KeepDistinct(rest, k, p);
      KeepMembers(rest, p);
      if p(rows[0]) {
        forall i | 0 <= i < |Keep(rest, p)| ensures Cell(rows[0], k) != Cell(Keep(rest, p)[i], k) {
          assert Keep(rest, p)[i] in rest;
        }
      }
    }
  }

  lemma {:induction false} InsertDistinct(rows: seq<Row>, row: Row, k: string, leq: (Row, Row) -> bool)
    requires Distinct(rows, k)
    requires forall r :: r in rows ==> Cell(r, k) != Cell(row, k)
    ensures Distinct(Insert(rows, row, leq), k)
  {
    if rows != [] && !leq(rows[|rows| - 1], row) {
      var front, last := rows[..|rows| - 1], rows[|rows| - 1];
      InsertDistinct(front, row, k, leq);
      InsertMembers(front, row, leq);
      var inserted := Insert(front, row, leq);
      forall i | 0 <= i < |inserted| ensures Cell(inserted[i], k) != Cell(last, k) {
        assert inserted[i] in inserted;
        if inserted[i] != row {
          var j :| 0 <= j < |front| && front[j] == inserted[i];
          assert rows[j] == front[j];
        }
      }
    }
  }

  lemma {:induction false} SortDistinct(rows: seq<Row>, k: string, leq: (Row, Row) -> bool)
    requires Distinct(rows, k)
    ensures Distinct(Sort(rows, leq), k)
  {
    if rows != [] {
      var front, last := rows[..|rows| - 1], rows[|rows| - 1];
      SortDistinct(front, k, leq);
      SortMembers(front, leq);
      InsertDistinct(Sort(front, leq), last, k, leq);
    }
  }

  lemma MatchingDistinct(w: World, c: string, q: Query)
    requires Sound(w)
    ensures Distinct(Matching(w, c, q), w.Primary(c))
  {
    KeepDistinct(w.Table(c), w.Primary(c), Passes(q.filter));
    SortDistinct(Keep(w.Table(c), Passes(q.filter)), w.Primary(c), w.before(c, q.sort));
  }

  /** A row is fetched when its place among what matches is in the window. */
  lemma FetchedAt(w: World, c: string, q: Query, i: nat)
    requires Sound(w) && i < |Matching(w, c, q)|
    ensures Matching(w, c, q)[i] in Fetch(w, c, q) <==> InWindow(w, q, i)
  {
    var rows := Matching(w, c, q);
    var fetched := Fetch(w, c, q);
    var offset := OffsetOf(w, q);
    MatchingDistinct(w, c, q);
    hide Matching;
    assert forall j :: 0 <= j < |fetched| ==> fetched[j] == rows[offset + j];
    if rows[i] in fetched {
      var j :| 0 <= j < |fetched| && fetched[j] == rows[i];
      assert rows[offset + j] == rows[i];
      assert offset + j == i;
    }
    if InWindow(w, q, i) {
      assert fetched[i - offset] == rows[i];
    }
  }

  /** The first of rows that have the key: the one row of the table with that key, if it is there. */
  lemma FirstHaving(w: World, c: string, rows: seq<Row>, row: Row)
    requires Sound(w) && row in w.Table(c) && forall r :: r in rows ==> r in w.Table(c)
    ensures First(Keep(rows, HavingCell(w.Primary(c), Cell(row, w.Primary(c))))) == if row in rows then Some(row) else None
  {
    var p := HavingCell(w.Primary(c), Cell(row, w.Primary(c)));
    KeepMembers(rows, p);
    var kept := Keep(rows, p);
    assert row in rows ==> p(row) && row in kept;
    if kept != [] {
      assert kept[0] in kept;
      OneWithKey(w, c, kept[0], row);
    }
  }

  lemma FirstHavingNone(rows: seq<Row>, k: string, v: Value)
    requires forall r :: r in rows ==> Cell(r, k) != v
    ensures First(Keep(rows, HavingCell(k, v))) == None
  {
    KeepNone(rows, HavingCell(k, v));
  }

  lemma FetchedAreMatching(w: World, c: string, q: Query)
    ensures forall r :: r in Fetch(w, c, q) ==> r in Matching(w, c, q)
  {
  }

  /** Through the window, an id finds its row exactly when the row stands in it or the user's filter
      refuses it. */
  lemma FindsAt(w: World, c: string, q: Query, ids: seq<Value>, q': Query, i: nat)
    requires Sound(w) && Prefiltered(w, c, q, ids, q') && i < |Matching(w, c, q')|
    ensures var row := Matching(w, c, q')[i];
            Finds(w, c, q, q', Cell(row, w.Primary(c))) <==> (InWindow(w, q', i) <==> Holds(q.filter, row))
  {
    var row := Matching(w, c, q')[i];
    MatchingMembers(w, c, q);
    MatchingMembers(w, c, q');
    FetchedAreMatching(w, c, q');
    assert row in Matching(w, c, q');
    hide Matching, Fetch, InWindow;
    FirstHaving(w, c, Fetch(w, c, q'), row);
    FirstHaving(w, c, Matching(w, c, q), row);
    FetchedAt(w, c, q', i);
  }

  /** An id without a matching row finds nothing, rightly. */
  lemma FindsNothing(w: World, c: string, q: Query, ids: seq<Value>, q': Query, v: Value)
    requires Sound(w) && Prefiltered(w, c, q, ids, q') && v in ids
    requires forall r :: r in Matching(w, c, q') ==> Cell(r, w.Primary(c)) != v
    ensures Finds(w, c, q, q', v)
  {
    FetchedAreMatching(w, c, q');
    MatchingMembers(w, c, q);
    MatchingMembers(w, c, q');
    forall r | r in Matching(w, c, q) ensures Cell(r, w.Primary(c)) != v {
      if Cell(r, w.Primary(c)) == v {
        UserRowsMatch(w, c, q, ids, r);
      }
    }
    hide Matching, Fetch;
    FirstHavingNone(Fetch(w, c, q'), w.Primary(c), v);
    FirstHavingNone(Matching(w, c, q), w.Primary(c), v);
  }

  /** Merging ids in refuses no row that an id names and the user's filter lets through. */
  lemma UserRowsMatch(w: World, c: string, q: Query, ids: seq<Value>, row: Row)
    requires Cell(row, w.Primary(c)) in ids && Holds(q.filter, row)
    ensures Holds(MergeIn(q.filter, w.Primary(c), ids), row)
  {
    ClausesMerged(q.filter.clauses, w.Primary(c), ids, row);
    if TestOn(q.filter.clauses, w.Primary(c)).Some? && TestOn(q.filter.clauses, w.Primary(c)).value.In? {
      OverwriteHasIds(TestOn(q.filter.clauses, w.Primary(c)).value.values, ids);
    }
  }

  /** For any filter, limit, offset and page: the parents find what they are related to exactly when
      the window fits. */
  lemma WindowFitsIff(w: World, c: string, q: Query, ids: seq<Value>, q': Query)
    requires Sound(w) && Prefiltered(w, c, q, ids, q')
    ensures FindsRelated(w, c, q, ids, q') <==> WindowFits(w, c, q, ids, q')
  {
    var rows := Matching(w, c, q');
    var pk := w.Primary(c);
    forall i | 0 <= i < |rows|
      ensures Finds(w, c, q, q', Cell(rows[i], pk)) <==> (InWindow(w, q', i) <==> Holds(q.filter, rows[i]))
    {
      FindsAt(w, c, q, ids, q', i);
    }
    hide Matching, Finds, InWindow, Prefiltered;
    forall v | v in ids && forall r :: r in rows ==> Cell(r, pk) != v ensures Finds(w, c, q, q', v) {
      FindsNothing(w, c, q, ids, q', v);
    }
    if WindowFits(w, c, q, ids, q') {
      forall v | v in ids ensures Finds(w, c, q, q', v) {
        if r :| r in rows && Cell(r, pk) == v {
          var i :| 0 <= i < |rows| && rows[i] == r;
        }
      }
    }
  }

  // ----- what the window comes down to -----

  /** Some row that an id names passes the user's filter. */
  ghost predicate SomeRelated(w: World, c: string, q: Query, ids: seq<Value>) {
    exists r :: r in w.Table(c) && Cell(r, w.Primary(c)) in ids && Holds(q.filter, r)
  }

  /** With no clause on the primary key the fetch has just the related rows, so any offset loses one:
      the window fits exactly when nothing is skipped or nothing is related. */
  lemma OffsetFitsIff(w: World, c: string, q: Query, ids: seq<Value>, q': Query)
    requires Sound(w) && Prefiltered(w, c, q, ids, q') && NothingOn(q.filter, w.Primary(c))
    requires LimitOf(w, q') < 0 || |ids| <= LimitOf(w, q')
    ensures WindowFits(w, c, q, ids, q') <==> OffsetOf(w, q') == 0 || !SomeRelated(w, c, q, ids)
  {
    var rows := Matching(w, c, q');
    forall r ensures Holds(q'.filter, r) <==> Holds(q.filter, r) && Cell(r, w.Primary(c)) in ids {
      FirstTest(q.filter.clauses, w.Primary(c));
      ClausesMerged(q.filter.clauses, w.Primary(c), ids, r);
    }
    MatchingMembers(w, c, q');
    FewMatch(w, c, q, ids);
    assert |rows| <= |ids| by {
      assert rows == Matching(w, c, q.(filter := MergeIn(q.filter, w.Primary(c), ids)));
    }
    hide Matching, Holds, OffsetOf;
    forall i | 0 <= i < |rows|
      ensures Holds(q.filter, rows[i]) && Cell(rows[i], w.Primary(c)) in ids && rows[i] in w.Table(c)
    {
      assert rows[i] in rows;
    }
    if rows != [] {
      var r := rows[0];
      assert r in w.Table(c) && Cell(r, w.Primary(c)) in ids && Holds(q.filter, r);
    }
    if SomeRelated(w, c, q, ids) {
      var r :| r in w.Table(c) && Cell(r, w.Primary(c)) in ids && Holds(q.filter, r);
      assert r in rows;
      assert InWindow(w, q', 0) <==> OffsetOf(w, q') == 0;
    }
  }

  lemma {:induction false} OperatorStays(clauses: seq<Clause>, field: string, ids: seq<Value>)
    requires TestOn(clauses, field).Some? && TestOn(clauses, field).value.Where?
    ensures MergeClauses(clauses, field, ids) == clauses
  {
    if !(clauses[0].On? && clauses[0].field == field) {
      OperatorStays(clauses[1..], field, ids);
    }
  }

  /** Behind another operator on the primary key the ids are not looked at: the window, made for
      them, fits exactly when all rows they name stand in it among everything that matches. */
  lemma OperatorFitsIff(w: World, c: string, q: Query, ids: seq<Value>, q': Query)
    requires Prefiltered(w, c, q, ids, q')
    requires TestOn(q.filter.clauses, w.Primary(c)).Some? && TestOn(q.filter.clauses, w.Primary(c)).value.Where?
    ensures WindowFits(w, c, q, ids, q')
            <==> forall i :: 0 <= i < |Matching(w, c, q)| && Cell(Matching(w, c, q)[i], w.Primary(c)) in ids ==>
                   InWindow(w, q', i)
  {
    OperatorStays(q.filter.clauses, w.Primary(c), ids);
    assert Matching(w, c, q') == Matching(w, c, q);
    MatchingMembers(w, c, q);
    forall i | 0 <= i < |Matching(w, c, q)| ensures Holds(q.filter, Matching(w, c, q)[i]) {
      assert Matching(w, c, q)[i] in Matching(w, c, q);
    }
  }

  /** Over an `_in` on the primary key: unwindowed, the fetch is right exactly when the user's values
      hold every key at hand that the rest of the filter lets through. */
  lemma InFitsIff(w: World, c: string, q: Query, ids: seq<Value>, q': Query)
    requires Prefiltered(w, c, q, ids, q') && OffsetOf(w, q') == 0 && LimitOf(w, q') < 0
    requires TestOn(q.filter.clauses, w.Primary(c)).Some? && TestOn(q.filter.clauses, w.Primary(c)).value.In?
    ensures WindowFits(w, c, q, ids, q')
            <==> forall r :: r in w.Table(c) && Cell(r, w.Primary(c)) in ids && HoldsAll(Others(q.filter.clauses, w.Primary(c)), r)
                   ==> Cell(r, w.Primary(c)) in TestOn(q.filter.clauses, w.Primary(c)).value.values
  {
    var rows := Matching(w, c, q');
    var pk := w.Primary(c);
    var values := TestOn(q.filter.clauses, pk).value.values;
    forall r: Row
      ensures Holds(q.filter, r) <==> HoldsAll(Others(q.filter.clauses, pk), r) && Cell(r, pk) in values
      ensures Cell(r, pk) in ids ==> (Holds(q'.filter, r) <==> HoldsAll(Others(q.filter.clauses, pk), r))
    {
      ClausesMerged(q.filter.clauses, pk, ids, r);
      OverwriteHasIds(values, ids);
    }
    MatchingMembers(w, c, q');
    hide Matching, Holds, OffsetOf, LimitOf;
    forall i | 0 <= i < |rows| ensures rows[i] in w.Table(c) && Holds(q'.filter, rows[i]) {
      assert rows[i] in rows;
    }
    if WindowFits(w, c, q, ids, q') {
      forall r | r in w.Table(c) && Cell(r, pk) in ids && HoldsAll(Others(q.filter.clauses, pk), r)
        ensures Cell(r, pk) in values
      {
        assert r in rows;
        var i :| 0 <= i < |rows| && rows[i] == r;
        assert InWindow(w, q', i);
      }
    }
  }

  // ----- what a merge finds -----

  function RawOrNull(w: World, c: string, children: seq<Node>, r: Option<Row>): Value
    requires SortsFilled(children)
  {
    if r.None? then Null else Obj(RawItem(w, c, children, {}, r.value))
  }

  lemma FetchMembers(w: World, c: string, q: Query)
    ensures forall r :: r in Fetch(w, c, q) ==> r in w.Table(c)
  {
    FetchedAreMatching(w, c, q);
    MatchingMembers(w, c, q);
  }

  /** Among fetched items a key finds the item of its related row exactly when it finds the row. */
  lemma FoundIff(w: World, c: string, q: Query, q': Query, children: seq<Node>, v: Value)
    requires Sound(w) && SortsFilled(children) && KeysGood(w, c, children, {})
    ensures FindBy(RawAll(w, c, children, {}, Fetch(w, c, q')), w.Primary(c), v)
            == RawOrNull(w, c, children, RelatedRow(w, c, q, v))
            <==> Finds(w, c, q, q', v)
  {
    var rows := Fetch(w, c, q');
    var p := HavingCell(w.Primary(c), v);
    FetchMembers(w, c, q');
    FindInRaw(w, c, children, {}, rows, v);
    KeepMembers(rows, p);
    var kept := Keep(rows, p);
    if kept != [] && RelatedRow(w, c, q, v).Some? {
      assert kept[0] in kept;
      RelatedRowIsRelated(w, c, q, v);
      OneWithKey(w, c, kept[0], RelatedRow(w, c, q, v).value);
    }
  }

  /** Null, or what a node has put in place of a key. */
  predicate IsNoKey(v: Value) {
    v == Null || v.Obj? || v.Arr?
  }

  /** No row has such a key. */
  lemma NoKeyFindsNothing(w: World, c: string, q: Query, q': Query, v: Value)
    requires Sound(w) && IsNoKey(v)
    ensures Finds(w, c, q, q', v) && RelatedRow(w, c, q, v) == None
  {
    FetchMembers(w, c, q');
    MatchingMembers(w, c, q);
    forall r | r in w.Table(c) ensures Cell(r, w.Primary(c)) != v {
      KeyIsScalar(w, c, r);
    }
    FirstHavingNone(Fetch(w, c, q'), w.Primary(c), v);
    FirstHavingNone(Matching(w, c, q), w.Primary(c), v);
  }

  lemma NoKeyFetched(w: World, c: string, q: Query, q': Query, children: seq<Node>, v: Value)
    requires Sound(w) && SortsFilled(children) && Good(w, c, children, {}) && IsNoKey(v)
    ensures FindBy(RawAll(w, c, children, {}, Fetch(w, c, q')), w.Primary(c), v) == Null
  {
    hide Finds, RelatedRow, Fetch;
    NoKeyFindsNothing(w, c, q, q', v);
    FoundIff(w, c, q, q', children, v);
  }

  // ----- what the parents show -----

  /** The items still have the cells of their rows in a column. */
  ghost predicate Shows(rows: seq<Row>, items: seq<Item>, k: string) {
    |items| == |rows| && forall i :: 0 <= i < |rows| ==> Cell(items[i], k) == Cell(rows[i], k)
  }

  /** An earlier node has put its values there, or nothing is. */
  ghost predicate Taken(items: seq<Item>, k: string) {
    forall i :: 0 <= i < |items| ==> IsNoKey(Cell(items[i], k))
  }

  ghost predicate NothingRequested(w: World, c: string, node: Node, rows: seq<Row>)
    requires SortFilled(node) && node.IsNested()
  {
    forall i :: 0 <= i < |rows| ==> RawNested(w, c, node, rows[i]) == Null
  }

  // ----- many to one -----

  /** The window through which a many-to-one node is fetched shows its parents what they point at. */
  ghost predicate M2OWindowFits(w: World, node: Node, selected: seq<Item>)
    requires node.M2O?
  {
    var ids := ParentIds(selected, node.field);
    WindowFits(w, node.related, node.query, ids, M2OQuery(w, node, ids))
  }

  /** A many-to-one node fits when its window does; where its foreign key has been taken, when there is
      nothing to find. */
  ghost predicate M2OFits(w: World, c: string, node: Node, selected: seq<Item>, rows: seq<Row>, items: seq<Item>)
    requires node.M2O? && SortFilled(node)
  {
    if Shows(rows, items, node.field) then M2OWindowFits(w, node, selected) else NothingRequested(w, c, node, rows)
  }

  /** The window of a good node is everything, and the ids are conjoined. */
  lemma GoodM2OFits(w: World, c: string, node: Node, selected: seq<Item>)
    requires node.M2O? && NodeGood(w, c, node)
    ensures M2OWindowFits(w, node, selected) && Good(w, node.related, node.children, {})
  {
    var ids := ParentIds(selected, node.field);
    var pk := w.Primary(node.related);
    var query := M2OQuery(w, node, ids);
    var rows := Matching(w, node.related, query);
    assert OffsetOf(w, query) == 0 && LimitOf(w, query) < 0;
    MatchingMembers(w, node.related, query);
    hide Matching, Good;
    forall i | 0 <= i < |rows| && Cell(rows[i], pk) in ids ensures Holds(node.query.filter, rows[i]) {
      assert rows[i] in rows;
      FirstTest(node.query.filter.clauses, pk);
      ClausesMerged(node.query.filter.clauses, pk, ids, rows[i]);
    }
  }

  /** Every parent finds its related row exactly when the node fits, and where its foreign key has been
      taken none finds anything. */
  lemma M2OFoundIff(w: World, c: string, node: Node, selected: seq<Item>, rows: seq<Row>, items: seq<Item>)
    requires Sound(w) && node.M2O? && SortFilled(node) && Good(w, node.related, node.children, {})
    requires Shows(rows, selected, node.field) && |items| == |rows|
    requires Shows(rows, items, node.field) || Taken(items, node.field)
    ensures var query := M2OQuery(w, node, ParentIds(selected, node.field));
            var nested := RawAll(w, node.related, node.children, {}, Fetch(w, node.related, query));
            && ((forall i :: 0 <= i < |items| ==>
                   FindBy(nested, w.Primary(node.related), Cell(items[i], node.field)) == RawNested(w, c, node, rows[i]))
                <==> M2OFits(w, c, node, selected, rows, items))
            && (Taken(items, node.field) ==>
                  forall i :: 0 <= i < |items| ==> FindBy(nested, w.Primary(node.related), Cell(items[i], node.field)) == Null)
  {
    hide Sound, Good, RawNested, M2OWindowFits, FindBy, Fetch;
    var query := M2OQuery(w, node, ParentIds(selected, node.field));
    if Shows(rows, items, node.field) {
      M2OShownIff(w, c, node, selected, rows);
    }
    if Taken(items, node.field) {
      forall i | 0 <= i < |items|
        ensures FindBy(RawAll(w, node.related, node.children, {}, Fetch(w, node.related, query)), w.Primary(node.related),
                       Cell(items[i], node.field)) == Null
      {
        NoKeyFetched(w, node.related, node.query, query, node.children, Cell(items[i], node.field));
      }
    }
  }

  lemma M2OShownIff(w: World, c: string, node: Node, selected: seq<Item>, rows: seq<Row>)
    requires Sound(w) && node.M2O? && SortFilled(node) && Good(w, node.related, node.children, {})
    requires Shows(rows, selected, node.field)
    ensures var query := M2OQuery(w, node, ParentIds(selected, node.field));
            var nested := RawAll(w, node.related, node.children, {}, Fetch(w, node.related, query));
            (forall i :: 0 <= i < |rows| ==>
               FindBy(nested, w.Primary(node.related), Cell(rows[i], node.field)) == RawNested(w, c, node, rows[i]))
            <==> M2OWindowFits(w, node, selected)
  {
    var ids := ParentIds(selected, node.field);
    var query := M2OQuery(w, node, ids);
    WindowFitsIff(w, node.related, node.query, ids, query);
    NoKeyFindsNothing(w, node.related, node.query, query, Null);
    forall i | 0 <= i < |rows|
      ensures FindBy(RawAll(w, node.related, node.children, {}, Fetch(w, node.related, query)), w.Primary(node.related),
                     Cell(rows[i], node.field)) == RawNested(w, c, node, rows[i])
              <==> Finds(w, node.related, node.query, query, Cell(rows[i], node.field))
    {
      FoundIff(w, node.related, node.query, query, node.children, Cell(rows[i], node.field));
    }
    assert Shows(rows, selected, node.field);
    hide *;
    IdsFindIff(w, node.related, node.query, node.field, query, selected, rows);
  }

  /** The ids are what the parents point at, but for null. */
  lemma IdsFindIff(w: World, c: string, q: Query, field: string, q': Query, selected: seq<Item>, rows: seq<Row>)
    requires Shows(rows, selected, field)
    requires Finds(w, c, q, q', Null)
    ensures (forall i :: 0 <= i < |rows| ==> Finds(w, c, q, q', Cell(rows[i], field)))
            <==> FindsRelated(w, c, q, ParentIds(selected, field), q')
  {
    hide Finds, ParentIds;
    if forall i :: 0 <= i < |rows| ==> Finds(w, c, q, q', Cell(rows[i], field)) {
      forall v | v in ParentIds(selected, field) ensures Finds(w, c, q, q', v) {
        var i :| 0 <= i < |selected| && Cell(selected[i], field) == v;
        assert Cell(rows[i], field) == v;
      }
    }
  }

  // ----- the key of a many-to-any node -----

  /** The fetched items of each branch, under the branch's collection. */
  type Results = map<string, seq<Value>>

  /** What the merge finds for a parent of some collection: it compares with what the parent has
      under the key of the node. */
  function FindAny(w: World, results: Results, collection: Value, key: Value): Value {
    if collection.Text? && collection.s in results
    then FindBy(results[collection.s], w.Primary(collection.s), key) else Null
  }

  lemma {:induction false} NoneHasNull(values: seq<Value>, k: string)
    requires forall i :: 0 <= i < |values| ==> Cell(FieldsOf(values[i]), k) != Null
    ensures FindBy(values, k, Null) == Null
  {
    if values != [] {
      assert Cell(FieldsOf(values[0]), k) != Null;
      NoneHasNull(values[1..], k);
    }
  }

  // ----- many to any -----

  function BranchIds(node: Node, b: Branch, selected: seq<Item>): seq<Value>
    requires node.A2O?
  {
    Uniq(KeysFor(selected, node.collectionField, node.field, b.collection))
  }

  /** What is fetched for a branch. */
  function BranchRaw(w: World, node: Node, b: Branch, selected: seq<Item>): seq<Value>
    requires node.A2O? && SortsFilled(b.children)
  {
    RawAll(w, b.collection, b.children, {}, Fetch(w, b.collection, BranchQuery(w, b, BranchIds(node, b, selected))))
  }

  /** The window of a branch shows its parents what they point at. */
  ghost predicate BranchFits(w: World, node: Node, b: Branch, selected: seq<Item>)
    requires node.A2O?
  {
    WindowFits(w, b.collection, b.query, BranchIds(node, b, selected), BranchQuery(w, b, BranchIds(node, b, selected)))
  }

  /** The merge can compare: the node goes by the name of its own column, and neither that nor the
      collection has been taken. */
  ghost predicate KeysShow(node: Node, rows: seq<Row>, items: seq<Item>)
    requires node.A2O?
  {
    node.key == node.field && Shows(rows, items, node.field) && Shows(rows, items, node.collectionField)
  }

  /** A many-to-any node fits when its keys show and the window of every branch fits; under an alias, or
      where its columns have been taken, when there is nothing to find. */
  ghost predicate A2OFits(w: World, c: string, node: Node, selected: seq<Item>, rows: seq<Row>, items: seq<Item>)
    requires node.A2O? && SortFilled(node)
  {
    if KeysShow(node, rows, items) then
      forall n :: 0 <= n < |node.branches| ==> BranchFits(w, node, node.branches[n], selected)
    else
      NothingRequested(w, c, node, rows)
  }

  lemma GoodBranchFits(w: World, node: Node, b: Branch, selected: seq<Item>)
    requires Sound(w) && node.A2O? && BranchIsGood(w, b)
    ensures BranchFits(w, node, b, selected)
  {
    var ids := BranchIds(node, b, selected);
    var pk := w.Primary(b.collection);
    var query := BranchQuery(w, b, ids);
    var rows := Matching(w, b.collection, query);
    LimitInvisible(w, b.collection, b.query, ids);
    MatchingMembers(w, b.collection, query);
    forall i | 0 <= i < |rows| && Cell(rows[i], pk) in ids
      ensures InWindow(w, query, i) <==> Holds(b.query.filter, rows[i])
    {
      assert rows[i] in rows;
      FetchedAt(w, b.collection, query, i);
      FirstTest(b.query.filter.clauses, pk);
      ClausesMerged(b.query.filter.clauses, pk, ids, rows[i]);
    }
  }

  /** The branches are of different collections, and the trees below them are good. */
  ghost predicate BranchesGood(w: World, node: Node)
    requires node.A2O?
  {
    && (forall i, j :: 0 <= i < j < |node.branches| ==> node.branches[i].collection != node.branches[j].collection)
    && (forall i :: 0 <= i < |node.branches| ==>
          Good(w, node.branches[i].collection, node.branches[i].children, {}))
  }

  lemma GoodA2OFits(w: World, c: string, node: Node, selected: seq<Item>, rows: seq<Row>, items: seq<Item>)
    requires Sound(w) && node.A2O? && SortFilled(node) && NodeGood(w, c, node) && KeysShow(node, rows, items)
    ensures A2OFits(w, c, node, selected, rows, items) && BranchesGood(w, node)
  {
    hide Good, BranchFits, BranchIsGood, KeysShow;
    forall n | 0 <= n < |node.branches| ensures BranchFits(w, node, node.branches[n], selected) {
      GoodBranchFits(w, node, node.branches[n], selected);
    }
  }

  /** The results are those of the branches fetched so far. */
  ghost predicate ResultsOf(w: World, node: Node, n: nat, selected: seq<Item>, results: Results)
    requires node.A2O? && SortFilled(node) && n <= |node.branches|
  {
    && (forall k :: k in results ==> exists i :: 0 <= i < n && node.branches[i].collection == k)
    && (forall i :: 0 <= i < n ==>
          && node.branches[i].collection in results
          && results[node.branches[i].collection] == BranchRaw(w, node, node.branches[i], selected))
  }

  lemma ResultsGrow(w: World, node: Node, n: nat, selected: seq<Item>, results: Results)
    requires node.A2O? && SortFilled(node) && BranchesGood(w, node) && n < |node.branches|
    requires ResultsOf(w, node, n, selected, results)
    ensures ResultsOf(w, node, n + 1, selected,
                      results[node.branches[n].collection := BranchRaw(w, node, node.branches[n], selected)])
  {
    hide BranchRaw, Good;
  }

  lemma {:induction false} BranchForIs(branches: seq<Branch>, v: Value, i: nat)
    requires i < |branches| && v == Text(branches[i].collection)
    requires forall j, k :: 0 <= j < k < |branches| ==> branches[j].collection != branches[k].collection
    ensures BranchFor(branches, v) == Some(branches[i])
  {
    if i > 0 {
      assert branches[0].collection != branches[i].collection;
      BranchForIs(branches[1..], v, i - 1);
    }
  }

  lemma {:induction false} BranchForNone(branches: seq<Branch>, v: Value)
    requires forall i :: 0 <= i < |branches| ==> v != Text(branches[i].collection)
    ensures BranchFor(branches, v) == None
  {
    if branches != [] {
      BranchForNone(branches[1..], v);
    }
  }

  ghost predicate BranchFinds(w: World, node: Node, b: Branch, selected: seq<Item>, v: Value)
    requires node.A2O?
  {
    Finds(w, b.collection, b.query, BranchQuery(w, b, BranchIds(node, b, selected)), v)
  }

  /** A parent of a branch finds its related row exactly when the branch's query does. */
  lemma BranchFoundIff(w: World, c: string, node: Node, n: nat, selected: seq<Item>, row: Row, results: Results)
    requires Sound(w) && node.A2O? && SortFilled(node) && BranchesGood(w, node) && n < |node.branches|
    requires ResultsOf(w, node, |node.branches|, selected, results)
    requires Cell(row, node.collectionField) == Text(node.branches[n].collection)
    ensures FindAny(w, results, Cell(row, node.collectionField), Cell(row, node.field)) == RawNested(w, c, node, row)
            <==> BranchFinds(w, node, node.branches[n], selected, Cell(row, node.field))
  {
    hide BranchQuery, BranchIds, Fetch, RelatedRow, RawItem, Finds;
    var b := node.branches[n];
    BranchForIs(node.branches, Cell(row, node.collectionField), n);
    FoundIff(w, b.collection, b.query, BranchQuery(w, b, BranchIds(node, b, selected)), b.children, Cell(row, node.field));
  }

  /** A parent of no branch has null, and finds null. */
  lemma NoBranchNull(w: World, c: string, node: Node, selected: seq<Item>, row: Row, results: Results, key: Value)
    requires node.A2O? && SortFilled(node) && ResultsOf(w, node, |node.branches|, selected, results)
    requires forall n :: 0 <= n < |node.branches| ==> Cell(row, node.collectionField) != Text(node.branches[n].collection)
    ensures FindAny(w, results, Cell(row, node.collectionField), key) == RawNested(w, c, node, row) == Null
  {
    BranchForNone(node.branches, Cell(row, node.collectionField));
  }

  /** All the parents of one branch find their rows exactly when its window fits. */
  lemma BranchParentsIff(w: World, node: Node, b: Branch, selected: seq<Item>, rows: seq<Row>)
    requires Sound(w) && node.A2O? && Shows(rows, selected, node.field) && Shows(rows, selected, node.collectionField)
    ensures (forall i :: 0 <= i < |rows| && Cell(rows[i], node.collectionField) == Text(b.collection) ==>
               BranchFinds(w, node, b, selected, Cell(rows[i], node.field)))
            <==> BranchFits(w, node, b, selected)
  {
    var ids := BranchIds(node, b, selected);
    WindowFitsIff(w, b.collection, b.query, ids, BranchQuery(w, b, ids));
    hide WindowFits, Finds, BranchQuery, Sound;
    if forall i :: 0 <= i < |rows| && Cell(rows[i], node.collectionField) == Text(b.collection) ==>
         BranchFinds(w, node, b, selected, Cell(rows[i], node.field))
    {
      forall v | v in ids ensures BranchFinds(w, node, b, selected, v) {
        var i :| 0 <= i < |selected| && Cell(selected[i], node.collectionField) == Text(b.collection)
                 && Cell(selected[i], node.field) == v;
        assert Cell(rows[i], node.field) == v;
      }
    }
  }

  /** What is no key finds nothing in any branch. */
  lemma AnyFindsNull(w: World, node: Node, selected: seq<Item>, results: Results, collection: Value, v: Value)
    requires Sound(w) && node.A2O? && SortFilled(node) && BranchesGood(w, node)
    requires ResultsOf(w, node, |node.branches|, selected, results)
    requires IsNoKey(collection) || IsNoKey(v)
    ensures FindAny(w, results, collection, v) == Null
  {
    hide Fetch, BranchQuery, BranchIds, FindBy;
    if collection.Text? && collection.s in results {
      var i :| 0 <= i < |node.branches| && node.branches[i].collection == collection.s;
      var b := node.branches[i];
      NoKeyFetched(w, b.collection, b.query, BranchQuery(w, b, BranchIds(node, b, selected)), b.children, v);
    }
  }

  /** Every parent whose keys show finds its related row exactly when the windows of the branches fit. */
  lemma A2OShownIff(w: World, c: string, node: Node, selected: seq<Item>, rows: seq<Row>, results: Results)
    requires Sound(w) && node.A2O? && SortFilled(node) && BranchesGood(w, node)
    requires ResultsOf(w, node, |node.branches|, selected, results)
    requires Shows(rows, selected, node.field) && Shows(rows, selected, node.collectionField)
    ensures (forall j :: 0 <= j < |rows| ==>
               FindAny(w, results, Cell(rows[j], node.collectionField), Cell(rows[j], node.field)) == RawNested(w, c, node, rows[j]))
            <==> forall n :: 0 <= n < |node.branches| ==> BranchFits(w, node, node.branches[n], selected)
  {
    hide Sound, BranchesGood, ResultsOf, RawNested, FindAny, BranchFits, BranchFinds, Shows;
    forall n, j | 0 <= n < |node.branches| && 0 <= j < |rows|
                  && Cell(rows[j], node.collectionField) == Text(node.branches[n].collection)
      ensures FindAny(w, results, Cell(rows[j], node.collectionField), Cell(rows[j], node.field)) == RawNested(w, c, node, rows[j])
              <==> BranchFinds(w, node, node.branches[n], selected, Cell(rows[j], node.field))
    {
      BranchFoundIff(w, c, node, n, selected, rows[j], results);
    }
    forall j | 0 <= j < |rows|
               && forall n :: 0 <= n < |node.branches| ==> Cell(rows[j], node.collectionField) != Text(node.branches[n].collection)
      ensures FindAny(w, results, Cell(rows[j], node.collectionField), Cell(rows[j], node.field)) == RawNested(w, c, node, rows[j])
    {
      NoBranchNull(w, c, node, selected, rows[j], results, Cell(rows[j], node.field));
    }
    forall n | 0 <= n < |node.branches|
      ensures (forall i :: 0 <= i < |rows| && Cell(rows[i], node.collectionField) == Text(node.branches[n].collection) ==>
                 BranchFinds(w, node, node.branches[n], selected, Cell(rows[i], node.field)))
              <==> BranchFits(w, node, node.branches[n], selected)
    {
      BranchParentsIff(w, node, node.branches[n], selected, rows);
    }
  }

  /** Every parent finds its related row exactly when the node fits. */
  lemma A2OFoundIff(w: World, c: string, node: Node, selected: seq<Item>, rows: seq<Row>, items: seq<Item>, results: Results)
    requires Sound(w) && node.A2O? && SortFilled(node) && BranchesGood(w, node)
    requires ResultsOf(w, node, |node.branches|, selected, results) && |items| == |rows|
    requires Shows(rows, selected, node.field) && Shows(rows, selected, node.collectionField)
    requires KeysShow(node, rows, items) || Taken(items, node.key) || Taken(items, node.collectionField)
    ensures (forall j :: 0 <= j < |items| ==>
               FindAny(w, results, Cell(items[j], node.collectionField), Cell(items[j], node.key)) == RawNested(w, c, node, rows[j]))
            <==> A2OFits(w, c, node, selected, rows, items)
  {
    hide Sound, BranchesGood, ResultsOf, RawNested, FindAny, BranchFits;
    if KeysShow(node, rows, items) {
      A2OShownIff(w, c, node, selected, rows, results);
    } else {
      forall j | 0 <= j < |items|
        ensures FindAny(w, results, Cell(items[j], node.collectionField), Cell(items[j], node.key)) == Null
      {
        AnyFindsNull(w, node, selected, results, Cell(items[j], node.collectionField), Cell(items[j], node.key));
      }
    }
  }
}
