/**
 What one fetch gives: the rows that pass the filter, each as often as it is there, in the database's
 order, and of these a window; page by page everything is read once.  And the order in which children
 come.
 */
module Fetching {
  import opened Rows
  import opened Wrappers
  import opened QueryModel
  import opened NestedJoin
  import opened Unstripped
  import opened Merging
  import opened Counts

  // ----- the rows that match -----

  /** Rows that the order does not tell apart. */
  predicate Ties(leq: (Row, Row) -> bool, a: Row, b: Row) {
    leq(a, b) && leq(b, a)
  }

  function TiedWith(leq: (Row, Row) -> bool, x: Row): Row -> bool {
    row => Ties(leq, row, x)
  }

  function PassesTied(f: Filter, leq: (Row, Row) -> bool, x: Row): Row -> bool {
    row => Holds(f, row) && Ties(leq, row, x)
  }

  /** The rows that match are those of the table that pass, as many as there are places, in the order of
      the query; rows it does not tell apart stay in the order of the table. */
  lemma MatchingRows(w: World, c: string, q: Query)
    requires Sound(w)
    ensures forall x :: x in Matching(w, c, q) <==> x in w.Table(c) && Holds(q.filter, x)
    ensures |Matching(w, c, q)| == |Places(w.Table(c), Passes(q.filter))|
    ensures Sorted(Matching(w, c, q), w.before(c, q.sort))
  {
    hide Keep, Sort;
    KeepMembers(w.Table(c), Passes(q.filter));
    KeptPlaces(w.Table(c), Passes(q.filter));
    SortMembers(Keep(w.Table(c), Passes(q.filter)), w.before(c, q.sort));
    SortSorts(Keep(w.Table(c), Passes(q.filter)), w.before(c, q.sort));
  }

  lemma TiesStay(w: World, c: string, q: Query, x: Row)
    requires Sound(w)
    ensures Keep(Matching(w, c, q), TiedWith(w.before(c, q.sort), x))
            == Keep(w.Table(c), PassesTied(q.filter, w.before(c, q.sort), x))
  {
    var leq := w.before(c, q.sort);
    var kept := Keep(w.Table(c), Passes(q.filter));
    var tied := Keep(kept, TiedWith(leq, x));
    KeepSort(kept, leq, TiedWith(leq, x));
    KeepMembers(kept, TiedWith(leq, x));
    forall i, j | 0 <= i < j < |tied| ensures leq(tied[i], tied[j]) {
      assert tied[i] in tied && tied[j] in tied;
      assert leq(tied[i], x) && leq(x, tied[j]);
    }
    SortOfSorted(tied, leq);
    KeepTwice(w.Table(c), Passes(q.filter), TiedWith(leq, x), PassesTied(q.filter, leq, x));
  }

  // ----- the window -----

  predicate IsWindow(rows: seq<Row>, from: nat, limit: int, fetched: seq<Row>) {
    if from >= |rows| then fetched == []
    else if limit < 0 || from + limit >= |rows| then fetched == rows[from..]
    else fetched == rows[from..from + limit]
  }

  /** Where a window starts: a page counts in limits and overrides the offset, if there is a limit. */
  predicate StartsAt(q: Query, limit: int, from: nat) {
    if q.page > 0 && limit > 0 then from == limit * (q.page - 1) else from == q.offset
  }

  /** A fetch gives a window of the rows that match, as wide as the limit of the query, or the default if
      it has none; a negative one is no limit. */
  lemma FetchIsWindow(w: World, c: string, q: Query)
    ensures var limit := if q.limit == None then w.defaultLimit else q.limit.value;
            StartsAt(q, limit, OffsetOf(w, q)) && IsWindow(Matching(w, c, q), OffsetOf(w, q), limit, Fetch(w, c, q))
  {
    hide Matching;
  }

  function Page(q: Query, page: nat): Query {
    q.(page := page)
  }

  /** The pages from the first to the last one given, put one behind the other. */
  function Pages(w: World, c: string, q: Query, n: nat): seq<Row> {
    if n == 0 then [] else Pages(w, c, q, n - 1) + Fetch(w, c, Page(q, n))
  }

  /** The first rows, or all of them if there are no more. */
  predicate AreFirst(rows: seq<Row>, size: nat, some: seq<Row>) {
    some == if size <= |rows| then rows[..size] else rows
  }

  lemma NextWindow(rows: seq<Row>, from: nat, limit: nat, before: seq<Row>, window: seq<Row>)
    requires AreFirst(rows, from, before) && IsWindow(rows, from, limit, window)
    ensures AreFirst(rows, from + limit, before + window)
  {
  }

  lemma NextPage(limit: int, n: nat)
    requires limit > 0 && n > 0
    ensures 0 <= limit * (n - 1) && limit * n == limit * (n - 1) + limit
  {
  }

  /** The page behind those read so far. */
  lemma PageFollows(w: World, c: string, q: Query, n: nat, from: nat, before: seq<Row>)
    requires LimitOf(w, q) > 0 && n > 0 && from == LimitOf(w, q) * (n - 1)
    requires AreFirst(Matching(w, c, q), from, before)
    ensures AreFirst(Matching(w, c, q), from + LimitOf(w, q), before + Fetch(w, c, Page(q, n)))
  {
    assert Matching(w, c, Page(q, n)) == Matching(w, c, q);
    FetchIsWindow(w, c, Page(q, n));
    assert OffsetOf(w, Page(q, n)) == from;
    hide Matching, Fetch, IsWindow, AreFirst;
    NextWindow(Matching(w, c, q), from, LimitOf(w, q), before, Fetch(w, c, Page(q, n)));
  }

  /** Page by page, whatever the offset, the matching rows are read in order and none twice; once the
      pages hold them all, all of them. */
  lemma {:induction false} PagesReadAll(w: World, c: string, q: Query, n: nat)
    requires LimitOf(w, q) > 0
    ensures LimitOf(w, q) * n >= 0
    ensures AreFirst(Matching(w, c, q), LimitOf(w, q) * n, Pages(w, c, q, n))
  {
    if n == 0 {
      assert Matching(w, c, q)[..0] == [];
    } else {
      hide Matching, Fetch, AreFirst, LimitOf;
      PagesReadAll(w, c, q, n - 1);
      NextPage(LimitOf(w, q), n);
      PageFollows(w, c, q, n, LimitOf(w, q) * (n - 1), Pages(w, c, q, n - 1));
    }
  }

  // ----- the order of the children -----

  /** Text is ordered by the first character that differs, a beginning before what it begins. */
  lemma {:induction false} TextOrder(a: string, b: string)
    ensures TextLeq(a, b) <==>
            a <= b || exists i :: 0 <= i < |a| && i < |b| && a[..i] == b[..i] && a[i] < b[i]
  {
    if a != "" && b != "" {
      var s, t := a[1..], b[1..];
      TextOrder(s, t);
      if a[0] == b[0] {
        assert a <= b <==> s <= t;
        if i :| 0 <= i < |s| && i < |t| && s[..i] == t[..i] && s[i] < t[i] {
          assert a[..i + 1] == [a[0]] + s[..i] && b[..i + 1] == [b[0]] + t[..i];
          assert a[..i + 1] == b[..i + 1] && a[i + 1] < b[i + 1];
        }
        if i :| 0 <= i < |a| && i < |b| && a[..i] == b[..i] && a[i] < b[i] {
          assert i > 0;
          assert s[..i - 1] == a[..i][1..] && t[..i - 1] == b[..i][1..];
          assert s[i - 1] < t[i - 1];
        }
      } else if a[0] < b[0] {
        assert a[..0] == b[..0];
      } else {
        if i :| 0 <= i < |a| && i < |b| && a[..i] == b[..i] && a[i] < b[i] {
          assert i > 0 ==> a[..i][0] == b[..i][0];
        }
      }
    }
  }

  /** What a level shows in a column, in the order it is asked for: numbers by size and text by letters,
      forwards or backwards, and what is missing behind both. */
  predicate InOrder(a: Value, b: Value, desc: bool) {
    && (a.Num? && b.Num? ==> if desc then a.n >= b.n else a.n <= b.n)
    && (a.Text? && b.Text? ==> if desc then TextLeq(b.s, a.s) else TextLeq(a.s, b.s))
    && (a == Null ==> !b.Num? && !b.Text?)
  }

  /** The children of a parent come in the order of the first sort column, as their level shows it. */
  lemma ChildrenComeInOrder(w: World, node: Node, key: Value, i: nat, j: nat)
    requires node.O2M? && node.query.sort != [] && i < j < |LinkedRows(w, node, key)|
    ensures InOrder(Shown(w, node, LinkedRows(w, node, key)[i]), Shown(w, node, LinkedRows(w, node, key)[j]),
                    node.query.sort[0].desc)
  {
    hide Keep, Take, Sort, Shown, Matching, ChildLeq, ValueLeq;
    ChildOrder(w, node);
    SortSorts(Take(Keep(Matching(w, node.related, node.query), LinkedTo(node, key)), LimitOf(w, node.query)), ChildLeq(w, node));
    var rows := LinkedRows(w, node, key);
    assert ChildLeq(w, node)(rows[i], rows[j]);
    ChildLeqShown(w, node, rows[i], rows[j]);
    OrderMeans(Shown(w, node, rows[i]), Shown(w, node, rows[j]), node.query.sort[0].desc);
  }

  /** The sort field of a relation is selected for the children, requested or not: sorted by it, they come
      in the order of what their rows have there. */
  lemma ChildrenComeBySortField(w: World, node: Node, key: Value, i: nat, j: nat)
    requires node.O2M? && node.query.sort != [] && i < j < |LinkedRows(w, node, key)|
    requires node.sortField == Some(node.query.sort[0].column)
    requires node.sortField.value in w.Fields(node.related) && ColumnUnhidden(node.children, node.sortField.value)
    ensures InOrder(Cell(LinkedRows(w, node, key)[i], node.sortField.value), Cell(LinkedRows(w, node, key)[j], node.sortField.value),
                    node.query.sort[0].desc)
  {
    hide LinkedRows, InOrder;
    ChildrenComeInOrder(w, node, key, i, j);
    SortFieldIsShown(w, node, LinkedRows(w, node, key)[i]);
    SortFieldIsShown(w, node, LinkedRows(w, node, key)[j]);
  }

  lemma SortFieldIsShown(w: World, node: Node, row: Row)
    requires node.O2M? && node.query.sort != [] && node.sortField == Some(node.query.sort[0].column)
    requires node.sortField.value in w.Fields(node.related) && ColumnUnhidden(node.children, node.sortField.value)
    ensures Shown(w, node, row) == Cell(row, node.sortField.value)
  {
    hide ColumnKeys;
    CellForColumn(w, node.related, node.children, row, node.sortField.value);
  }

  lemma OrderMeans(a: Value, b: Value, desc: bool)
    ensures ValueLeq(a, b, desc) ==> InOrder(a, b, desc)
  {
  }

  /** Which children those are: the first of those that match and name the parent, as many as the limit
      lets through. */
  lemma ChildrenAreTheFirst(w: World, node: Node, key: Value)
    requires node.O2M? && node.query.sort != []
    ensures var all := Keep(Matching(w, node.related, node.query), HavingCell(node.field, key));
            var limit := if node.query.limit == None then w.defaultLimit else node.query.limit.value;
            && |LinkedRows(w, node, key)| == (if limit < 0 || |all| <= limit then |all| else limit)
            && forall x :: x in LinkedRows(w, node, key) <==> x in all[..|LinkedRows(w, node, key)|]
  {
    hide Keep, Sort, Matching;
    var all := Keep(Matching(w, node.related, node.query), LinkedTo(node, key));
    SortMembers(Take(all, LimitOf(w, node.query)), ChildLeq(w, node));
    assert all[..|all|] == all;
  }
}
