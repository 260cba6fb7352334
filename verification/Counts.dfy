/**
 Relational counts: the number under a count key is how many rows of the related table, at whatever
 position, name the row at hand and pass the filter of the count.
 */
module Counts {
  import opened Rows
  import opened QueryModel
  import opened NestedJoin
  import opened Unstripped
  import opened Stripping

  /** Where in the related table the rows stand that name the parent and pass the filter. */
  function Pointing(w: World, node: Node, parentKey: Value): set<nat>
    requires node.Count?
  {
    set i: nat | i < |w.Table(node.related)|
                 && Cell(w.Table(node.related)[i], node.field) == parentKey
                 && Holds(node.query.filter, w.Table(node.related)[i])
  }

  /** An item shows the count of its row. */
  ghost predicate ShowsCount(w: World, c: string, node: Node, row: Row, v: Value)
    requires node.Count?
  {
    && v.Obj? && node.key in v.fields
    && v.fields[node.key] == Num(|Pointing(w, node, Cell(row, w.Primary(c)))|)
  }

  /** Every item of a read shows every count of the root. */
  ghost predicate CountsShown(w: World, ast: Ast, result: seq<Value>) {
    && |result| == |Fetch(w, ast.name, ast.query)|
    && forall i, k :: 0 <= i < |result| && 0 <= k < |ast.children| && ast.children[k].Count? ==>
         ShowsCount(w, ast.name, ast.children[k], Fetch(w, ast.name, ast.query)[i], result[i])
  }

  ghost predicate DistinctKeys(children: seq<Node>) {
    forall i, j :: 0 <= i < j < |children| ==> children[i].key != children[j].key
  }

  // ----- how many are kept -----

  function Places<T>(s: seq<T>, p: T -> bool): set<nat> {
    set i: nat | i < |s| && p(s[i])
  }

  lemma {:induction false} KeptPlaces<T>(s: seq<T>, p: T -> bool)
    ensures |Keep(s, p)| == |Places(s, p)|
  {
    if s == [] {
      assert Places(s, p) == {};
    } else {
      var front, last := s[..|s| - 1], s[|s| - 1];
      KeptPlaces(front, p);
      assert s == front + [last];
      KeepAppend(front, [last], p);
      assert Places(s, p) == Places(front, p) + (if p(last) then {|s| - 1} else {});
    }
  }

  /** The count of a row is the number of places it is pointed at from. */
  lemma CountIsPointing(w: World, c: string, node: Node, row: Row)
    requires node.Count?
    ensures CountOf(w, c, node, row) == Num(|Pointing(w, node, Cell(row, w.Primary(c)))|)
  {
    var key := Cell(row, w.Primary(c));
    KeptPlaces(w.Table(node.related), Counted(node, key));
    assert Places(w.Table(node.related), Counted(node, key)) == Pointing(w, node, key);
  }

  // ----- at every level -----

  /** What is requested under a count key. */
  lemma RequestedCounts(w: World, c: string, children: seq<Node>, row: Row, k: nat)
    requires SortsFilled(children) && DistinctKeys(children) && k < |children| && children[k].Count?
    ensures ShowsCount(w, c, children[k], row, Requested(w, c, children, row))
  {
    SortsFilledAt(children, k);
    RequestedShows(w, c, children, row, k);
    CountIsPointing(w, c, children[k], row);
  }

  /** What a level of the run leaves under a count key, whatever else of the row is intact. */
  lemma StrippedCounts(w: World, c: string, pk: string, inBranch: bool, children: seq<Node>, extras: set<string>, row: Row, k: nat)
    requires SortsFilled(children) && KeysGood(w, c, children, extras) && k < |children| && children[k].Count?
    ensures ShowsCount(w, c, children[k], row, StripItem(w, c, pk, inBranch, children, RawItem(w, c, children, extras, row)))
  {
    hide RawItem, StripNested, ChildStripped, CountOf, Pointing, RequestedFields, Needed;
    var raw := RawItem(w, c, children, extras, row);
    StripRawNested(w, c, inBranch, children, extras, row, |children|);
    assert children[..|children|] == children;
    PickedColumn(w, c, children, extras, row, k);
    forall j | 0 <= j < |children| && children[j].IsNested() ensures children[j].key != children[k].key {
      assert j != k;
    }
    assert !Writes(children, |children|, children[k].key);
    assert PickedKey(inBranch, children[k]) == children[k].key;
    CountIsPointing(w, c, children[k], row);
  }

  // ----- what a count says -----

  /** A count is the number of items that an unlimited one-to-many node on the same field and filter
      lists beside it. */
  lemma CountIsHowManyAreListed(w: World, c: string, children: seq<Node>, row: Row, k: nat, l: nat)
    requires Sound(w) && SortsFilled(children) && DistinctKeys(children)
    requires k < |children| && children[k].Count? && l < |children| && children[l].O2M?
    requires children[l].related == children[k].related && children[l].field == children[k].field
    requires children[l].query.filter == children[k].query.filter && LimitOf(w, children[l].query) < 0
    ensures var item := Requested(w, c, children, row);
            && item.Obj? && children[k].key in item.fields && children[l].key in item.fields
            && item.fields[children[l].key].Arr?
            && item.fields[children[k].key] == Num(|item.fields[children[l].key].items|)
  {
    hide Sound, CountOf, LinkedRows, RequestedFields;
    SortsFilledAt(children, k);
    SortsFilledAt(children, l);
    RequestedShows(w, c, children, row, k);
    RequestedShows(w, c, children, row, l);
    LinkedAreCounted(w, c, children[k], children[l], row);
  }

  lemma LinkedAreCounted(w: World, c: string, count: Node, list: Node, row: Row)
    requires Sound(w) && count.Count? && list.O2M? && list.query.sort != []
    requires list.related == count.related && list.field == count.field
    requires list.query.filter == count.query.filter && LimitOf(w, list.query) < 0
    ensures CountOf(w, c, count, row) == Num(|LinkedRows(w, list, Cell(row, w.Primary(c)))|)
  {
    hide Sort, Keep;
    var key := Cell(row, w.Primary(c));
    var table, order := w.Table(list.related), w.before(list.related, list.query.sort);
    var passing, linked := Passes(list.query.filter), LinkedTo(list, key);
    KeepSort(Keep(table, passing), order, linked);
    KeepTwice(table, passing, linked, Counted(count, key));
    SortMembers(Keep(table, Counted(count, key)), order);
    SortMembers(Keep(Matching(w, list.related, list.query), linked), ChildLeq(w, list));
  }

  /** The database with one more row in a table, wherever it stands. */
  function WithRow(w: World, c: string, at: nat, x: Row): World
    requires at <= |w.Table(c)|
  {
    w.(tables := w.tables[c := w.Table(c)[..at] + [x] + w.Table(c)[at..]])
  }

  /** One more row of the related table is one more in the count of the parent it names, if it passes
      the filter, and changes no other count. */
  lemma OneMoreRow(w: World, c: string, children: seq<Node>, row: Row, k: nat, at: nat, x: Row)
    requires SortsFilled(children) && DistinctKeys(children) && k < |children| && children[k].Count?
    requires at <= |w.Table(children[k].related)|
    ensures var node, more := children[k], WithRow(w, children[k].related, at, x);
            var before, after := Requested(w, c, children, row), Requested(more, c, children, row);
            && before.Obj? && after.Obj? && node.key in before.fields && node.key in after.fields
            && before.fields[node.key].Num? && after.fields[node.key].Num?
            && after.fields[node.key].n == before.fields[node.key].n
                 + (if Cell(x, node.field) == Cell(row, w.Primary(c)) && Holds(node.query.filter, x) then 1 else 0)
  {
    hide Requested, Pointing;
    var node, more := children[k], WithRow(w, children[k].related, at, x);
    RequestedCounts(w, c, children, row, k);
    RequestedCounts(more, c, children, row, k);
    OneMorePlace(w, node, Cell(row, w.Primary(c)), at, x);
  }

  lemma OneMorePlace(w: World, node: Node, key: Value, at: nat, x: Row)
    requires node.Count? && at <= |w.Table(node.related)|
    ensures |Pointing(WithRow(w, node.related, at, x), node, key)|
            == |Pointing(w, node, key)| + (if Cell(x, node.field) == key && Holds(node.query.filter, x) then 1 else 0)
  {
    hide Keep;
    var more := WithRow(w, node.related, at, x);
    var table, p := w.Table(node.related), Counted(node, key);
    KeptPlaces(table, p);
    KeptPlaces(more.Table(node.related), p);
    assert Places(table, p) == Pointing(w, node, key);
    assert Places(more.Table(node.related), p) == Pointing(more, node, key);
    KeepAppend(table[..at] + [x], table[at..], p);
    KeepAppend(table[..at], [x], p);
    KeepAppend(table[..at], table[at..], p);
    assert table[..at] + table[at..] == table;
    KeepOne(x, p);
  }

  lemma KeepOne<T>(x: T, p: T -> bool)
    ensures Keep([x], p) == if p(x) then [x] else []
  {
    assert [x][1..] == [];
  }
}
