/**
 Why a nested fetch may be cut down to the parents at hand: what the `_in` prefilter makes of a filter, and
 that it and the limit of a many-to-any fetch change nothing in what the merge gives each kind of node;
 and what the merge links to a parent.
 */
module Merging {
  import opened Rows
  import opened Wrappers
  import opened QueryModel
  import opened NestedJoin
  import opened Unstripped

  // ----- the prefilter -----

  function Uniq(s: seq<Value>): (r: seq<Value>)
    ensures forall v :: v in r <==> v in s
    ensures forall i, j :: 0 <= i < j < |r| ==> r[i] != r[j]
  {
    if s == [] then []
    else
      var before := Uniq(s[..|s| - 1]);
      assert s == s[..|s| - 1] + [s[|s| - 1]];
      if s[|s| - 1] in before then before else before + [s[|s| - 1]]
  }

  function Present(s: seq<Value>): (r: seq<Value>)
    ensures forall v :: v in r <==> v in s && v != Null
  {
    if s == [] then [] else (if s[0] == Null then [] else [s[0]]) + Present(s[1..])
  }

  function Column(items: seq<Item>, k: string): (r: seq<Value>)
    ensures |r| == |items|
    ensures forall i :: 0 <= i < |items| ==> r[i] == Cell(items[i], k)
  {
    if items == [] then [] else [Cell(items[0], k)] + Column(items[1..], k)
  }

  /** The keys the parents mention in one column. */
  function ParentIds(items: seq<Item>, k: string): (r: seq<Value>)
    ensures forall i :: 0 <= i < |items| ==> Cell(items[i], k) in r || Cell(items[i], k) == Null
    ensures forall v :: v in r ==> v != Null && exists i :: 0 <= i < |items| && Cell(items[i], k) == v
  {
    assert forall i :: 0 <= i < |items| ==> Column(items, k)[i] in Column(items, k);
    Present(Uniq(Column(items, k)))
  }

  /** `merge` overwrites arrays index by index. */
  function Overwrite(old_: seq<Value>, new_: seq<Value>): seq<Value> {
    if |new_| >= |old_| then new_ else new_ + old_[|new_|..]
  }

  /** `merge(query, { filter: { [field]: { _in: ids } } })`: a new entry, or another operator in an
      entry that is already there, which is then not the first and not looked at. */
  function MergeClauses(clauses: seq<Clause>, field: string, ids: seq<Value>): seq<Clause> {
    if clauses == [] then [On(field, In(ids))]
    else if clauses[0].On? && clauses[0].field == field then
      (match clauses[0].test
       case In(values) => [On(field, In(Overwrite(values, ids)))] + clauses[1..]
       case Where(_) => clauses)
    else [clauses[0]] + MergeClauses(clauses[1..], field, ids)
  }

  function MergeIn(f: Filter, field: string, ids: seq<Value>): Filter {
    Filter(MergeClauses(f.clauses, field, ids))
  }

  /** The test of the first clause on a field, which is the one the prefilter is merged into. */
  function TestOn(clauses: seq<Clause>, field: string): Option<Test> {
    if clauses == [] then None
    else if clauses[0].On? && clauses[0].field == field then Some(clauses[0].test)
    else TestOn(clauses[1..], field)
  }

  /** The other clauses. */
  function Others(clauses: seq<Clause>, field: string): seq<Clause> {
    if clauses == [] then []
    else if clauses[0].On? && clauses[0].field == field then clauses[1..]
    else [clauses[0]] + Others(clauses[1..], field)
  }

  predicate PassesTest(test: Option<Test>, v: Value, row: Row) {
    match test
    case None => true
    case Some(In(values)) => v in values
    case Some(Where(holds)) => holds(row)
  }

  /** What a row has to pass in the field, once the ids are merged in: the ids, the ids written over
      the user's values, or the user's other operator alone. */
  predicate PassesMerged(test: Option<Test>, ids: seq<Value>, v: Value, row: Row) {
    match test
    case None => v in ids
    case Some(In(values)) => v in Overwrite(values, ids)
    case Some(Where(holds)) => holds(row)
  }

  /** What a filter says, and what the merged one does. */
  lemma {:induction false} ClausesMerged(clauses: seq<Clause>, field: string, ids: seq<Value>, row: Row)
    ensures HoldsAll(clauses, row)
            <==> HoldsAll(Others(clauses, field), row) && PassesTest(TestOn(clauses, field), Cell(row, field), row)
    ensures HoldsAll(MergeClauses(clauses, field, ids), row)
            <==> HoldsAll(Others(clauses, field), row) && PassesMerged(TestOn(clauses, field), ids, Cell(row, field), row)
  {
    var merged := MergeClauses(clauses, field, ids);
    if clauses == [] {
      assert merged[1..] == [];
    } else if clauses[0].On? && clauses[0].field == field {
      assert merged[1..] == clauses[1..];
    } else {
      ClausesMerged(clauses[1..], field, ids, row);
      assert merged[0] == clauses[0] && merged[1..] == MergeClauses(clauses[1..], field, ids);
      var others := Others(clauses, field);
      assert others[0] == clauses[0] && others[1..] == Others(clauses[1..], field);
    }
  }

  lemma {:induction false} FirstTest(clauses: seq<Clause>, field: string)
    ensures NoInOn(Filter(clauses), field) ==> !(TestOn(clauses, field).Some? && TestOn(clauses, field).value.In?)
    ensures NothingOn(Filter(clauses), field) ==> TestOn(clauses, field).None?
  {
    if clauses != [] {
      FirstTest(clauses[1..], field);
      assert forall i :: 0 <= i < |clauses[1..]| ==> clauses[1..][i] == clauses[i + 1];
    }
  }

  /** For every row the parents point at, the merged filter says what the user's says. */
  ghost predicate MergeAgrees(f: Filter, field: string, ids: seq<Value>) {
    forall row: Row :: Cell(row, field) in ids ==> (Holds(MergeIn(f, field, ids), row) <==> Holds(f, row))
  }

  /** That is so exactly when the first clause on the field is no `_in`, or one whose values hold
      whatever the parents point at and the rest of the filter lets through. */
  lemma MergeAgreesIff(f: Filter, field: string, ids: seq<Value>)
    ensures MergeAgrees(f, field, ids)
            <==> match TestOn(f.clauses, field)
                 case Some(In(values)) =>
                   forall row: Row :: Cell(row, field) in ids && HoldsAll(Others(f.clauses, field), row) ==>
                     Cell(row, field) in values
                 case _ => true
  {
    forall row: Row
      ensures HoldsAll(f.clauses, row)
              <==> HoldsAll(Others(f.clauses, field), row) && PassesTest(TestOn(f.clauses, field), Cell(row, field), row)
      ensures HoldsAll(MergeClauses(f.clauses, field, ids), row)
              <==> HoldsAll(Others(f.clauses, field), row)
                   && PassesMerged(TestOn(f.clauses, field), ids, Cell(row, field), row)
    {
      ClausesMerged(f.clauses, field, ids, row);
    }
    match TestOn(f.clauses, field) {
      case Some(In(values)) =>
        forall row: Row | Cell(row, field) in ids ensures Cell(row, field) in Overwrite(values, ids) {
          OverwriteHasIds(values, ids);
        }
      case _ =>
    }
  }

  lemma OverwriteHasIds(values: seq<Value>, ids: seq<Value>)
    ensures forall v :: v in ids ==> v in Overwrite(values, ids)
  {
  }

  /** A filter that is one `_in`: the merge is right exactly when the user asked for all that the
      parents point at. */
  lemma MergedInAgreesIff(field: string, values: seq<Value>, ids: seq<Value>)
    ensures MergeAgrees(Filter([On(field, In(values))]), field, ids) <==> forall v :: v in ids ==> v in values
  {
    var f := Filter([On(field, In(values))]);
    MergeAgreesIff(f, field, ids);
    assert TestOn(f.clauses, field) == Some(In(values));
    assert Others(f.clauses, field) == [];
    forall v | v in ids && MergeAgrees(f, field, ids) ensures v in values {
      var row: Row := map[field := v];
      assert Cell(row, field) in ids && HoldsAll(Others(f.clauses, field), row);
    }
  }

  /** Merged over an `_in` of the user's, the prefilter replaces its values: a tree that asks for
      the children of parent 1 is given those of parent 2. */
  lemma MergeMayForgetAnIn()
    ensures var user := Filter([On("parent", In([Num(1)]))]);
            var row := map["parent" := Num(2)];
            !Holds(user, row) && Holds(MergeIn(user, "parent", [Num(2)]), row)
  {
    var user := Filter([On("parent", In([Num(1)]))]);
    var merged := MergeIn(user, "parent", [Num(2)]);
    assert merged.clauses == [On("parent", In([Num(2)]))];
    assert merged.clauses[1..] == [] && user.clauses[1..] == [];
  }

  lemma MatchingMembers(w: World, c: string, q: Query)
    ensures forall r :: r in Matching(w, c, q) <==> r in w.Table(c) && Holds(q.filter, r)
  {
    KeepMembers(w.Table(c), Passes(q.filter));
    SortMembers(Keep(w.Table(c), Passes(q.filter)), w.before(c, q.sort));
  }

  /** A changed filter is not seen by a parent exactly when it was changed for no row the parent
      looks at. */
  lemma PrefilterInvisible(w: World, c: string, q: Query, q': Query, p: Row -> bool)
    requires Sound(w) && q'.sort == q.sort
    ensures Keep(Matching(w, c, q'), p) == Keep(Matching(w, c, q), p)
            <==> forall i :: 0 <= i < |w.Table(c)| && p(w.Table(c)[i]) ==>
                   (Holds(q'.filter, w.Table(c)[i]) <==> Holds(q.filter, w.Table(c)[i]))
  {
    var rows := w.Table(c);
    if forall i :: 0 <= i < |rows| && p(rows[i]) ==> (Holds(q'.filter, rows[i]) <==> Holds(q.filter, rows[i])) {
      var both := (r: Row) => Holds(q.filter, r) && p(r);
      KeepSort(Keep(rows, Passes(q'.filter)), w.before(c, q.sort), p);
      KeepSort(Keep(rows, Passes(q.filter)), w.before(c, q.sort), p);
      KeepTwice(rows, Passes(q.filter), p, both);
      KeepTwice(rows, Passes(q'.filter), p, both);
    } else {
      MatchingMembers(w, c, q);
      MatchingMembers(w, c, q');
      KeepMembers(Matching(w, c, q), p);
      KeepMembers(Matching(w, c, q'), p);
    }
  }

  /** The one related row a parent points at is the same with and without the prefilter. */
  lemma RelatedThroughPrefilter(w: World, c: string, q: Query, ids: seq<Value>, v: Value)
    requires Sound(w) && NoInOn(q.filter, w.Primary(c))
    requires v in ids || v == Null
    ensures RelatedRow(w, c, q.(filter := MergeIn(q.filter, w.Primary(c), ids)), v) == RelatedRow(w, c, q, v)
  {
    var q' := q.(filter := MergeIn(q.filter, w.Primary(c), ids));
    var p := HavingCell(w.Primary(c), v);
    forall i | 0 <= i < |w.Table(c)| && p(w.Table(c)[i])
      ensures Holds(q'.filter, w.Table(c)[i]) <==> Holds(q.filter, w.Table(c)[i])
    {
      FirstTest(q.filter.clauses, w.Primary(c));
      ClausesMerged(q.filter.clauses, w.Primary(c), ids, w.Table(c)[i]);
    }
    PrefilterInvisible(w, c, q, q', p);
  }

  // ----- members of a fetch -----

  lemma RelatedRowIsRelated(w: World, c: string, q: Query, v: Value)
    requires RelatedRow(w, c, q, v).Some?
    ensures RelatedRow(w, c, q, v).value in w.Table(c)
    ensures Cell(RelatedRow(w, c, q, v).value, w.Primary(c)) == v
  {
    var p := HavingCell(w.Primary(c), v);
    var kept := Keep(Matching(w, c, q), p);
    MatchingMembers(w, c, q);
    KeepMembers(Matching(w, c, q), p);
    assert kept[0] in kept;
  }

  lemma KeyIsScalar(w: World, c: string, row: Row)
    requires Sound(w) && row in w.Table(c)
    ensures Cell(row, w.Primary(c)) != Null && !Cell(row, w.Primary(c)).Obj? && !Cell(row, w.Primary(c)).Arr?
  {
    var i: nat :| i < |w.Table(c)| && w.Table(c)[i] == row;
  }

  // ----- many to one -----

  /** `find` on the fetched items, or null. */
  function FindBy(values: seq<Value>, k: string, v: Value): Value {
    if values == [] then Null
    else if values[0].Obj? && Cell(values[0].fields, k) == v then values[0]
    else FindBy(values[1..], k, v)
  }

  lemma {:induction false} FindInRaw(w: World, c: string, children: seq<Node>, extras: set<string>, rows: seq<Row>, v: Value)
    requires SortsFilled(children) && KeysGood(w, c, children, extras)
    ensures var r := First(Keep(rows, HavingCell(w.Primary(c), v)));
            FindBy(RawAll(w, c, children, extras, rows), w.Primary(c), v) ==
            if r.None? then Null else Obj(RawItem(w, c, children, extras, r.value))
  {
    if rows != [] {
      FindInRaw(w, c, children, extras, rows[1..], v);
      RawShowsPrimary(w, c, children, extras, rows[0]);
    }
  }

  // ----- one to many -----

  /** The test of `mergeWithParentItems` on a fetched child. */
  function MatchesParent(fk: string, primary: string, key: Value): Value -> bool {
    (v: Value) => v.Obj? && (Cell(v.fields, fk).Arr? || Cell(v.fields, fk) == key
                    || (Cell(v.fields, fk).Obj? && Cell(Cell(v.fields, fk).fields, primary) == key))
  }

  function ValuesLeq(o: Order): (Value, Value) -> bool {
    (a: Value, b: Value) => ValueLeq(Cell(FieldsOf(a), o.column), Cell(FieldsOf(b), o.column), o.desc)
  }

  function ToRaw(w: World, c: string, children: seq<Node>, extras: set<string>): Row -> Value
    requires SortsFilled(children)
  {
    row => Obj(RawItem(w, c, children, extras, row))
  }

  lemma RawIsMap(w: World, c: string, children: seq<Node>, extras: set<string>, rows: seq<Row>)
    requires SortsFilled(children)
    ensures RawAll(w, c, children, extras, rows) == Map(rows, ToRaw(w, c, children, extras))
  {
  }

  /** The foreign key of a child is selected under its own name. */
  lemma ForeignKeyShows(w: World, node: Node, row: Row)
    requires node.O2M? && ForeignKeyShown(w, node)
    ensures node.field in Selected(w, node.related, node.children, Extras(node), row)
    ensures Selected(w, node.related, node.children, Extras(node), row)[node.field] == Cell(row, node.field)
  {
    CellForColumn(w, node.related, node.children, row, node.field);
  }

  lemma MatchWithoutBackReference(w: World, c: string, node: Node, row: Row, key: Value)
    requires SortFilled(node) && node.O2M? && O2MGood(w, c, node) && KeysGood(w, node.related, node.children, Extras(node))
    requires !Cell(row, node.field).Obj? && !Cell(row, node.field).Arr?
    requires forall i :: 0 <= i < |node.children| && node.children[i].IsNested() ==> node.children[i].key != node.field
    ensures MatchesParent(node.field, w.Primary(c), key)(Obj(RawItem(w, node.related, node.children, Extras(node), row)))
            <==> LinkedTo(node, key)(row)
  {
    var selected := Selected(w, node.related, node.children, Extras(node), row);
    ForeignKeyShows(w, node, row);
    OverlayKeeps(w, node.related, node.children, row, selected, node.field);
  }

  /** Under the foreign key the child holds the parent it was given, or null. */
  lemma WayBackItem(w: World, c: string, node: Node, row: Row, i: nat)
    requires SortFilled(node) && node.O2M? && KeysGood(w, node.related, node.children, Extras(node))
    requires i < |node.children| && node.children[i].M2O? && node.children[i].key == node.children[i].field == node.field
    requires NodeGood(w, node.related, node.children[i])
    ensures var child := node.children[i];
            var r := RelatedRow(w, child.related, child.query, Cell(row, child.field));
            var shown := Cell(RawItem(w, node.related, node.children, Extras(node), row), node.field);
            && (r.None? ==> shown == Null)
            && (r.Some? ==> shown.Obj? && Cell(shown.fields, w.Primary(child.related)) == Cell(row, child.field))
  {
    var child := node.children[i];
    forall j | 0 <= j < |node.children| && j != i ensures node.children[j].key != child.key { }
    assert !FieldTaken(node.children, i);
    OverlayWrites(w, node.related, node.children, row, Selected(w, node.related, node.children, Extras(node), row), i);
    var r := RelatedRow(w, child.related, child.query, Cell(row, child.field));
    if r.Some? {
      hide RelatedRow, RawItem;
      RelatedRowIsRelated(w, child.related, child.query, Cell(row, child.field));
      RawShowsPrimary(w, child.related, child.children, {}, r.value);
    }
  }

  /** There is one way back at most. */
  lemma WayBackIs(w: World, node: Node, i: nat, key: Value)
    requires node.O2M? && KeysGood(w, node.related, node.children, Extras(node))
    requires i < |node.children| && node.children[i].M2O? && node.children[i].key == node.field
    ensures WayBackShows(w, node, key)
            <==> RelatedRow(w, node.children[i].related, node.children[i].query, key).Some?
  {
    forall j | 0 <= j < |node.children| && IsWayBack(node, node.children[j]) ensures j == i {
      assert node.children[j].key == node.children[i].key;
    }
    assert IsWayBack(node, node.children[i]);
  }

  lemma MatchWithBackReference(w: World, c: string, node: Node, row: Row, key: Value, i: nat)
    requires SortFilled(node) && node.O2M? && O2MGood(w, c, node) && KeysGood(w, node.related, node.children, Extras(node))
    requires i < |node.children| && node.children[i].IsNested() && node.children[i].key == node.field
    requires NodeGood(w, node.related, node.children[i])
    requires key != Null && !key.Obj?
    ensures MatchesParent(node.field, w.Primary(c), key)(Obj(RawItem(w, node.related, node.children, Extras(node), row)))
            <==> LinkedTo(node, key)(row) && WayBackShows(w, node, key)
  {
    hide RawItem, RelatedRow, NodeGood, WayBackShows, KeysGood;
    WayBackItem(w, c, node, row, i);
    WayBackIs(w, node, i, key);
  }

  /** A fetched child matches a parent exactly when its row names it and, where the children request
      their parent back under the foreign key, this parent was given to them. */
  lemma MatchIsLink(w: World, c: string, node: Node, row: Row, key: Value)
    requires Sound(w) && SortFilled(node) && node.O2M? && NodeGood(w, c, node)
    requires row in w.Table(node.related)
    requires key != Null && !key.Obj? && !key.Arr?
    ensures MatchesParent(node.field, w.Primary(c), key)(Obj(RawItem(w, node.related, node.children, Extras(node), row)))
            <==> LinkedTo(node, key)(row) && WayBackShows(w, node, key)
  {
    if i :| 0 <= i < |node.children| && node.children[i].IsNested() && node.children[i].key == node.field {
      MatchWithBackReference(w, c, node, row, key, i);
    } else {
      MatchWithoutBackReference(w, c, node, row, key);
    }
  }

  /** On the query: a parent is given back to its children exactly when it passes the filter of the
      node nested under the foreign key itself. */
  lemma WayBackShowsIff(w: World, c: string, node: Node, parent: Row)
    requires Sound(w) && node.O2M? && O2MGood(w, c, node) && parent in w.Table(c)
    ensures WayBackShows(w, node, Cell(parent, w.Primary(c)))
            <==> forall i :: 0 <= i < |node.children| && IsWayBack(node, node.children[i]) ==>
                   Holds(node.children[i].query.filter, parent)
  {
    forall i | 0 <= i < |node.children| && IsWayBack(node, node.children[i])
      ensures RelatedRow(w, node.children[i].related, node.children[i].query, Cell(parent, w.Primary(c))).Some?
              <==> Holds(node.children[i].query.filter, parent)
    {
      OwnRowIsRelatedIff(w, c, node.children[i].query, parent);
    }
  }

  lemma OwnRowIsRelatedIff(w: World, c: string, q: Query, row: Row)
    requires Sound(w) && row in w.Table(c)
    ensures RelatedRow(w, c, q, Cell(row, w.Primary(c))).Some? <==> Holds(q.filter, row)
  {
    var p := HavingCell(w.Primary(c), Cell(row, w.Primary(c)));
    var kept := Keep(Matching(w, c, q), p);
    MatchingMembers(w, c, q);
    KeepMembers(Matching(w, c, q), p);
    assert p(row);
    if kept != [] {
      assert kept[0] in kept;
      OneWithKey(w, c, kept[0], row);
    }
  }

  lemma OneWithKey(w: World, c: string, a: Row, b: Row)
    requires Sound(w) && a in w.Table(c) && b in w.Table(c)
    requires Cell(a, w.Primary(c)) == Cell(b, w.Primary(c))
    ensures a == b
  {
    var i: nat :| i < |w.Table(c)| && w.Table(c)[i] == a;
    var j: nat :| j < |w.Table(c)| && w.Table(c)[j] == b;
  }

  lemma RawOrder(w: World, c: string, node: Node, a: Row, b: Row)
    requires SortFilled(node) && node.O2M? && O2MGood(w, c, node)
    ensures ValuesLeq(node.query.sort[0])(Obj(RawItem(w, node.related, node.children, Extras(node), a)),
                                          Obj(RawItem(w, node.related, node.children, Extras(node), b)))
            == ChildLeq(w, node)(a, b)
  {
    var o := node.query.sort[0];
    var sa := Selected(w, node.related, node.children, Extras(node), a);
    var sb := Selected(w, node.related, node.children, Extras(node), b);
    var x := RawItem(w, node.related, node.children, Extras(node), a);
    var y := RawItem(w, node.related, node.children, Extras(node), b);
    OverlayKeeps(w, node.related, node.children, a, sa, o.column);
    OverlayKeeps(w, node.related, node.children, b, sb, o.column);
    assert Cell(x, o.column) == Cell(sa, o.column) && Cell(y, o.column) == Cell(sb, o.column);
    ValuesLeqCells(o, Obj(x), Obj(y));
    assert ChildLeq(w, node)(a, b) == ItemLeq(o)(sa, sb);
  }

  lemma ValuesLeqCells(o: Order, a: Value, b: Value)
    ensures ValuesLeq(o)(a, b) == ValueLeq(Cell(FieldsOf(a), o.column), Cell(FieldsOf(b), o.column), o.desc)
  {
  }

  lemma ValuesOrder(o: Order)
    ensures Preorder(ValuesLeq(o))
  {
    var leq := ValuesLeq(o);
    forall a: Value, b: Value ensures leq(a, b) || leq(b, a) {
      ValueTotal(Cell(FieldsOf(a), o.column), Cell(FieldsOf(b), o.column), o.desc);
    }
    forall a: Value, b: Value, c: Value | leq(a, b) && leq(b, c) ensures leq(a, c) {
      ValueTransitive(Cell(FieldsOf(a), o.column), Cell(FieldsOf(b), o.column), Cell(FieldsOf(c), o.column), o.desc);
    }
  }

  /** The children a parent gets out of all fetched rows, cut and sorted: its linked rows, or none if
      it was not given back to them. */
  lemma MergedAreLinked(w: World, c: string, node: Node, q': Query, key: Value)
    requires Sound(w) && SortFilled(node) && node.O2M? && NodeGood(w, c, node)
    requires key != Null && !key.Obj? && !key.Arr?
    requires q'.sort == node.query.sort
    requires exists ids :: key in ids && q'.filter == MergeIn(node.query.filter, node.field, ids)
    ensures var rows := Matching(w, node.related, q');
            var raw := RawAll(w, node.related, node.children, Extras(node), rows);
            Sort(Take(Keep(raw, MatchesParent(node.field, w.Primary(c), key)), LimitOf(w, node.query)),
                 ValuesLeq(node.query.sort[0]))
            == RawAll(w, node.related, node.children, Extras(node), MergedRows(w, node, key))
  {
    var rows := Matching(w, node.related, q');
    var raw := RawAll(w, node.related, node.children, Extras(node), rows);
    var m := MatchesParent(node.field, w.Primary(c), key);
    MatchingMembers(w, node.related, q');
    forall r | r in rows
      ensures m(ToRaw(w, node.related, node.children, Extras(node))(r)) <==> LinkedTo(node, key)(r) && WayBackShows(w, node, key)
    {
      MatchIsLink(w, c, node, r, key);
    }
    hide Matching, LinkedRows;
    if WayBackShows(w, node, key) {
      MatchedAreLinked(w, c, node, q', key);
    } else {
      NoneMatch(w, node.related, node.children, Extras(node), rows, m);
    }
  }

  lemma NoneMatch(w: World, c: string, children: seq<Node>, extras: set<string>, rows: seq<Row>, m: Value -> bool)
    requires SortsFilled(children)
    requires forall r :: r in rows ==> !m(ToRaw(w, c, children, extras)(r))
    ensures Keep(RawAll(w, c, children, extras, rows), m) == []
  {
    var raw := RawAll(w, c, children, extras, rows);
    forall v | v in raw ensures !m(v) {
      var i :| 0 <= i < |raw| && raw[i] == v;
      assert raw[i] == ToRaw(w, c, children, extras)(rows[i]);
    }
    KeepNone(raw, m);
  }

  /** Where the fetched items that match are those of the rows that name the parent. */
  lemma MatchedAreLinked(w: World, c: string, node: Node, q': Query, key: Value)
    requires Sound(w) && SortFilled(node) && node.O2M? && O2MGood(w, c, node)
    requires q'.sort == node.query.sort
    requires exists ids :: key in ids && q'.filter == MergeIn(node.query.filter, node.field, ids)
    requires forall r :: r in Matching(w, node.related, q') ==>
               (MatchesParent(node.field, w.Primary(c), key)(ToRaw(w, node.related, node.children, Extras(node))(r))
                <==> LinkedTo(node, key)(r))
    ensures var rows := Matching(w, node.related, q');
            var raw := RawAll(w, node.related, node.children, Extras(node), rows);
            Sort(Take(Keep(raw, MatchesParent(node.field, w.Primary(c), key)), LimitOf(w, node.query)),
                 ValuesLeq(node.query.sort[0]))
            == RawAll(w, node.related, node.children, Extras(node), LinkedRows(w, node, key))
  {
    var ids :| key in ids && q'.filter == MergeIn(node.query.filter, node.field, ids);
    var rows := Matching(w, node.related, q');
    var f := ToRaw(w, node.related, node.children, Extras(node));
    var p := LinkedTo(node, key);
    var m := MatchesParent(node.field, w.Primary(c), key);
    var limit := LimitOf(w, node.query);
    RawIsMap(w, node.related, node.children, Extras(node), rows);
    KeepMap(rows, f, p, m);
    forall i | 0 <= i < |w.Table(node.related)| && p(w.Table(node.related)[i])
      ensures Holds(q'.filter, w.Table(node.related)[i]) <==> Holds(node.query.filter, w.Table(node.related)[i])
    {
      FirstTest(node.query.filter.clauses, node.field);
      ClausesMerged(node.query.filter.clauses, node.field, ids, w.Table(node.related)[i]);
    }
    PrefilterInvisible(w, node.related, node.query, q', p);
    var linked := Keep(rows, p);
    TakeMap(linked, f, limit);
    forall a: Row, b: Row ensures ValuesLeq(node.query.sort[0])(f(a), f(b)) == ChildLeq(w, node)(a, b) {
      RawOrder(w, c, node, a, b);
    }
    SortMap(Take(linked, limit), f, ChildLeq(w, node), ValuesLeq(node.query.sort[0]));
    RawIsMap(w, node.related, node.children, Extras(node), LinkedRows(w, node, key));
  }

  lemma LinkedMembers(w: World, node: Node, key: Value)
    requires node.O2M? && node.query.sort != []
    ensures forall r :: r in LinkedRows(w, node, key) ==> r in w.Table(node.related)
  {
    var rows := Matching(w, node.related, node.query);
    var kept := Keep(rows, LinkedTo(node, key));
    MatchingMembers(w, node.related, node.query);
    KeepMembers(rows, LinkedTo(node, key));
    SortMembers(Take(kept, LimitOf(w, node.query)), ChildLeq(w, node));
  }

  /** The children's own sort column: unhidden, it is compared as the database does, or not selected
      and equal for all. */
  lemma ChildLeqIsColumn(w: World, node: Node, a: Row, b: Row)
    requires node.O2M? && node.query.sort != [] && ColumnUnhidden(node.children, node.query.sort[0].column)
    ensures ItemLeq(node.query.sort[0])(a, b) ==> ChildLeq(w, node)(a, b)
  {
    var o := node.query.sort[0];
    var keys := SelectKeys(w, node.related, node.children, Extras(node));
    var x := Selected(w, node.related, node.children, Extras(node), a);
    var y := Selected(w, node.related, node.children, Extras(node), b);
    CellForColumn(w, node.related, node.children, a, o.column);
    CellForColumn(w, node.related, node.children, b, o.column);
    assert Cell(x, o.column) == if o.column in keys then Cell(a, o.column) else Null;
    assert Cell(y, o.column) == if o.column in keys then Cell(b, o.column) else Null;
    assert ChildLeq(w, node)(a, b) == ItemLeq(o)(x, y);
    assert ItemLeq(o)(x, y) == ValueLeq(Cell(x, o.column), Cell(y, o.column), o.desc);
  }

  /** What a child shows under the sort column. */
  function Shown(w: World, node: Node, row: Row): Value
    requires node.O2M? && node.query.sort != []
  {
    Cell(Selected(w, node.related, node.children, Extras(node), row), node.query.sort[0].column)
  }

  lemma ChildLeqShown(w: World, node: Node, a: Row, b: Row)
    requires node.O2M? && node.query.sort != []
    ensures ChildLeq(w, node)(a, b) == ValueLeq(Shown(w, node, a), Shown(w, node, b), node.query.sort[0].desc)
  {
    var o := node.query.sort[0];
    var x := Selected(w, node.related, node.children, Extras(node), a);
    var y := Selected(w, node.related, node.children, Extras(node), b);
    assert ChildLeq(w, node)(a, b) == ItemLeq(o)(x, y);
    assert ItemLeq(o)(x, y) == ValueLeq(Cell(x, o.column), Cell(y, o.column), o.desc);
  }

  lemma ChildOrder(w: World, node: Node)
    requires node.O2M? && node.query.sort != []
    ensures Preorder(ChildLeq(w, node))
  {
    hide Shown, ChildLeq;
    var leq := ChildLeq(w, node);
    var o := node.query.sort[0];
    forall a: Row, b: Row ensures leq(a, b) == ValueLeq(Shown(w, node, a), Shown(w, node, b), o.desc) {
      ChildLeqShown(w, node, a, b);
    }
    forall a: Row, b: Row ensures leq(a, b) || leq(b, a) {
      ValueTotal(Shown(w, node, a), Shown(w, node, b), o.desc);
    }
    forall a: Row, b: Row, c: Row | leq(a, b) && leq(b, c) ensures leq(a, c) {
      ValueTransitive(Shown(w, node, a), Shown(w, node, b), Shown(w, node, c), o.desc);
    }
  }

  /** The merged children are in the order of the database exactly when that orders what they show under
      the sort column. */
  lemma ResortInvisibleIff(w: World, node: Node, key: Value)
    requires node.O2M? && node.query.sort != []
    ensures var cut := Take(Keep(Matching(w, node.related, node.query), LinkedTo(node, key)), LimitOf(w, node.query));
            LinkedRows(w, node, key) == cut <==> Sorted(cut, ChildLeq(w, node))
  {
    var cut := Take(Keep(Matching(w, node.related, node.query), LinkedTo(node, key)), LimitOf(w, node.query));
    ChildOrder(w, node);
    SortSorts(cut, ChildLeq(w, node));
    if Sorted(cut, ChildLeq(w, node)) {
      SortOfSorted(cut, ChildLeq(w, node));
    }
  }

  /** Sorting the merged children again changes nothing where the database orders by the first sort
      column before anything else. */
  lemma ResortInvisible(w: World, node: Node, key: Value)
    requires Sound(w) && node.O2M? && node.query.sort != [] && ColumnUnhidden(node.children, node.query.sort[0].column)
    requires forall a, b | a in w.Table(node.related) && b in w.Table(node.related) ::
               w.before(node.related, node.query.sort)(a, b) ==> ItemLeq(node.query.sort[0])(a, b)
    ensures LinkedRows(w, node, key)
            == Take(Keep(Matching(w, node.related, node.query), LinkedTo(node, key)), LimitOf(w, node.query))
  {
    var before := w.before(node.related, node.query.sort);
    var rows := Matching(w, node.related, node.query);
    var linked := Keep(rows, LinkedTo(node, key));
    SortSorts(Keep(w.Table(node.related), Passes(node.query.filter)), before);
    MatchingMembers(w, node.related, node.query);
    KeepSorted(rows, before, LinkedTo(node, key));
    KeepMembers(rows, LinkedTo(node, key));
    hide Matching, LinkedTo, Keep, ChildLeq, ItemLeq;
    var cut := Take(linked, LimitOf(w, node.query));
    forall i, j | 0 <= i < j < |cut| ensures ChildLeq(w, node)(cut[i], cut[j]) {
      assert before(linked[i], linked[j]);
      assert linked[i] in linked && linked[j] in linked;
      ChildLeqIsColumn(w, node, linked[i], linked[j]);
    }
    SortOfSorted(cut, ChildLeq(w, node));
  }

  // ----- many to any -----

  /** The keys that the parents of one collection mention. */
  function KeysFor(items: seq<Item>, collectionField: string, field: string, collection: string): (r: seq<Value>)
    ensures forall i :: 0 <= i < |items| && Cell(items[i], collectionField) == Text(collection) ==> Cell(items[i], field) in r
    ensures forall v :: v in r ==>
              exists i :: 0 <= i < |items| && Cell(items[i], collectionField) == Text(collection) && Cell(items[i], field) == v
  {
    if items == [] then []
    else
      var rest := KeysFor(items[1..], collectionField, field, collection);
      assert forall i :: 1 <= i < |items| ==> items[i] == items[1..][i - 1];
      if Cell(items[0], collectionField) == Text(collection) then [Cell(items[0], field)] + rest else rest
  }

  lemma {:induction false} SetOfSeq(s: seq<Value>)
    ensures |set v | v in s| <= |s|
  {
    if s == [] {
      assert (set v | v in s) == {};
    } else {
      SetOfSeq(s[1..]);
      assert (set v | v in s) == {s[0]} + (set v | v in s[1..]);
    }
  }

  lemma {:induction false} KeptAreFew(rows: seq<Row>, k: string, p: Row -> bool, allowed: set<Value>)
    requires forall i, j :: 0 <= i < j < |rows| ==> Cell(rows[i], k) != Cell(rows[j], k)
    requires forall i :: 0 <= i < |rows| && p(rows[i]) ==> Cell(rows[i], k) in allowed
    ensures |Keep(rows, p)| <= |allowed|
  {
    if rows != [] {
      var rest := rows[1..];
      assert forall i :: 0 <= i < |rest| ==> rest[i] == rows[i + 1];
      if p(rows[0]) {
        KeptAreFew(rest, k, p, allowed - {Cell(rows[0], k)});
      } else {
        KeptAreFew(rest, k, p, allowed);
      }
    }
  }

  /** A prefiltered fetch finds no more rows than there are keys. */
  lemma FewMatch(w: World, c: string, q: Query, ids: seq<Value>)
    requires Sound(w) && NothingOn(q.filter, w.Primary(c))
    ensures |Matching(w, c, q.(filter := MergeIn(q.filter, w.Primary(c), ids)))| <= |ids|
  {
    var merged := MergeIn(q.filter, w.Primary(c), ids);
    var rows := w.Table(c);
    forall i | 0 <= i < |rows| && Passes(merged)(rows[i])
      ensures Cell(rows[i], w.Primary(c)) in (set v | v in ids)
    {
      FirstTest(q.filter.clauses, w.Primary(c));
      ClausesMerged(q.filter.clauses, w.Primary(c), ids, rows[i]);
    }
    KeptAreFew(rows, w.Primary(c), Passes(merged), set v | v in ids);
    SetOfSeq(ids);
    SortMembers(Keep(rows, Passes(merged)), w.before(c, q.sort));
  }

  /** A fetch by primary keys, limited to as many rows as there are keys, misses none. */
  lemma LimitInvisible(w: World, c: string, q: Query, ids: seq<Value>)
    requires Sound(w) && NothingOn(q.filter, w.Primary(c)) && q.page <= 1 && (q.page == 1 || q.offset == 0)
    ensures var q' := q.(filter := MergeIn(q.filter, w.Primary(c), ids), limit := Some(|ids|));
            Fetch(w, c, q') == Matching(w, c, q')
  {
    FewMatch(w, c, q, ids);
    var q' := q.(filter := MergeIn(q.filter, w.Primary(c), ids), limit := Some(|ids|));
    assert Matching(w, c, q') == Matching(w, c, q.(filter := MergeIn(q.filter, w.Primary(c), ids)));
    if q.page == 1 && |ids| > 0 {
      assert OffsetOf(w, q') == |ids| * 0 == 0;
    }
  }
}
