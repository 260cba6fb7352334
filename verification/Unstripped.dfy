/**
 What a level of `runAST` produces before temporary fields are removed: every selected column,
 overlaid node by node with the nested values, and when that is well defined.  Stripping it
 leaves what was requested exactly when the row is `Intact`.

 `Good` says when a tree is well formed, and `Sound` when a database is.
 */
module Unstripped {
  import opened Rows
  import opened QueryModel
  import opened NestedJoin

  // ----- the children a merge links -----

  /** Where the children of a one-to-many node request their parent back under the foreign key, the
      merge looks at the parent they were given there. */
  predicate IsWayBack(node: Node, child: Node)
    requires node.O2M?
  {
    child.M2O? && child.key == node.field
  }

  /** The children of a parent were given it. */
  predicate WayBackShows(w: World, node: Node, parentKey: Value)
    requires node.O2M?
  {
    forall i :: 0 <= i < |node.children| && IsWayBack(node, node.children[i]) ==>
      RelatedRow(w, node.children[i].related, node.children[i].query, parentKey).Some?
  }

  /** The children the merge gives a parent: those linked to it, or none. */
  function MergedRows(w: World, node: Node, parentKey: Value): seq<Row>
    requires node.O2M? && node.query.sort != []
  {
    if WayBackShows(w, node, parentKey) then LinkedRows(w, node, parentKey) else []
  }

  // ----- the items -----

  function RawItem(w: World, c: string, children: seq<Node>, extras: set<string>, row: Row): Item
    requires SortsFilled(children)
    decreases children, 1
  {
    Overlay(w, c, children, row, Selected(w, c, children, extras, row))
  }

  /** An earlier node has put its item in place of the foreign key that a many-to-one node reads. */
  predicate FieldTaken(children: seq<Node>, i: nat)
    requires i < |children|
  {
    children[i].M2O? && exists j :: 0 <= j < i && children[j].IsNested() && children[j].key == children[i].field
  }

  lemma FieldTakenBefore(children: seq<Node>, n: nat, i: nat)
    requires i < n <= |children|
    ensures FieldTaken(children[..n], i) <==> FieldTaken(children, i)
  {
    if FieldTaken(children, i) {
      var j :| 0 <= j < i && children[j].IsNested() && children[j].key == children[i].field;
      assert children[..n][j] == children[j];
    }
  }

  /** The nested nodes in turn, each writing its value under its key; what is compared with an item in
      place of a key is not found. */
  function Overlay(w: World, c: string, children: seq<Node>, row: Row, selected: Item): Item
    requires SortsFilled(children)
    decreases children, 0
  {
    if children == [] then selected
    else
      var last := children[|children| - 1];
      var before := Overlay(w, c, children[..|children| - 1], row, selected);
      if !last.IsNested() then before
      else before[last.key := if FieldTaken(children, |children| - 1) then Null else RawNested(w, c, last, row)]
  }

  function RawAll(w: World, c: string, children: seq<Node>, extras: set<string>, rows: seq<Row>): (r: seq<Value>)
    requires SortsFilled(children)
    ensures |r| == |rows|
    ensures forall i :: 0 <= i < |rows| ==> r[i] == Obj(RawItem(w, c, children, extras, rows[i]))
    decreases children, 2, |rows|
  {
    if rows == [] then []
    else [Obj(RawItem(w, c, children, extras, rows[0]))] + RawAll(w, c, children, extras, rows[1..])
  }

  function RawNested(w: World, c: string, node: Node, row: Row): Value
    requires SortFilled(node) && node.IsNested()
    decreases node, 1
  {
    match node
    case M2O(_, field, related, children, query) =>
      var r := RelatedRow(w, related, query, Cell(row, field));
      if r.None? then Null else Obj(RawItem(w, related, children, {}, r.value))
    case O2M(_, _, related, _, children, _) =>
      Arr(RawAll(w, related, children, Extras(node), MergedRows(w, node, Cell(row, w.Primary(c)))))
    case A2O(_, field, collectionField, branches) =>
      var b := BranchFor(branches, Cell(row, collectionField));
      if b.None? then Null
      else
        var r := RelatedRow(w, b.value.collection, b.value.query, Cell(row, field));
        if r.None? then Null else Obj(RawItem(w, b.value.collection, b.value.children, {}, r.value))
  }

  // ----- when a tree is well formed -----

  /** The columns the run itself reads from the items of a level. */
  function Needed(w: World, c: string, children: seq<Node>, extras: set<string>): set<string> {
    (set i | 0 <= i < |children| && (children[i].M2O? || children[i].A2O?) :: children[i].field) +
    (set i | 0 <= i < |children| && children[i].A2O? :: children[i].collectionField) +
    {w.Primary(c)} + (extras * w.Fields(c))
  }

  /** Keys are distinct, and none hides a column the run still has to read: a column key that is
      needed is that very column, a nested key that is needed is the node's own foreign key, and
      no nested key hides a column that a many-to-any node reads. */
  ghost predicate KeysGood(w: World, c: string, children: seq<Node>, extras: set<string>) {
    && (forall i, j :: 0 <= i < j < |children| ==> children[i].key != children[j].key)
    && (forall i :: 0 <= i < |children| && children[i].IsColumn() && children[i].key in Needed(w, c, children, extras) ==>
          children[i].Field? && children[i].name == children[i].key && children[i].name in w.Fields(c))
    && (forall i :: 0 <= i < |children| && children[i].IsNested() ==>
          && children[i].key != w.Primary(c)
          && (children[i].key in Needed(w, c, children, extras) ==> !children[i].O2M? && children[i].field == children[i].key))
    && (forall i, j :: 0 <= i < j < |children| && children[i].IsNested() && children[j].A2O? ==>
          children[i].key != children[j].field)
    && (forall i, j :: 0 <= i < |children| && 0 <= j < |children| && children[i].IsNested() && children[j].A2O? ==>
          children[i].key != children[j].collectionField)
  }

  /** Merging `_in` into the filter conjoins it, unless the filter already has one on that field. */
  predicate NoInOn(f: Filter, field: string) {
    forall i :: 0 <= i < |f.clauses| ==> !(f.clauses[i].On? && f.clauses[i].field == field && f.clauses[i].test.In?)
  }

  predicate NothingOn(f: Filter, field: string) {
    forall i :: 0 <= i < |f.clauses| ==> !(f.clauses[i].On? && f.clauses[i].field == field)
  }

  ghost predicate Good(w: World, c: string, children: seq<Node>, extras: set<string>)
    decreases children, 0
  {
    && KeysGood(w, c, children, extras)
    && forall i :: 0 <= i < |children| ==> NodeGood(w, c, children[i])
  }

  ghost predicate NodeGood(w: World, c: string, node: Node)
    decreases node, 1
  {
    match node
    case M2O(_, field, related, children, query) =>
      && query.offset == 0 && NoInOn(query.filter, w.Primary(related))
      && Good(w, related, children, {})
    case O2M(_, field, related, _, children, query) =>
      && O2MGood(w, c, node)
      && Good(w, related, children, Extras(node))
    case A2O(key, field, _, branches) =>
      && key == field
      && (forall i, j :: 0 <= i < j < |branches| ==> branches[i].collection != branches[j].collection)
      && forall i :: 0 <= i < |branches| ==>
           && BranchIsGood(w, branches[i])
           && Good(w, branches[i].collection, branches[i].children, {})
    case _ => true
  }

  /** The name a child is picked under when temporary fields are removed: a column of a many-to-any
      branch goes by its own name, not by its key. */
  function PickedKey(inBranch: bool, child: Node): string {
    if inBranch && child.Field? then child.name else child.key
  }

  function PickedKeys(inBranch: bool, children: seq<Node>): (r: set<string>)
    ensures forall k :: k in r <==> exists i :: 0 <= i < |children| && PickedKey(inBranch, children[i]) == k
  {
    set i | 0 <= i < |children| :: PickedKey(inBranch, children[i])
  }

  function NestedKeys(children: seq<Node>): (r: set<string>)
    ensures forall k :: k in r <==> exists i :: 0 <= i < |children| && children[i].IsNested() && children[i].key == k
  {
    set i | 0 <= i < |children| && children[i].IsNested() :: children[i].key
  }

  /** What an item of the level keeps: of the selected columns and the nested nodes, those picked. */
  function LeftKeys(w: World, c: string, inBranch: bool, children: seq<Node>, extras: set<string>): set<string> {
    (SelectKeys(w, c, children, extras) + NestedKeys(children)) * PickedKeys(inBranch, children)
  }

  predicate IsRequested(w: World, c: string, child: Node) {
    child.Field? ==> child.name in w.Fields(c)
  }

  function RequestedKeys(w: World, c: string, children: seq<Node>): (r: set<string>)
    ensures forall k :: k in r <==> exists i :: 0 <= i < |children| && IsRequested(w, c, children[i]) && children[i].key == k
  {
    set i | 0 <= i < |children| && IsRequested(w, c, children[i]) :: children[i].key
  }

  /** Each parent is to be given its own row of the branch: no page cuts any off and no operator on
      the primary key stands before the prefilter. */
  ghost predicate BranchIsGood(w: World, b: Branch) {
    && b.query.page <= 1 && (b.query.page == 1 || b.query.offset == 0)
    && NothingOn(b.query.filter, w.Primary(b.collection))
  }

  /** The foreign key is selected, and no requested column hides it. */
  ghost predicate ForeignKeyShown(w: World, node: Node)
    requires node.O2M?
  {
    && node.field in SelectKeys(w, node.related, node.children, Extras(node))
    && ColumnUnhidden(node.children, node.field)
  }

  predicate ColumnUnhidden(children: seq<Node>, k: string) {
    forall i :: 0 <= i < |children| && children[i].IsColumn() && children[i].key == k ==>
      children[i].Field? && children[i].name == k
  }

  /** What `page` and `offset` cut from the front of a parent's children, once for each batch. */
  function SkipOf(q: Query, limit: int): nat {
    (if q.page > 1 && limit > -1 then limit * (q.page - 1) else 0) + q.offset
  }

  /** Nothing is skipped, or nothing is kept anyway. */
  predicate NothingSkipped(w: World, q: Query) {
    SkipOf(q, LimitOf(w, q)) == 0 || LimitOf(w, q) == 0
  }

  /** The foreign key is selected under its own name, a node nested under that name goes back to
      the parent collection, the children are sorted by a column, and `page` and `offset` skip
      nothing (each batch would skip again). */
  ghost predicate O2MGood(w: World, c: string, node: Node)
    requires node.O2M?
  {
    && node.query.sort != [] && NothingSkipped(w, node.query)
    && NoInOn(node.query.filter, node.field)
    && ForeignKeyShown(w, node)
    && (forall i :: 0 <= i < |node.children| && node.children[i].IsNested() && node.children[i].key == node.field ==>
          node.children[i].M2O? && node.children[i].field == node.field && node.children[i].related == c)
    && (forall i :: 0 <= i < |node.children| && node.children[i].IsNested() ==>
          node.children[i].key != node.query.sort[0].column)
  }

  // ----- when a row comes out as requested -----

  /** Nothing is lost or left over: in a branch of a many-to-any node the names of the columns pick what
      was requested, a many-to-one node whose foreign key was taken by an earlier one has nothing to
      find, and below every other node the same holds of the rows its parent is related to. */
  ghost predicate Intact(w: World, c: string, inBranch: bool, children: seq<Node>, row: Row)
    requires SortsFilled(children)
    decreases children, 0
  {
    && (inBranch ==> LeftKeys(w, c, true, children, {}) == RequestedKeys(w, c, children))
    && forall i :: 0 <= i < |children| && children[i].IsNested() && SortFilled(children[i]) ==>
         if FieldTaken(children, i) then
           RelatedRow(w, children[i].related, children[i].query, Cell(row, children[i].field)).None?
         else
           NodeIntact(w, c, inBranch, children[i], row)
  }

  /** A bare related item, of which nothing but the key is requested, is read under the name of another
      collection's primary key in a branch; and children whose parent was not given back to them are
      not linked to it. */
  ghost predicate NodeIntact(w: World, c: string, inBranch: bool, node: Node, row: Row)
    requires SortFilled(node) && node.IsNested()
    decreases node, 1
  {
    match node
    case M2O(_, field, related, children, query) =>
      var r := RelatedRow(w, related, query, Cell(row, field));
      r.Some? ==>
        if children == [] then inBranch ==> w.Primary(related) == w.Primary(c)
        else Intact(w, related, false, children, r.value)
    case O2M(_, _, related, _, children, _) =>
      var key := Cell(row, w.Primary(c));
      var linked := LinkedRows(w, node, key);
      linked == [] || (WayBackShows(w, node, key)
                       && forall i :: 0 <= i < |linked| ==> Intact(w, related, false, children, linked[i]))
    case A2O(_, field, collectionField, branches) =>
      var b := BranchFor(branches, Cell(row, collectionField));
      b.Some? ==>
        var r := RelatedRow(w, b.value.collection, b.value.query, Cell(row, field));
        r.Some? ==>
          if b.value.children == [] then w.Primary(b.value.collection) == w.Primary(c)
          else Intact(w, b.value.collection, true, b.value.children, r.value)
  }

  /** Every row of the root comes out as requested. */
  ghost predicate AllIntact(w: World, ast: Ast)
    requires SortsFilled(ast.children)
  {
    forall i :: 0 <= i < |Fetch(w, ast.name, ast.query)| ==>
      Intact(w, ast.name, false, ast.children, Fetch(w, ast.name, ast.query)[i])
  }

  /** Rows have distinct, present primary keys and scalar cells; the database orders totally. */
  ghost predicate Sound(w: World) {
    && (forall c: string, i: nat :: i < |w.Table(c)| ==> Cell(w.Table(c)[i], w.Primary(c)) != Null)
    && (forall c: string, i: nat, j: nat :: i < j < |w.Table(c)| ==>
          Cell(w.Table(c)[i], w.Primary(c)) != Cell(w.Table(c)[j], w.Primary(c)))
    && (forall c: string, i: nat, column: string :: i < |w.Table(c)| ==>
          !Cell(w.Table(c)[i], column).Obj? && !Cell(w.Table(c)[i], column).Arr?)
    && (forall c: string, sort: seq<Order> :: Preorder(w.before(c, sort)))
  }

  // ----- reading a raw item -----

  lemma {:induction false} SortsFilledAt(children: seq<Node>, i: nat)
    requires SortsFilled(children) && i < |children|
    ensures SortFilled(children[i])
  {
    if i < |children| - 1 {
      SortsFilledAt(children[..|children| - 1], i);
    }
  }

  /** Under a key no nested node writes, a raw item has what was selected. */
  lemma {:induction false} OverlayKeeps(w: World, c: string, children: seq<Node>, row: Row, selected: Item, k: string)
    requires SortsFilled(children)
    requires forall i :: 0 <= i < |children| && children[i].IsNested() ==> children[i].key != k
    ensures k in Overlay(w, c, children, row, selected) <==> k in selected
    ensures k in selected ==> Overlay(w, c, children, row, selected)[k] == selected[k]
  {
    if children != [] {
      OverlayKeeps(w, c, children[..|children| - 1], row, selected, k);
    }
  }

  lemma {:induction false} OverlayWrites(w: World, c: string, children: seq<Node>, row: Row, selected: Item, i: nat)
    requires SortsFilled(children) && i < |children| && children[i].IsNested()
    requires forall j :: i < j < |children| ==> children[j].key != children[i].key
    ensures SortFilled(children[i])
    ensures children[i].key in Overlay(w, c, children, row, selected)
    ensures Overlay(w, c, children, row, selected)[children[i].key]
            == if FieldTaken(children, i) then Null else RawNested(w, c, children[i], row)
  {
    if i < |children| - 1 {
      FieldTakenBefore(children, |children| - 1, i);
      OverlayWrites(w, c, children[..|children| - 1], row, selected, i);
    }
  }

  /** A key that no requested column hides stands for the column of its name. */
  lemma {:induction false} CellForColumn(w: World, c: string, children: seq<Node>, row: Row, k: string)
    requires ColumnUnhidden(children, k)
    ensures CellFor(w, c, children, row, k) == Cell(row, k)
  {
    if children != [] {
      CellForColumn(w, c, children[1..], row, k);
    }
  }

  lemma {:induction false} CellForChild(w: World, c: string, children: seq<Node>, row: Row, i: nat)
    requires i < |children| && children[i].IsColumn()
    requires forall j :: 0 <= j < i ==> children[j].key != children[i].key
    ensures CellFor(w, c, children, row, children[i].key) ==
            if children[i].Field? then Cell(row, children[i].name) else CountOf(w, c, children[i], row)
  {
    if i > 0 {
      assert children[0].key != children[i].key;
      CellForChild(w, c, children[1..], row, i - 1);
    }
  }

  lemma {:induction false} NeededAreSelected(w: World, c: string, children: seq<Node>, i: nat)
    requires i < |children|
    ensures children[i].M2O? ==> children[i].field in ColumnKeys(w, c, children)
    ensures children[i].A2O? ==> children[i].field in ColumnKeys(w, c, children)
                                 && children[i].collectionField in ColumnKeys(w, c, children)
    ensures children[i].Field? && children[i].name in w.Fields(c) ==> children[i].key in ColumnKeys(w, c, children)
    ensures children[i].Count? ==> children[i].key in ColumnKeys(w, c, children)
  {
    if i > 0 {
      NeededAreSelected(w, c, children[1..], i - 1);
    }
  }

  predicate ColumnOf(w: World, c: string, child: Node, k: string) {
    || (child.Field? && child.key == k && child.name in w.Fields(c))
    || (child.Count? && child.key == k)
    || ((child.M2O? || child.A2O?) && child.field == k)
    || (child.A2O? && child.collectionField == k)
  }

  /** A selected column is one that a child requests or that a node needs. */
  lemma {:induction false} ColumnKeysFrom(w: World, c: string, children: seq<Node>, k: string)
    requires k in ColumnKeys(w, c, children)
    ensures exists i :: 0 <= i < |children| && ColumnOf(w, c, children[i], k)
  {
    if k in ColumnKeys(w, c, children[1..]) {
      ColumnKeysFrom(w, c, children[1..], k);
      var i :| 0 <= i < |children[1..]| && ColumnOf(w, c, children[1..][i], k);
      assert ColumnOf(w, c, children[i + 1], k);
    } else {
      assert ColumnOf(w, c, children[0], k);
    }
  }

  /** Every column the run needs is selected under its own name. */
  lemma SelectedShows(w: World, c: string, children: seq<Node>, extras: set<string>, row: Row, k: string)
    requires KeysGood(w, c, children, extras) && k in Needed(w, c, children, extras)
    ensures k in Selected(w, c, children, extras, row)
    ensures Selected(w, c, children, extras, row)[k] == Cell(row, k)
  {
    CellForColumn(w, c, children, row, k);
    if i :| 0 <= i < |children| && (children[i].M2O? || children[i].A2O?) && children[i].field == k {
      NeededAreSelected(w, c, children, i);
    } else if i :| 0 <= i < |children| && children[i].A2O? && children[i].collectionField == k {
      NeededAreSelected(w, c, children, i);
    }
  }

  /** A raw item still shows the primary key of its row. */
  lemma RawShowsPrimary(w: World, c: string, children: seq<Node>, extras: set<string>, row: Row)
    requires SortsFilled(children) && KeysGood(w, c, children, extras)
    ensures Cell(RawItem(w, c, children, extras, row), w.Primary(c)) == Cell(row, w.Primary(c))
  {
    SelectedShows(w, c, children, extras, row, w.Primary(c));
    OverlayKeeps(w, c, children, row, Selected(w, c, children, extras, row), w.Primary(c));
  }
}
