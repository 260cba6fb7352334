/**
 What a query tree asks for, read naively: every requested field of every fetched row, with the
 related rows looked up one row at a time in the whole related table.  No prefilters, no batches
 and no temporary columns; `RunAst` is proved to compute this exactly where rows are `Intact`.
 */
module NestedJoin {
  import opened Rows
  import opened Wrappers
  import opened QueryModel

  // ----- what a level selects -----

  predicate HasCell(row: Row, column: string, v: Value) {
    Cell(row, column) == v
  }

  function Counted(node: Node, key: Value): Row -> bool
    requires node.Count?
  {
    row => HasCell(row, node.field, key) && Holds(node.query.filter, row)
  }

  /** A relational count: the related rows that point here and pass the node's filter. */
  function CountOf(w: World, c: string, node: Node, row: Row): Value
    requires node.Count?
  {
    Num(|Keep(w.Table(node.related), Counted(node, Cell(row, w.Primary(c))))|)
  }

  /** The column a key of the select list stands for: the first requested column under that key,
      or the column of that name. */
  function CellFor(w: World, c: string, children: seq<Node>, row: Row, key: string): Value {
    if children == [] then Cell(row, key)
    else if children[0].Field? && children[0].key == key then Cell(row, children[0].name)
    else if children[0].Count? && children[0].key == key then CountOf(w, c, children[0], row)
    else CellFor(w, c, children[1..], row, key)
  }

  function ColumnKeys(w: World, c: string, children: seq<Node>): set<string> {
    if children == [] then {}
    else
      ColumnKeys(w, c, children[1..]) +
      match children[0]
      case Field(name, key) => if name in w.Fields(c) then {key} else {}
      case Count(key, _, _, _) => {key}
      case M2O(_, field, _, _, _) => {field}
      case A2O(_, field, collectionField, _) => {field, collectionField}
      case O2M(_, _, _, _, _, _) => {}
  }

  /** The select list: requested columns, foreign keys, the primary key, and what the parent asked
      to be added. */
  function SelectKeys(w: World, c: string, children: seq<Node>, extras: set<string>): set<string> {
    ColumnKeys(w, c, children) + {w.Primary(c)} + (extras * w.Fields(c))
  }

  function Selected(w: World, c: string, children: seq<Node>, extras: set<string>, row: Row): Item {
    map k | k in SelectKeys(w, c, children, extras) :: CellFor(w, c, children, row, k)
  }

  // ----- which rows are related -----

  function HavingCell(column: string, v: Value): Row -> bool {
    row => HasCell(row, column, v)
  }

  function First(rows: seq<Row>): Option<Row> {
    if rows == [] then None else Some(rows[0])
  }

  /** The related row whose primary key is `v`, if the query lets it through. */
  function RelatedRow(w: World, c: string, q: Query, v: Value): Option<Row> {
    First(Keep(Matching(w, c, q), HavingCell(w.Primary(c), v)))
  }

  /** A child names its parent by its foreign key. */
  function LinkedTo(node: Node, parentKey: Value): Row -> bool
    requires node.O2M?
  {
    HavingCell(node.field, parentKey)
  }

  /** Columns the parent adds to the select list of its children. */
  function Extras(node: Node): set<string>
    requires node.O2M?
  {
    (if exists i :: 0 <= i < |node.children| && node.children[i].Field? && node.children[i].name == node.field
     then {} else {node.field}) +
    (if node.sortField.Some? then {node.sortField.value} else {})
  }

  /** The order of the children in the result, by what their level selects. */
  function ChildLeq(w: World, node: Node): (Row, Row) -> bool
    requires node.O2M? && node.query.sort != []
  {
    (a, b) => ItemLeq(node.query.sort[0])(Selected(w, node.related, node.children, Extras(node), a),
                                          Selected(w, node.related, node.children, Extras(node), b))
  }

  /** The first `limit` children of a parent, sorted. */
  function LinkedRows(w: World, node: Node, parentKey: Value): seq<Row>
    requires node.O2M? && node.query.sort != []
  {
    Sort(Take(Keep(Matching(w, node.related, node.query), LinkedTo(node, parentKey)), LimitOf(w, node.query)),
         ChildLeq(w, node))
  }

  /** The branch of a many-to-any node that a row's collection column selects. */
  function BranchFor(branches: seq<Branch>, collection: Value): (b: Option<Branch>)
    ensures b.Some? ==> b.value in branches && collection == Text(b.value.collection)
  {
    if branches == [] then None
    else if collection == Text(branches[0].collection) then Some(branches[0])
    else BranchFor(branches[1..], collection)
  }

  // ----- the join -----

  /** Every one-to-many node carries its sort, as the tree builder fills it in. */
  predicate SortsFilled(children: seq<Node>)
    decreases children, 0
  {
    children == [] || (SortFilled(children[|children| - 1]) && SortsFilled(children[..|children| - 1]))
  }

  predicate SortFilled(node: Node)
    decreases node, 1
  {
    match node
    case M2O(_, _, _, children, _) => SortsFilled(children)
    case O2M(_, _, _, _, children, query) => query.sort != [] && SortsFilled(children)
    case A2O(_, _, _, branches) => forall i :: 0 <= i < |branches| ==> SortsFilled(branches[i].children)
    case _ => true
  }

  /** One row as requested; a level that requests nothing yields the primary key. */
  function Requested(w: World, c: string, children: seq<Node>, row: Row): Value
    requires SortsFilled(children)
    decreases children, 1
  {
    if children == [] then Cell(row, w.Primary(c)) else Obj(RequestedFields(w, c, children, row))
  }

  function RequestedAll(w: World, c: string, children: seq<Node>, rows: seq<Row>): (r: seq<Value>)
    requires SortsFilled(children)
    ensures |r| == |rows|
    ensures forall i :: 0 <= i < |rows| ==> r[i] == Requested(w, c, children, rows[i])
    decreases children, 2, |rows|
  {
    if rows == [] then []
    else [Requested(w, c, children, rows[0])] + RequestedAll(w, c, children, rows[1..])
  }

  function RequestedFields(w: World, c: string, children: seq<Node>, row: Row): Item
    requires SortsFilled(children)
    decreases children, 0
  {
    if children == [] then map[]
    else
      var last := children[|children| - 1];
      var before := RequestedFields(w, c, children[..|children| - 1], row);
      RequestedWith(w, c, last, row, before)
  }

  /** What one child adds to the item. */
  function RequestedWith(w: World, c: string, child: Node, row: Row, before: Item): Item
    requires SortFilled(child)
    decreases child, 2
  {
    match child
    case Field(name, key) => if name in w.Fields(c) then before[key := Cell(row, name)] else before
    case Count(key, _, _, _) => before[key := CountOf(w, c, child, row)]
    case _ => before[child.key := RequestedNested(w, c, child, row)]
  }

  function RequestedNested(w: World, c: string, node: Node, row: Row): Value
    requires SortFilled(node) && node.IsNested()
    decreases node, 1
  {
    match node
    case M2O(_, field, related, children, query) =>
      var r := RelatedRow(w, related, query, Cell(row, field));
      if r.None? then Null else Requested(w, related, children, r.value)
    case O2M(_, _, related, _, children, _) =>
      Arr(RequestedAll(w, related, children, LinkedRows(w, node, Cell(row, w.Primary(c)))))
    case A2O(_, field, collectionField, branches) =>
      var b := BranchFor(branches, Cell(row, collectionField));
      if b.None? then Null
      else
        var r := RelatedRow(w, b.value.collection, b.value.query, Cell(row, field));
        if r.None? then Null else Requested(w, b.value.collection, b.value.children, r.value)
  }

  function Join(w: World, ast: Ast): seq<Value>
    requires SortsFilled(ast.children)
  {
    RequestedAll(w, ast.name, ast.children, Fetch(w, ast.name, ast.query))
  }
}
