/**
 The data of a nested read: values and rows, filters, queries, the query tree, and the
 database as tables.  A fetch is filter, order, window over the rows of one table.

 A filter keeps apart what the run itself looks at, `_and` and `_in`; the rest of it is a
 predicate on rows.  The query tree has one constructor for each kind of node.
 */
module QueryModel {
  import opened Rows
  import opened Wrappers

  // ----- values -----

  datatype Value =
    | Null
    | Num(n: int)
    | Text(s: string)
    | Obj(fields: Item)
    | Arr(items: seq<Value>)

  /** One JSON object; a key that is absent is `undefined`. */
  type Item = map<string, Value>
  type Row = Item

  function Cell(row: Row, column: string): Value {
    if column in row then row[column] else Null
  }

  function FieldsOf(v: Value): Item {
    if v.Obj? then v.fields else map[]
  }

  // ----- filters -----

  /** One entry of a filter object: `_and`, or a key with its first operator. */
  datatype Clause =
    | All(parts: seq<Filter>)
    | On(field: string, test: Test)

  /** `_in` is kept apart because prefilters are merged into it; any other operator, `_or` or
      relational clause is a predicate on rows, fixed by the database. */
  datatype Test = In(values: seq<Value>) | Where(holds: Row -> bool)

  datatype Filter = Filter(clauses: seq<Clause>)

  const ANYTHING := Filter([])

  predicate Holds(f: Filter, row: Row)
    decreases f, 0
  {
    HoldsAll(f.clauses, row)
  }

  predicate HoldsAll(clauses: seq<Clause>, row: Row)
    decreases clauses, 0
  {
    clauses == [] || (HoldsClause(clauses[0], row) && HoldsAll(clauses[1..], row))
  }

  predicate HoldsClause(c: Clause, row: Row)
    decreases c, 0
  {
    match c
    case All(parts) => HoldsParts(parts, row)
    case On(field, In(values)) => Cell(row, field) in values
    case On(_, Where(holds)) => holds(row)
  }

  predicate HoldsParts(parts: seq<Filter>, row: Row)
    decreases parts, 1
  {
    parts == [] || (Holds(parts[0], row) && HoldsParts(parts[1..], row))
  }

  // ----- queries and the query tree -----

  datatype Order = Order(column: string, desc: bool)

  /** `offset` and `page` are 0 when unset; a limit of -1 is no limit. */
  datatype Query = Query(filter: Filter, limit: Option<int>, offset: nat, page: nat, sort: seq<Order>)

  datatype Node =
    | Field(name: string, key: string)
    | Count(key: string, related: string, field: string, query: Query)
    | M2O(key: string, field: string, related: string, children: seq<Node>, query: Query)
    | O2M(key: string, field: string, related: string, sortField: Option<string>, children: seq<Node>, query: Query)
    | A2O(key: string, field: string, collectionField: string, branches: seq<Branch>)
  {
    predicate IsColumn() { Field? || Count? }
    predicate IsNested() { !IsColumn() }
  }

  datatype Branch = Branch(collection: string, children: seq<Node>, query: Query)

  datatype Ast = Ast(name: string, children: seq<Node>, query: Query)

  // ----- the database -----

  datatype Collection = Collection(primary: string, fields: set<string>)

  /** `before` is the order the database gives the rows of a collection for a list of sort
      columns; rows it does not tell apart come in table order. */
  datatype World = World(
    schema: map<string, Collection>,
    tables: map<string, seq<Row>>,
    before: (string, seq<Order>) -> ((Row, Row) -> bool),
    defaultLimit: int)
  {
    function Primary(c: string): string {
      if c in schema then schema[c].primary else ""
    }

    function Fields(c: string): set<string> {
      if c in schema then schema[c].fields else {}
    }

    function Table(c: string): seq<Row> {
      if c in tables then tables[c] else []
    }
  }

  function Passes(f: Filter): Row -> bool {
    row => Holds(f, row)
  }

  /** The rows of a collection that pass the filter, in the order of the query. */
  function Matching(w: World, c: string, q: Query): seq<Row> {
    Sort(Keep(w.Table(c), Passes(q.filter)), w.before(c, q.sort))
  }

  function LimitOf(w: World, q: Query): int {
    if q.limit.Some? then q.limit.value else w.defaultLimit
  }

  /** A page overrides an offset, unless there is no limit to count pages by. */
  function OffsetOf(w: World, q: Query): nat {
    var limit := LimitOf(w, q);
    if q.page > 0 && limit > 0 then limit * (q.page - 1) else q.offset
  }

  function Fetch(w: World, c: string, q: Query): seq<Row> {
    Take(Drop(Matching(w, c, q), OffsetOf(w, q)), LimitOf(w, q))
  }

  /** The query of a level as its parents rewrite it: everything that matches, one window at a
      time. */
  function Unlimited(q: Query): Query {
    q.(limit := Some(-1))
  }

  // ----- the order of `Array.prototype.sort` -----

  predicate TextLeq(a: string, b: string) {
    a == "" || (b != "" && (a[0] < b[0] || (a[0] == b[0] && TextLeq(a[1..], b[1..]))))
  }

  /** Ascending or descending by value, `null` last either way; values the comparison does not
      order are left where they are. */
  predicate ValueLeq(a: Value, b: Value, desc: bool) {
    if a == Null then !b.Num? && !b.Text?
    else if b == Null then true
    else if a.Num? && b.Num? then (if desc then b.n <= a.n else a.n <= b.n)
    else if a.Text? && b.Text? then (if desc then TextLeq(b.s, a.s) else TextLeq(a.s, b.s))
    else Class(a) <= Class(b)
  }

  function Class(a: Value): int {
    match a
    case Num(_) => 0
    case Text(_) => 1
    case _ => 2
  }

  function ItemLeq(o: Order): (Item, Item) -> bool {
    (a, b) => ValueLeq(Cell(a, o.column), Cell(b, o.column), o.desc)
  }

  lemma {:induction false} TextTotal(a: string, b: string)
    ensures TextLeq(a, b) || TextLeq(b, a)
  {
    if a != "" && b != "" && a[0] == b[0] {
      TextTotal(a[1..], b[1..]);
    }
  }

  lemma {:induction false} TextTransitive(a: string, b: string, c: string)
    requires TextLeq(a, b) && TextLeq(b, c)
    ensures TextLeq(a, c)
  {
    if a != "" && a[0] == b[0] == c[0] {
      TextTransitive(a[1..], b[1..], c[1..]);
    }
  }

  lemma ValueTotal(a: Value, b: Value, desc: bool)
    ensures ValueLeq(a, b, desc) || ValueLeq(b, a, desc)
  {
    if a.Text? && b.Text? {
      TextTotal(a.s, b.s);
    }
  }

  lemma ValueTransitive(a: Value, b: Value, c: Value, desc: bool)
    requires ValueLeq(a, b, desc) && ValueLeq(b, c, desc)
    ensures ValueLeq(a, c, desc)
  {
    if a.Text? && b.Text? && c.Text? {
      if desc {
        TextTransitive(c.s, b.s, a.s);
      } else {
        TextTransitive(a.s, b.s, c.s);
      }
    }
  }
}
