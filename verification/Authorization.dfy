/**
 How permissions reach a nested read: what is read with their filters is what a database of the visible rows would give.
 */
module Authorization {
  import opened Rows
  import opened Wrappers
  import opened QueryModel
  import opened NestedJoin

  /** One permission of the caller for the action at hand; of several for one collection the first counts. */
  datatype Permission = Permission(collection: string, filter: Filter, allFields: bool, fields: set<string>)

  function Find(permissions: seq<Permission>, c: string): Option<Permission> {
    if permissions == [] then None
    else if permissions[0].collection == c then Some(permissions[0])
    else Find(permissions[1..], c)
  }

  function FilterFor(permissions: seq<Permission>, c: string): Filter {
    var p := Find(permissions, c);
    if p.None? then ANYTHING else p.value.filter
  }

  // ----- the rewriting -----

  /** The user's filter and the permission's, whichever of them there are. */
  function UpdateFilter(user: Filter, permission: Filter): Filter {
    var parts := (if user.clauses == [] then [] else [user]) +
                 (if permission.clauses == [] then [] else [permission]);
    if parts == [] then ANYTHING else Filter([All(parts)])
  }

  function UpdateQuery(permissions: seq<Permission>, c: string, q: Query): Query {
    q.(filter := UpdateFilter(q.filter, FilterFor(permissions, c)))
  }

  function ApplyFilters(permissions: seq<Permission>, children: seq<Node>): (r: seq<Node>)
    ensures |r| == |children|
    decreases children, 0
  {
    if children == [] then []
    else ApplyFilters(permissions, children[..|children| - 1]) + [ApplyToNode(permissions, children[|children| - 1])]
  }

  function ApplyToNode(permissions: seq<Permission>, node: Node): Node
    decreases node, 1
  {
    match node
    case Field(_, _) => node
    case Count(key, related, field, query) => Count(key, related, field, UpdateQuery(permissions, related, query))
    case M2O(key, field, related, children, query) =>
      M2O(key, field, related, ApplyFilters(permissions, children), UpdateQuery(permissions, related, query))
    case O2M(key, field, related, sortField, children, query) =>
      O2M(key, field, related, sortField, ApplyFilters(permissions, children), UpdateQuery(permissions, related, query))
    case A2O(key, field, collectionField, branches) =>
      A2O(key, field, collectionField, ApplyToBranches(permissions, branches))
  }

  function ApplyToBranches(permissions: seq<Permission>, branches: seq<Branch>): (r: seq<Branch>)
    ensures |r| == |branches|
    decreases branches, 0
  {
    if branches == [] then []
    else
      var b := branches[0];
      [Branch(b.collection, ApplyFilters(permissions, b.children), UpdateQuery(permissions, b.collection, b.query))]
      + ApplyToBranches(permissions, branches[1..])
  }

  function ApplyToAst(permissions: seq<Permission>, ast: Ast): Ast {
    Ast(ast.name, ApplyFilters(permissions, ast.children), UpdateQuery(permissions, ast.name, ast.query))
  }

  /** The database the caller may see: of each collection the rows its permission lets through,
      and nothing of a collection without one. */
  function Restrict(w: World, permissions: seq<Permission>): World {
    w.(tables := map c | c in w.tables :: Visible(w, permissions, c))
  }

  function Visible(w: World, permissions: seq<Permission>, c: string): seq<Row> {
    var p := Find(permissions, c);
    if p.None? then [] else Keep(w.Table(c), Passes(p.value.filter))
  }

  // ----- every collection read has a permission -----

  predicate Covered(permissions: seq<Permission>, children: seq<Node>)
    decreases children, 0
  {
    children == [] || (NodeCovered(permissions, children[|children| - 1])
                       && Covered(permissions, children[..|children| - 1]))
  }

  predicate NodeCovered(permissions: seq<Permission>, node: Node)
    decreases node, 1
  {
    match node
    case Field(_, _) => true
    case Count(_, related, _, _) => Find(permissions, related).Some?
    case M2O(_, _, related, children, _) => Find(permissions, related).Some? && Covered(permissions, children)
    case O2M(_, _, related, _, children, _) => Find(permissions, related).Some? && Covered(permissions, children)
    case A2O(_, _, _, branches) =>
      forall i :: 0 <= i < |branches| ==>
        Find(permissions, branches[i].collection).Some? && Covered(permissions, branches[i].children)
  }

  // ----- one level -----

  lemma UpdatedHolds(user: Filter, permission: Filter, row: Row)
    ensures Holds(UpdateFilter(user, permission), row) <==> Holds(permission, row) && Holds(user, row)
  {
    var parts := (if user.clauses == [] then [] else [user]) +
                 (if permission.clauses == [] then [] else [permission]);
    if parts != [] {
      assert HoldsAll([All(parts)], row) <==> HoldsParts(parts, row) by {
        assert [All(parts)][1..] == [];
      }
      assert HoldsParts([], row);
      if |parts| == 2 {
        assert parts[1..] == [permission] && [permission][1..] == [];
        assert HoldsParts(parts[1..], row) <==> Holds(permission, row);
      } else {
        assert parts[1..] == [];
        assert HoldsParts(parts, row) <==> Holds(parts[0], row);
      }
    }
  }

  lemma KeepUpdated(w: World, permissions: seq<Permission>, c: string, f: Filter)
    requires Find(permissions, c).Some?
    ensures Keep(w.Table(c), Passes(UpdateFilter(f, FilterFor(permissions, c))))
            == Keep(Restrict(w, permissions).Table(c), Passes(f))
  {
    var permission := FilterFor(permissions, c);
    forall x: Row ensures Passes(UpdateFilter(f, permission))(x) <==> Passes(permission)(x) && Passes(f)(x) {
      UpdatedHolds(f, permission, x);
    }
    KeepTwice(w.Table(c), Passes(permission), Passes(f), Passes(UpdateFilter(f, permission)));
  }

  lemma MatchingUpdated(w: World, permissions: seq<Permission>, c: string, q: Query)
    requires Find(permissions, c).Some?
    ensures Matching(w, c, UpdateQuery(permissions, c, q)) == Matching(Restrict(w, permissions), c, q)
    ensures Fetch(w, c, UpdateQuery(permissions, c, q)) == Fetch(Restrict(w, permissions), c, q)
    ensures forall v :: RelatedRow(w, c, UpdateQuery(permissions, c, q), v)
                        == RelatedRow(Restrict(w, permissions), c, q, v)
  {
    KeepUpdated(w, permissions, c, q.filter);
  }

  lemma CountUpdated(w: World, permissions: seq<Permission>, c: string, node: Node, row: Row)
    requires node.Count? && NodeCovered(permissions, node)
    ensures CountOf(w, c, ApplyToNode(permissions, node), row) == CountOf(Restrict(w, permissions), c, node, row)
  {
    var applied := ApplyToNode(permissions, node);
    var permission := FilterFor(permissions, node.related);
    var key := Cell(row, w.Primary(c));
    forall x: Row
      ensures Counted(applied, key)(x) <==> Passes(permission)(x) && Counted(node, key)(x)
    {
      UpdatedHolds(node.query.filter, permission, x);
    }
    KeepTwice(w.Table(node.related), Passes(permission), Counted(node, key), Counted(applied, key));
  }

  lemma AppliedPrefix(permissions: seq<Permission>, children: seq<Node>)
    requires children != []
    ensures var applied := ApplyFilters(permissions, children);
            && applied[|applied| - 1] == ApplyToNode(permissions, children[|children| - 1])
            && applied[..|applied| - 1] == ApplyFilters(permissions, children[..|children| - 1])
  {
  }

  lemma {:induction false} AppliedAt(permissions: seq<Permission>, children: seq<Node>, i: nat)
    requires i < |children|
    ensures ApplyFilters(permissions, children)[i] == ApplyToNode(permissions, children[i])
  {
    if i < |children| - 1 {
      AppliedAt(permissions, children[..|children| - 1], i);
    }
  }

  lemma {:induction false} CoveredAt(permissions: seq<Permission>, children: seq<Node>, i: nat)
    requires Covered(permissions, children) && i < |children|
    ensures NodeCovered(permissions, children[i])
  {
    if i < |children| - 1 {
      CoveredAt(permissions, children[..|children| - 1], i);
    }
  }

  lemma AppliedTail(permissions: seq<Permission>, children: seq<Node>)
    requires children != []
    ensures ApplyFilters(permissions, children)[1..] == ApplyFilters(permissions, children[1..])
  {
    forall i | 0 <= i < |children| - 1
      ensures ApplyFilters(permissions, children)[1..][i] == ApplyFilters(permissions, children[1..])[i]
    {
      AppliedAt(permissions, children, i + 1);
      AppliedAt(permissions, children[1..], i);
    }
  }

  lemma {:induction false} CoveredSuffix(permissions: seq<Permission>, children: seq<Node>)
    requires children != [] && Covered(permissions, children)
    ensures Covered(permissions, children[1..])
  {
    if |children| > 1 {
      CoveredSuffix(permissions, children[..|children| - 1]);
      var tail := children[1..];
      assert tail[..|tail| - 1] == children[..|children| - 1][1..];
    }
  }

  lemma {:induction false} CellUpdated(w: World, permissions: seq<Permission>, c: string, children: seq<Node>, row: Row, key: string)
    requires Covered(permissions, children)
    ensures CellFor(w, c, ApplyFilters(permissions, children), row, key)
            == CellFor(Restrict(w, permissions), c, children, row, key)
  {
    if children != [] {
      AppliedAt(permissions, children, 0);
      AppliedTail(permissions, children);
      CoveredAt(permissions, children, 0);
      CoveredSuffix(permissions, children);
      CellUpdated(w, permissions, c, children[1..], row, key);
      if children[0].Count? {
        CountUpdated(w, permissions, c, children[0], row);
      }
    }
  }

  lemma {:induction false} KeysUpdated(w: World, permissions: seq<Permission>, c: string, children: seq<Node>)
    ensures ColumnKeys(w, c, ApplyFilters(permissions, children)) == ColumnKeys(Restrict(w, permissions), c, children)
  {
    if children != [] {
      AppliedAt(permissions, children, 0);
      AppliedTail(permissions, children);
      KeysUpdated(w, permissions, c, children[1..]);
    }
  }

  lemma SelectedUpdated(w: World, permissions: seq<Permission>, c: string, children: seq<Node>, extras: set<string>, row: Row)
    requires Covered(permissions, children)
    ensures Selected(w, c, ApplyFilters(permissions, children), extras, row)
            == Selected(Restrict(w, permissions), c, children, extras, row)
  {
    KeysUpdated(w, permissions, c, children);
    forall k ensures CellFor(w, c, ApplyFilters(permissions, children), row, k)
                     == CellFor(Restrict(w, permissions), c, children, row, k)
    {
      CellUpdated(w, permissions, c, children, row, k);
    }
  }

  lemma ExtrasUpdated(permissions: seq<Permission>, node: Node)
    requires node.O2M?
    ensures Extras(ApplyToNode(permissions, node)) == Extras(node)
  {
    var applied := ApplyFilters(permissions, node.children);
    forall i | 0 <= i < |node.children|
      ensures applied[i].Field? <==> node.children[i].Field?
      ensures node.children[i].Field? ==> applied[i] == node.children[i]
    {
      AppliedAt(permissions, node.children, i);
    }
    if i :| 0 <= i < |node.children| && node.children[i].Field? && node.children[i].name == node.field {
      assert applied[i].Field? && applied[i].name == node.field;
    }
  }

  lemma LinkedUpdated(w: World, permissions: seq<Permission>, node: Node, parentKey: Value)
    requires node.O2M? && node.query.sort != [] && NodeCovered(permissions, node)
    ensures LinkedRows(w, ApplyToNode(permissions, node), parentKey)
            == LinkedRows(Restrict(w, permissions), node, parentKey)
  {
    var applied := ApplyToNode(permissions, node);
    var visible := Restrict(w, permissions);
    var rows := Matching(visible, node.related, node.query);
    MatchingUpdated(w, permissions, node.related, node.query);
    ExtrasUpdated(permissions, node);
    forall a: Row, b: Row ensures ChildLeq(w, applied)(a, b) == ChildLeq(visible, node)(a, b) {
      SelectedUpdated(w, permissions, node.related, node.children, Extras(node), a);
      SelectedUpdated(w, permissions, node.related, node.children, Extras(node), b);
    }
    SortSame(Take(Keep(rows, LinkedTo(node, parentKey)), LimitOf(w, node.query)),
             ChildLeq(w, applied), ChildLeq(visible, node));
  }

  lemma {:induction false} BranchUpdated(permissions: seq<Permission>, branches: seq<Branch>, v: Value)
    requires forall i :: 0 <= i < |branches| ==>
               Find(permissions, branches[i].collection).Some? && Covered(permissions, branches[i].children)
    ensures var b := BranchFor(branches, v);
            BranchFor(ApplyToBranches(permissions, branches), v) ==
            if b.None? then None
            else Some(Branch(b.value.collection, ApplyFilters(permissions, b.value.children),
                             UpdateQuery(permissions, b.value.collection, b.value.query)))
    ensures var b := BranchFor(branches, v);
            b.Some? ==> Find(permissions, b.value.collection).Some? && Covered(permissions, b.value.children)
  {
    if branches != [] {
      BranchUpdated(permissions, branches[1..], v);
    }
  }

  // ----- every depth -----

  lemma {:induction false} SortsKept(permissions: seq<Permission>, children: seq<Node>)
    requires SortsFilled(children)
    ensures SortsFilled(ApplyFilters(permissions, children))
    decreases children, 0
  {
    if children != [] {
      AppliedPrefix(permissions, children);
      SortsKept(permissions, children[..|children| - 1]);
      SortKept(permissions, children[|children| - 1]);
    }
  }

  lemma {:induction false} SortKept(permissions: seq<Permission>, node: Node)
    requires SortFilled(node)
    ensures SortFilled(ApplyToNode(permissions, node))
    decreases node, 1
  {
    match node {
      case Field(_, _) =>
      case Count(_, _, _, _) =>
      case M2O(_, _, _, children, _) => SortsKept(permissions, children);
      case O2M(_, _, _, _, children, _) => SortsKept(permissions, children);
      case A2O(_, _, _, branches) =>
        forall i | 0 <= i < |branches| ensures SortsFilled(ApplyToBranches(permissions, branches)[i].children) {
          BranchAt(permissions, branches, i);
          SortsKept(permissions, branches[i].children);
        }
    }
  }

  lemma {:induction false} BranchAt(permissions: seq<Permission>, branches: seq<Branch>, i: nat)
    requires i < |branches|
    ensures ApplyToBranches(permissions, branches)[i] ==
            Branch(branches[i].collection, ApplyFilters(permissions, branches[i].children),
                   UpdateQuery(permissions, branches[i].collection, branches[i].query))
  {
    if i > 0 {
      BranchAt(permissions, branches[1..], i - 1);
    }
  }

  lemma {:induction false} RowUpdated(w: World, permissions: seq<Permission>, c: string, children: seq<Node>, row: Row)
    requires SortsFilled(children) && Covered(permissions, children)
    requires SortsFilled(ApplyFilters(permissions, children))
    ensures Requested(w, c, ApplyFilters(permissions, children), row)
            == Requested(Restrict(w, permissions), c, children, row)
    decreases children, 1
  {
    FieldsUpdated(w, permissions, c, children, row);
  }

  lemma {:induction false} RowsUpdated(w: World, permissions: seq<Permission>, c: string, children: seq<Node>, rows: seq<Row>)
    requires SortsFilled(children) && Covered(permissions, children)
    requires SortsFilled(ApplyFilters(permissions, children))
    ensures RequestedAll(w, c, ApplyFilters(permissions, children), rows)
            == RequestedAll(Restrict(w, permissions), c, children, rows)
    decreases children, 2
  {
    forall i | 0 <= i < |rows|
      ensures RequestedAll(w, c, ApplyFilters(permissions, children), rows)[i]
              == RequestedAll(Restrict(w, permissions), c, children, rows)[i]
    {
      RowUpdated(w, permissions, c, children, rows[i]);
    }
  }

  lemma {:induction false} FieldsUpdated(w: World, permissions: seq<Permission>, c: string, children: seq<Node>, row: Row)
    requires SortsFilled(children) && Covered(permissions, children)
    requires SortsFilled(ApplyFilters(permissions, children))
    ensures RequestedFields(w, c, ApplyFilters(permissions, children), row)
            == RequestedFields(Restrict(w, permissions), c, children, row)
    decreases children, 0
  {
    if children != [] {
      AppliedPrefix(permissions, children);
      var last := children[|children| - 1];
      FieldsUpdated(w, permissions, c, children[..|children| - 1], row);
      hide RequestedWith, ApplyToNode;
      WithUpdated(w, permissions, c, last, row, RequestedFields(Restrict(w, permissions), c, children[..|children| - 1], row));
    }
  }

  lemma {:induction false} WithUpdated(w: World, permissions: seq<Permission>, c: string, child: Node, row: Row, before: Item)
    requires SortFilled(child) && NodeCovered(permissions, child)
    requires SortFilled(ApplyToNode(permissions, child))
    ensures RequestedWith(w, c, ApplyToNode(permissions, child), row, before)
            == RequestedWith(Restrict(w, permissions), c, child, row, before)
    decreases child, 2
  {
    hide RequestedNested, CountOf;
    if child.Count? {
      CountUpdated(w, permissions, c, child, row);
    } else if child.IsNested() {
      NestedUpdated(w, permissions, c, child, row);
    }
  }

  lemma {:induction false} NestedUpdated(w: World, permissions: seq<Permission>, c: string, node: Node, row: Row)
    requires SortFilled(node) && NodeCovered(permissions, node) && node.IsNested()
    requires SortFilled(ApplyToNode(permissions, node))
    ensures RequestedNested(w, c, ApplyToNode(permissions, node), row)
            == RequestedNested(Restrict(w, permissions), c, node, row)
    decreases node, 1
  {
    hide LinkedRows, RelatedRow;
    var visible := Restrict(w, permissions);
    match node {
      case M2O(_, field, related, children, query) =>
        MatchingUpdated(w, permissions, related, query);
        var r := RelatedRow(visible, related, query, Cell(row, field));
        if r.Some? {
          RowUpdated(w, permissions, related, children, r.value);
        }
      case O2M(_, _, related, _, children, _) =>
        var key := Cell(row, w.Primary(c));
        LinkedUpdated(w, permissions, node, key);
        RowsUpdated(w, permissions, related, children, LinkedRows(visible, node, key));
      case A2O(_, _, _, _) =>
        AnyUpdated(w, permissions, c, node, row);
    }
  }

  lemma {:induction false} AnyUpdated(w: World, permissions: seq<Permission>, c: string, node: Node, row: Row)
    requires node.A2O? && SortFilled(node) && NodeCovered(permissions, node)
    requires SortFilled(ApplyToNode(permissions, node))
    ensures RequestedNested(w, c, ApplyToNode(permissions, node), row)
            == RequestedNested(Restrict(w, permissions), c, node, row)
    decreases node, 0
  {
    hide RelatedRow, BranchFor;
    var v := Cell(row, node.collectionField);
    BranchUpdated(permissions, node.branches, v);
    var b := BranchFor(node.branches, v);
    if b.Some? {
      MatchingUpdated(w, permissions, b.value.collection, b.value.query);
      var r := RelatedRow(Restrict(w, permissions), b.value.collection, b.value.query, Cell(row, node.field));
      if r.Some? {
        SortsKept(permissions, b.value.children);
        RowUpdated(w, permissions, b.value.collection, b.value.children, r.value);
      }
    }
  }

  /** Rewriting the query tree is rewriting the database: at every depth, for every kind of node,
      the tree with permission filters reads from the whole database exactly what the tree
      without them reads from the visible part. */
  lemma PermissionsRestrictTheDatabase(w: World, permissions: seq<Permission>, ast: Ast)
    requires SortsFilled(ast.children)
    requires Find(permissions, ast.name).Some? && Covered(permissions, ast.children)
    ensures SortsFilled(ApplyToAst(permissions, ast).children)
    ensures Join(w, ApplyToAst(permissions, ast)) == Join(Restrict(w, permissions), ast)
  {
    SortsKept(permissions, ast.children);
    MatchingUpdated(w, permissions, ast.name, ast.query);
    RowsUpdated(w, permissions, ast.name, ast.children, Fetch(Restrict(w, permissions), ast.name, ast.query));
  }
}
