/**
 Columns that the caller may not read do not show, as long as no key, filter or order of the read looks at them.
 */
module HiddenColumns {
  import opened Rows
  import opened QueryModel
  import opened NestedJoin
  import opened Unstripped
  import opened Stripping
  import opened Authorization
  import opened Occurrences
  import opened PermissionCheck
  import opened RunAst
  import opened ReadQuery

  /** Which columns of which collections. */
  type Columns = (string, string) -> bool

  // ----- rows that agree elsewhere -----

  ghost predicate Agree(hidden: Columns, c: string, a: Row, b: Row) {
    forall k :: !hidden(c, k) ==> Cell(a, k) == Cell(b, k)
  }

  ghost predicate AgreeAll(hidden: Columns, c: string, s: seq<Row>, t: seq<Row>) {
    |s| == |t| && forall i :: 0 <= i < |s| ==> Agree(hidden, c, s[i], t[i])
  }

  /** Databases that differ in hidden columns only. */
  ghost predicate SameBut(hidden: Columns, w: World, v: World) {
    && w.schema == v.schema && w.before == v.before && w.defaultLimit == v.defaultLimit
    && forall c: string :: AgreeAll(hidden, c, w.Table(c), v.Table(c))
  }

  /** Conditions on rows that do not look at hidden columns. */
  ghost predicate Alike(hidden: Columns, c: string, p: Row -> bool, q: Row -> bool) {
    forall a: Row, b: Row :: Agree(hidden, c, a, b) ==> (p(a) <==> q(b))
  }

  ghost predicate AlikeOrders(hidden: Columns, c: string, leq: (Row, Row) -> bool, leq': (Row, Row) -> bool) {
    forall a: Row, a': Row, b: Row, b': Row :: Agree(hidden, c, a, a') && Agree(hidden, c, b, b') ==> leq(a, b) == leq'(a', b')
  }

  lemma {:induction false} KeepAgrees(hidden: Columns, c: string, s: seq<Row>, t: seq<Row>, p: Row -> bool, q: Row -> bool)
    requires AgreeAll(hidden, c, s, t) && Alike(hidden, c, p, q)
    ensures AgreeAll(hidden, c, Keep(s, p), Keep(t, q))
  {
    hide Agree;
    if s != [] {
      KeepAgrees(hidden, c, s[1..], t[1..], p, q);
      assert p(s[0]) <==> q(t[0]);
    }
  }

  lemma {:induction false} InsertAgrees(hidden: Columns, c: string, s: seq<Row>, t: seq<Row>, x: Row, y: Row,
                                        leq: (Row, Row) -> bool, leq': (Row, Row) -> bool)
    requires AgreeAll(hidden, c, s, t) && Agree(hidden, c, x, y) && AlikeOrders(hidden, c, leq, leq')
    ensures AgreeAll(hidden, c, Insert(s, x, leq), Insert(t, y, leq'))
  {
    hide Agree;
    if s != [] {
      assert leq(s[|s| - 1], x) == leq'(t[|t| - 1], y);
      if !leq(s[|s| - 1], x) {
        InsertAgrees(hidden, c, s[..|s| - 1], t[..|t| - 1], x, y, leq, leq');
      }
    }
  }

  lemma {:induction false} SortAgrees(hidden: Columns, c: string, s: seq<Row>, t: seq<Row>,
                                      leq: (Row, Row) -> bool, leq': (Row, Row) -> bool)
    requires AgreeAll(hidden, c, s, t) && AlikeOrders(hidden, c, leq, leq')
    ensures AgreeAll(hidden, c, Sort(s, leq), Sort(t, leq'))
  {
    hide Agree, AlikeOrders, Insert;
    if s != [] {
      SortAgrees(hidden, c, s[..|s| - 1], t[..|t| - 1], leq, leq');
      InsertAgrees(hidden, c, Sort(s[..|s| - 1], leq), Sort(t[..|t| - 1], leq'), s[|s| - 1], t[|t| - 1], leq, leq');
    }
  }

  // ----- what a tree looks at -----

  ghost predicate FilterBlind(hidden: Columns, c: string, f: Filter) {
    Alike(hidden, c, Passes(f), Passes(f))
  }

  ghost predicate QueryBlind(hidden: Columns, w: World, c: string, q: Query) {
    FilterBlind(hidden, c, q.filter) && AlikeOrders(hidden, c, w.before(c, q.sort), w.before(c, q.sort))
  }

  /** No key, filter or order that a node uses is hidden. */
  ghost predicate NodeBlind(hidden: Columns, w: World, c: string, node: Node) {
    match node
    case Field(_, _) => true
    case Count(_, related, field, query) => !hidden(related, field) && FilterBlind(hidden, related, query.filter)
    case M2O(_, field, related, _, query) => !hidden(c, field) && QueryBlind(hidden, w, related, query)
    case O2M(_, field, related, sortField, _, query) =>
      && !hidden(related, field) && (sortField.Some? ==> !hidden(related, sortField.value))
      && (query.sort != [] ==> !hidden(related, query.sort[0].column))
      && QueryBlind(hidden, w, related, query)
    case A2O(_, field, collectionField, branches) =>
      && !hidden(c, field) && !hidden(c, collectionField)
      && forall b :: 0 <= b < |branches| ==> QueryBlind(hidden, w, branches[b].collection, branches[b].query)
  }

  ghost function LevelBlind(hidden: Columns, w: World): Level -> bool {
    (level: Level) =>
      !hidden(level.collection, w.Primary(level.collection))
      && forall i :: 0 <= i < |level.children| ==> NodeBlind(hidden, w, level.collection, level.children[i])
  }

  /** And no hidden column is requested. */
  ghost predicate OpenLevel(hidden: Columns, w: World, c: string, children: seq<Node>) {
    && !hidden(c, w.Primary(c))
    && forall i :: 0 <= i < |children| ==>
         NodeBlind(hidden, w, c, children[i]) && (children[i].Field? ==> !hidden(c, children[i].name))
  }

  ghost function LevelOpen(hidden: Columns, w: World): Level -> bool {
    (level: Level) => OpenLevel(hidden, w, level.collection, level.children)
  }

  // ----- one level -----

  lemma MatchingAgrees(hidden: Columns, w: World, v: World, c: string, q: Query)
    requires SameBut(hidden, w, v) && QueryBlind(hidden, w, c, q)
    ensures AgreeAll(hidden, c, Matching(w, c, q), Matching(v, c, q))
    ensures AgreeAll(hidden, c, Fetch(w, c, q), Fetch(v, c, q))
  {
    hide Keep, Sort, Agree, Alike, AlikeOrders;
    KeepAgrees(hidden, c, w.Table(c), v.Table(c), Passes(q.filter), Passes(q.filter));
    SortAgrees(hidden, c, Keep(w.Table(c), Passes(q.filter)), Keep(v.Table(c), Passes(q.filter)),
               w.before(c, q.sort), v.before(c, q.sort));
  }

  lemma RelatedAgrees(hidden: Columns, w: World, v: World, c: string, q: Query, x: Value)
    requires SameBut(hidden, w, v) && QueryBlind(hidden, w, c, q) && !hidden(c, w.Primary(c))
    ensures RelatedRow(w, c, q, x).Some? <==> RelatedRow(v, c, q, x).Some?
    ensures RelatedRow(w, c, q, x).Some? ==> Agree(hidden, c, RelatedRow(w, c, q, x).value, RelatedRow(v, c, q, x).value)
  {
    hide Keep, Matching, QueryBlind;
    MatchingAgrees(hidden, w, v, c, q);
    assert w.Primary(c) == v.Primary(c);
    KeepAgrees(hidden, c, Matching(w, c, q), Matching(v, c, q), HavingCell(w.Primary(c), x), HavingCell(v.Primary(c), x));
  }

  lemma CountAgrees(hidden: Columns, w: World, v: World, c: string, node: Node, a: Row, b: Row)
    requires SameBut(hidden, w, v) && node.Count? && NodeBlind(hidden, w, c, node)
    requires Agree(hidden, c, a, b) && !hidden(c, w.Primary(c))
    ensures CountOf(w, c, node, a) == CountOf(v, c, node, b)
  {
    hide Keep, Holds;
    var key := Cell(a, w.Primary(c));
    assert key == Cell(b, v.Primary(c));
    forall x: Row, y: Row | Agree(hidden, node.related, x, y) ensures Counted(node, key)(x) <==> Counted(node, key)(y) {
      assert Passes(node.query.filter)(x) <==> Passes(node.query.filter)(y);
    }
    KeepAgrees(hidden, node.related, w.Table(node.related), v.Table(node.related), Counted(node, key), Counted(node, key));
  }

  lemma {:induction false} CellAgrees(hidden: Columns, w: World, v: World, c: string, children: seq<Node>, a: Row, b: Row, k: string)
    requires SameBut(hidden, w, v) && Agree(hidden, c, a, b) && OpenLevel(hidden, w, c, children)
    requires hidden(c, k) ==> exists i :: 0 <= i < |children| && children[i].IsColumn() && children[i].key == k
    ensures CellFor(w, c, children, a, k) == CellFor(v, c, children, b, k)
  {
    hide NodeBlind, CountOf;
    if children != [] {
      assert NodeBlind(hidden, w, c, children[0]);
      if children[0].IsColumn() && children[0].key == k {
        if children[0].Count? {
          CountAgrees(hidden, w, v, c, children[0], a, b);
        }
      } else {
        var rest := children[1..];
        if hidden(c, k) {
          var i :| 0 <= i < |children| && children[i].IsColumn() && children[i].key == k;
          assert rest[i - 1] == children[i];
        }
        assert forall i :: 0 <= i < |rest| ==> rest[i] == children[i + 1];
        CellAgrees(hidden, w, v, c, rest, a, b, k);
      }
    }
  }

  lemma {:induction false} ColumnKeysAgree(w: World, v: World, c: string, children: seq<Node>)
    requires w.schema == v.schema
    ensures ColumnKeys(w, c, children) == ColumnKeys(v, c, children)
  {
    if children != [] {
      ColumnKeysAgree(w, v, c, children[1..]);
    }
  }

  lemma SelectedAgrees(hidden: Columns, w: World, v: World, c: string, children: seq<Node>, extras: set<string>, a: Row, b: Row)
    requires SameBut(hidden, w, v) && Agree(hidden, c, a, b) && OpenLevel(hidden, w, c, children)
    requires forall k :: k in extras ==> !hidden(c, k)
    ensures Selected(w, c, children, extras, a) == Selected(v, c, children, extras, b)
  {
    hide Agree, ColumnKeys, CellFor, SameBut;
    assert w.schema == v.schema by { hide *; assert SameBut(hidden, w, v); SameSchema(hidden, w, v); }
    ColumnKeysAgree(w, v, c, children);
    forall k | k in SelectKeys(w, c, children, extras)
      ensures CellFor(w, c, children, a, k) == CellFor(v, c, children, b, k)
    {
      if hidden(c, k) {
        ColumnKeysFrom(w, c, children, k);
        var i :| 0 <= i < |children| && ColumnOf(w, c, children[i], k);
        assert NodeBlind(hidden, w, c, children[i]);
      }
      CellAgrees(hidden, w, v, c, children, a, b, k);
    }
  }

  lemma SameSchema(hidden: Columns, w: World, v: World)
    requires SameBut(hidden, w, v)
    ensures w.schema == v.schema && w.before == v.before && w.defaultLimit == v.defaultLimit
  {
  }

  lemma LinkedAgrees(hidden: Columns, w: World, v: World, c: string, node: Node, key: Value)
    requires SameBut(hidden, w, v) && node.O2M? && node.query.sort != []
    requires NodeBlind(hidden, w, c, node) && OpenLevel(hidden, w, node.related, node.children)
    ensures AgreeAll(hidden, node.related, LinkedRows(w, node, key), LinkedRows(v, node, key))
  {
    hide Keep, Sort, Matching, SameBut, OpenLevel, Selected, QueryBlind, ItemLeq;
    SameSchema(hidden, w, v);
    var c' := node.related;
    MatchingAgrees(hidden, w, v, c', node.query);
    KeepAgrees(hidden, c', Matching(w, c', node.query), Matching(v, c', node.query), LinkedTo(node, key), LinkedTo(node, key));
    forall a: Row, a': Row, b: Row, b': Row | Agree(hidden, c', a, a') && Agree(hidden, c', b, b')
      ensures ChildLeq(w, node)(a, b) == ChildLeq(v, node)(a', b')
    {
      SelectedAgrees(hidden, w, v, c', node.children, Extras(node), a, a');
      SelectedAgrees(hidden, w, v, c', node.children, Extras(node), b, b');
    }
    var limit := LimitOf(w, node.query);
    SortAgrees(hidden, c', Take(Keep(Matching(w, c', node.query), LinkedTo(node, key)), limit),
               Take(Keep(Matching(v, c', node.query), LinkedTo(node, key)), limit), ChildLeq(w, node), ChildLeq(v, node));
  }

  // ----- every level -----

  lemma OpenEverywhere(hidden: Columns, w: World, level: Level)
    requires Everywhere(level, LevelOpen(hidden, w))
    ensures OpenLevel(hidden, w, level.collection, level.children)
    ensures forall i :: 0 <= i < |level.children| ==> BelowChild(level, i, LevelOpen(hidden, w))
  {
    hide Everywhere, NodeBlind, BelowChild, OpenLevel;
    EverywhereByChild(level, LevelOpen(hidden, w));
  }

  lemma {:induction false} WayBackAgrees(hidden: Columns, w: World, v: World, node: Node, key: Value)
    requires SameBut(hidden, w, v) && node.O2M?
    requires Everywhere(Level(node.related, false, node.children), LevelOpen(hidden, w))
    ensures WayBackShows(w, node, key) <==> WayBackShows(v, node, key)
  {
    hide RelatedRow, SameBut, QueryBlind, Everywhere;
    var level, p := Level(node.related, false, node.children), LevelOpen(hidden, w);
    OpenEverywhere(hidden, w, level);
    forall i | 0 <= i < |node.children| && IsWayBack(node, node.children[i])
      ensures RelatedRow(w, node.children[i].related, node.children[i].query, key).Some?
              <==> RelatedRow(v, node.children[i].related, node.children[i].query, key).Some?
    {
      var child := node.children[i];
      assert NodeBlind(hidden, w, node.related, child);
      BelowOne(level, i, p);
      OpenEverywhere(hidden, w, Level(child.related, false, child.children));
      RelatedAgrees(hidden, w, v, child.related, child.query, key);
    }
  }

  lemma {:induction false} RawAgrees(hidden: Columns, w: World, v: World, level: Level, extras: set<string>, a: Row, b: Row)
    requires SameBut(hidden, w, v) && Agree(hidden, level.collection, a, b) && SortsFilled(level.children)
    requires Everywhere(level, LevelOpen(hidden, w)) && forall k :: k in extras ==> !hidden(level.collection, k)
    ensures RawItem(w, level.collection, level.children, extras, a) == RawItem(v, level.collection, level.children, extras, b)
    decreases level.children, 2, 0
  {
    hide SameBut, Everywhere, Overlay, Selected, Agree, OpenLevel;
    OpenEverywhere(hidden, w, level);
    SelectedAgrees(hidden, w, v, level.collection, level.children, extras, a, b);
    assert level.children[..|level.children|] == level.children;
    OverlayAgrees(hidden, w, v, level, a, b, Selected(w, level.collection, level.children, extras, a), |level.children|);
  }

  lemma {:induction false} OverlayAgrees(hidden: Columns, w: World, v: World, level: Level, a: Row, b: Row, selected: Item, n: nat)
    requires SameBut(hidden, w, v) && Agree(hidden, level.collection, a, b)
    requires n <= |level.children| && SortsFilled(level.children[..n])
    requires Everywhere(level, LevelOpen(hidden, w))
    ensures Overlay(w, level.collection, level.children[..n], a, selected) == Overlay(v, level.collection, level.children[..n], b, selected)
    decreases level.children, 1, n
  {
    hide SameBut, Everywhere, RawNested, Agree, FieldTaken;
    if n > 0 {
      assert level.children[..n][..n - 1] == level.children[..n - 1];
      OverlayAgrees(hidden, w, v, level, a, b, selected, n - 1);
      if level.children[n - 1].IsNested() {
        NestedAgrees(hidden, w, v, level, a, b, n - 1);
      }
    }
  }

  lemma {:induction false} NestedAgrees(hidden: Columns, w: World, v: World, level: Level, a: Row, b: Row, i: nat)
    requires SameBut(hidden, w, v) && Agree(hidden, level.collection, a, b)
    requires i < |level.children| && level.children[i].IsNested() && SortFilled(level.children[i])
    requires Everywhere(level, LevelOpen(hidden, w))
    ensures RawNested(w, level.collection, level.children[i], a) == RawNested(v, level.collection, level.children[i], b)
    decreases level.children[i], 4
  {
    hide SameBut, Everywhere, RelatedRow, LinkedRows, RawItem, WayBackShows, QueryBlind, BranchFor;
    var node, p := level.children[i], LevelOpen(hidden, w);
    OpenEverywhere(hidden, w, level);
    assert NodeBlind(hidden, w, level.collection, node);
    BelowOne(level, i, p);
    match node {
      case M2O(_, field, related, children, query) =>
        OneAgrees(hidden, w, v, Level(related, false, children), query, Cell(a, field));
      case O2M(_, _, related, _, children, _) =>
        SameSchema(hidden, w, v);
        ListAgrees(hidden, w, v, level.collection, node, Cell(a, w.Primary(level.collection)));
      case A2O(_, field, collectionField, branches) =>
        var branch := BranchFor(branches, Cell(a, collectionField));
        if branch.Some? {
          var n :| 0 <= n < |branches| && branches[n] == branch.value;
          OneAgrees(hidden, w, v, Level(branch.value.collection, true, branch.value.children), branch.value.query, Cell(a, field));
        }
    }
  }

  /** The related row, as an item. */
  lemma {:induction false} OneAgrees(hidden: Columns, w: World, v: World, level: Level, query: Query, x: Value)
    requires SameBut(hidden, w, v) && SortsFilled(level.children)
    requires QueryBlind(hidden, w, level.collection, query) && Everywhere(level, LevelOpen(hidden, w))
    ensures var r, s := RelatedRow(w, level.collection, query, x), RelatedRow(v, level.collection, query, x);
            && (r.Some? <==> s.Some?)
            && (r.Some? ==> RawItem(w, level.collection, level.children, {}, r.value)
                            == RawItem(v, level.collection, level.children, {}, s.value))
    decreases level.children, 3
  {
    hide SameBut, Everywhere, RelatedRow, RawItem, QueryBlind, Agree;
    OpenEverywhere(hidden, w, level);
    RelatedAgrees(hidden, w, v, level.collection, query, x);
    var r, s := RelatedRow(w, level.collection, query, x), RelatedRow(v, level.collection, query, x);
    if r.Some? {
      RawAgrees(hidden, w, v, level, {}, r.value, s.value);
    }
  }

  /** The children of a parent, as items. */
  lemma {:induction false} ListAgrees(hidden: Columns, w: World, v: World, c: string, node: Node, key: Value)
    requires SameBut(hidden, w, v) && node.O2M? && SortFilled(node) && NodeBlind(hidden, w, c, node)
    requires Everywhere(Level(node.related, false, node.children), LevelOpen(hidden, w))
    ensures RawAll(w, node.related, node.children, Extras(node), MergedRows(w, node, key))
            == RawAll(v, node.related, node.children, Extras(node), MergedRows(v, node, key))
    decreases node, 3
  {
    hide SameBut, Everywhere, LinkedRows, RawItem, WayBackShows, QueryBlind, Agree;
    var level := Level(node.related, false, node.children);
    OpenEverywhere(hidden, w, level);
    LinkedAgrees(hidden, w, v, c, node, key);
    WayBackAgrees(hidden, w, v, node, key);
    var r, s := MergedRows(w, node, key), MergedRows(v, node, key);
    forall i | 0 <= i < |r|
      ensures RawItem(w, node.related, node.children, Extras(node), r[i]) == RawItem(v, node.related, node.children, Extras(node), s[i])
    {
      RawAgrees(hidden, w, v, level, Extras(node), r[i], s[i]);
    }
  }

  // ----- the strip looks at the schema only -----

  lemma {:induction false} StripValueAgrees(w: World, v: World, c: string, pk: string, inBranch: bool, children: seq<Node>, x: Value)
    requires w.schema == v.schema
    ensures StripValue(w, c, pk, inBranch, children, x) == StripValue(v, c, pk, inBranch, children, x)
    decreases children, 3
  {
    hide StripItem;
    match x {
      case Null =>
      case Arr(items) =>
        forall i | 0 <= i < |items|
          ensures StripItem(w, c, pk, inBranch, children, FieldsOf(items[i])) == StripItem(v, c, pk, inBranch, children, FieldsOf(items[i]))
        {
          StripItemAgrees(w, v, c, pk, inBranch, children, FieldsOf(items[i]));
        }
        assert StripEach(w, c, pk, inBranch, children, items) == StripEach(v, c, pk, inBranch, children, items);
      case _ =>
        StripItemAgrees(w, v, c, pk, inBranch, children, FieldsOf(x));
    }
  }

  lemma {:induction false} StripItemAgrees(w: World, v: World, c: string, pk: string, inBranch: bool, children: seq<Node>, item: Item)
    requires w.schema == v.schema
    ensures StripItem(w, c, pk, inBranch, children, item) == StripItem(v, c, pk, inBranch, children, item)
    decreases children, 1
  {
    hide StripNested;
    StripNestedAgrees(w, v, c, inBranch, children, item);
  }

  lemma {:induction false} StripNestedAgrees(w: World, v: World, c: string, inBranch: bool, children: seq<Node>, item: Item)
    requires w.schema == v.schema
    ensures StripNested(w, c, inBranch, children, item) == StripNested(v, c, inBranch, children, item)
    decreases children, 0
  {
    hide StripNode;
    if children != [] {
      var last := children[|children| - 1];
      StripNestedAgrees(w, v, c, inBranch, children[..|children| - 1], item);
      if last.IsNested() {
        StripNodeAgrees(w, v, c, inBranch, last, StripNested(w, c, inBranch, children[..|children| - 1], item));
      }
    }
  }

  lemma {:induction false} StripNodeAgrees(w: World, v: World, c: string, inBranch: bool, node: Node, parent: Item)
    requires w.schema == v.schema && node.IsNested()
    ensures StripNode(w, c, inBranch, node, parent) == StripNode(v, c, inBranch, node, parent)
    decreases node, 1
  {
    hide StripValue;
    var x := Cell(parent, node.key);
    match node {
      case M2O(_, _, related, children, _) =>
        StripValueAgrees(w, v, related, if inBranch then w.Primary(c) else w.Primary(related), false, children, x);
      case O2M(_, _, related, _, children, _) =>
        StripValueAgrees(w, v, related, w.Primary(related), false, children, x);
      case A2O(_, _, collectionField, branches) =>
        var b := BranchFor(branches, Cell(parent, collectionField));
        if b.Some? {
          StripValueAgrees(w, v, b.value.collection, w.Primary(c), true, b.value.children, x);
        }
    }
  }

  /** Databases that agree on all that a tree requests or looks at give the same answer. */
  lemma OpenAnswersAgree(hidden: Columns, w: World, v: World, ast: Ast)
    requires SameBut(hidden, w, v) && SortsFilled(ast.children)
    requires QueryBlind(hidden, w, ast.name, ast.query) && Everywhere(Root(ast), LevelOpen(hidden, w))
    ensures Answer(w, ast) == Answer(v, ast)
  {
    hide Fetch, RawItem, StripItem, Everywhere, SameBut, QueryBlind, Agree;
    SameSchema(hidden, w, v);
    MatchingAgrees(hidden, w, v, ast.name, ast.query);
    var r, s := Fetch(w, ast.name, ast.query), Fetch(v, ast.name, ast.query);
    forall i | 0 <= i < |r|
      ensures Answer(w, ast)[i] == Answer(v, ast)[i]
    {
      RawAgrees(hidden, w, v, Root(ast), {}, r[i], s[i]);
      StripItemAgrees(w, v, ast.name, w.Primary(ast.name), false, ast.children,
                      RawItem(w, ast.name, ast.children, {}, r[i]));
    }
  }

  // ----- with the filters of the permissions -----

  function Applied(permissions: seq<Permission>, level: Level): Level {
    level.(children := ApplyFilters(permissions, level.children))
  }

  lemma AppliedBelow(permissions: seq<Permission>, level: Level, step: Step)
    ensures Below(level, step).Some? <==> Below(Applied(permissions, level), step).Some?
    ensures Below(level, step).Some? ==>
              Below(Applied(permissions, level), step).value == Applied(permissions, Below(level, step).value)
  {
    hide ApplyFilters;
    if step.0 < |level.children| {
      AppliedAt(permissions, level.children, step.0);
      if level.children[step.0].A2O? && step.1 < |level.children[step.0].branches| {
        BranchAt(permissions, level.children[step.0].branches, step.1);
      }
    }
  }

  /** The rewriting keeps the places of a tree. */
  lemma {:induction false} AppliedLevelAt(permissions: seq<Permission>, level: Level, path: seq<Step>)
    ensures LevelAt(level, path).Some? <==> LevelAt(Applied(permissions, level), path).Some?
    ensures LevelAt(level, path).Some? ==>
              LevelAt(Applied(permissions, level), path).value == Applied(permissions, LevelAt(level, path).value)
    decreases |path|
  {
    hide Applied, Below;
    if path != [] {
      AppliedBelow(permissions, level, path[0]);
      if Below(level, path[0]).Some? {
        AppliedLevelAt(permissions, Below(level, path[0]).value, path[1..]);
      }
    }
  }

  ghost predicate PermissionsBlind(hidden: Columns, permissions: seq<Permission>) {
    forall i :: 0 <= i < |permissions| ==> FilterBlind(hidden, permissions[i].collection, permissions[i].filter)
  }

  lemma UpdatedIsBlind(hidden: Columns, w: World, permissions: seq<Permission>, c: string, q: Query)
    requires PermissionsBlind(hidden, permissions)
    ensures FilterBlind(hidden, c, q.filter) ==> FilterBlind(hidden, c, UpdateQuery(permissions, c, q).filter)
    ensures QueryBlind(hidden, w, c, q) ==> QueryBlind(hidden, w, c, UpdateQuery(permissions, c, q))
  {
    hide UpdateFilter, Agree, Holds, AlikeOrders;
    var permission := FilterFor(permissions, c);
    FindIsFirst(permissions, c);
    assert FilterBlind(hidden, c, permission) by {
      hide Find;
      if Find(permissions, c).Some? {
        var i :| IsFirst(permissions, i) && permissions[i].collection == c && permissions[i] == Find(permissions, c).value;
      } else {
        assert permission == ANYTHING;
        forall row: Row ensures Holds(ANYTHING, row) { HoldsAnything(row); }
      }
    }
    if FilterBlind(hidden, c, q.filter) {
      forall a: Row, b: Row | Agree(hidden, c, a, b)
        ensures Holds(UpdateFilter(q.filter, permission), a) <==> Holds(UpdateFilter(q.filter, permission), b)
      {
        UpdatedHolds(q.filter, permission, a);
        UpdatedHolds(q.filter, permission, b);
        assert Passes(q.filter)(a) <==> Passes(q.filter)(b);
        assert Passes(permission)(a) <==> Passes(permission)(b);
      }
    }
  }

  lemma HoldsAnything(row: Row)
    ensures Holds(ANYTHING, row)
  {
    assert HoldsAll([], row);
  }

  lemma NodeStaysBlind(hidden: Columns, w: World, permissions: seq<Permission>, c: string, node: Node)
    requires PermissionsBlind(hidden, permissions) && NodeBlind(hidden, w, c, node)
    ensures NodeBlind(hidden, w, c, ApplyToNode(permissions, node))
  {
    hide FilterBlind, AlikeOrders, ApplyFilters, UpdateFilter, PermissionsBlind;
    match node {
      case Field(_, _) =>
      case Count(_, related, _, query) => UpdatedIsBlind(hidden, w, permissions, related, query);
      case M2O(_, _, related, _, query) => UpdatedIsBlind(hidden, w, permissions, related, query);
      case O2M(_, _, related, _, _, query) => UpdatedIsBlind(hidden, w, permissions, related, query);
      case A2O(_, _, _, branches) =>
        hide QueryBlind;
        forall b | 0 <= b < |branches|
          ensures QueryBlind(hidden, w, ApplyToBranches(permissions, branches)[b].collection,
                             ApplyToBranches(permissions, branches)[b].query)
        {
          BranchAt(permissions, branches, b);
          UpdatedIsBlind(hidden, w, permissions, branches[b].collection, branches[b].query);
        }
    }
  }

  /** The caller may read no hidden column. */
  ghost predicate MayNotRead(hidden: Columns, permissions: seq<Permission>) {
    forall c, k :: hidden(c, k) ==> !AllowsColumn(permissions, c, k)
  }

  /** An accepted tree, rewritten, requests no hidden column. */
  lemma RewrittenIsOpen(hidden: Columns, w: World, permissions: seq<Permission>, ast: Ast)
    requires Permitted(permissions, ast) && MayNotRead(hidden, permissions) && PermissionsBlind(hidden, permissions)
    requires Everywhere(Root(ast), LevelBlind(hidden, w))
    ensures Everywhere(Root(ApplyToAst(permissions, ast)), LevelOpen(hidden, w))
  {
    hide LevelAt, NodeBlind, ApplyFilters, PermissionsBlind, AllowsColumn;
    var root := Root(ast);
    assert Root(ApplyToAst(permissions, ast)) == Applied(permissions, root);
    forall path: seq<Step> | LevelAt(Applied(permissions, root), path).Some?
      ensures LevelOpen(hidden, w)(LevelAt(Applied(permissions, root), path).value)
    {
      AppliedLevelAt(permissions, root, path);
      var level := LevelAt(root, path).value;
      assert LevelBlind(hidden, w)(level);
      forall i | 0 <= i < |level.children|
        ensures ApplyFilters(permissions, level.children)[i] == ApplyToNode(permissions, level.children[i])
        ensures NodeBlind(hidden, w, level.collection, ApplyToNode(permissions, level.children[i]))
        ensures level.children[i].Field? ==> !hidden(level.collection, level.children[i].name)
      {
        AppliedAt(permissions, level.children, i);
        NodeStaysBlind(hidden, w, permissions, level.collection, level.children[i]);
        if level.children[i].Field? {
          assert ReadsColumn(ast, level.collection, level.children[i].name);
        }
      }
    }
  }

  /** What the caller may not read does not show in what an accepted read answers: it depends on the
      other columns alone, intact or not, as long as no key, filter or order of the tree or of a
      permission reads the hidden ones. */
  lemma HiddenColumnsDoNotShow(hidden: Columns, w: World, v: World, permissions: seq<Permission>, ast: Ast)
    requires SortsFilled(ast.children) && Permitted(permissions, ast)
    requires SameBut(hidden, w, v) && MayNotRead(hidden, permissions)
    requires QueryBlind(hidden, w, ast.name, ast.query) && Everywhere(Root(ast), LevelBlind(hidden, w))
    requires PermissionsBlind(hidden, permissions)
    ensures SortsFilled(ApplyToAst(permissions, ast).children)
    ensures Answer(w, ApplyToAst(permissions, ast)) == Answer(v, ApplyToAst(permissions, ast))
  {
    hide *;
    SortsKept(permissions, ast.children);
    AppliedParts(permissions, ast);
    UpdatedIsBlind(hidden, w, permissions, ast.name, ast.query);
    RewrittenIsOpen(hidden, w, permissions, ast);
    OpenAnswersAgree(hidden, w, v, ApplyToAst(permissions, ast));
  }

  lemma AppliedParts(permissions: seq<Permission>, ast: Ast)
    ensures ApplyToAst(permissions, ast)
            == Ast(ast.name, ApplyFilters(permissions, ast.children), UpdateQuery(permissions, ast.name, ast.query))
  {
  }
}
