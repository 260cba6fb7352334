/**
 The permitted read: `processAST` checks and rewrites the tree, and `runAST` reads what the caller may see of it.
 */
module ReadQuery {
  import opened Rows
  import opened Wrappers
  import opened QueryModel
  import opened NestedJoin
  import opened Authorization
  import opened Occurrences
  import opened PermissionCheck
  import opened Counts
  import opened Unstripped
  import opened RunAst
  import PlainTrees
  import Windows

  datatype Failure =
    | Forbidden
    | Broken  // the rewriting dereferences a permission that is not there

  // ----- processAST -----

  /** Who may read what: every collection that the tree reads anywhere has a permission, and every
      column it reads anywhere is allowed by the one that counts for its collection. */
  ghost predicate Permitted(permissions: seq<Permission>, ast: Ast) {
    && (forall c :: ReadsCollection(ast, c) ==> HasPermission(permissions, c))
    && (forall c, name :: ReadsColumn(ast, c, name) ==> AllowsColumn(permissions, c, name))
  }

  /** `filtersPermitted` is the verdict of `validateFilterPermissions` on the fields that filters and
      sorts mention. */
  method ProcessAst(permissions: seq<Permission>, filtersPermitted: bool, ast: Ast) returns (r: Result<Ast, Failure>)
    ensures r.Ok? <==> filtersPermitted && Permitted(permissions, ast)
    ensures r.Ok? ==> r.value == ApplyToAst(permissions, ast)
    ensures r == Err(Broken) <==>
              && filtersPermitted
              && (forall c :: HasLevel(ast, c) || CountsIn(ast, c, false) ==> HasPermission(permissions, c))
              && (forall c, name :: ReadsColumn(ast, c, name) ==> AllowsColumn(permissions, c, name))
              && (exists c :: CountsIn(ast, c, true) && !HasPermission(permissions, c))
  {
    hide *;
    var names := CollectionsOfAst(ast);
    AstCollections(permissions, ast);
    CountsAgreeIff(permissions, names);
    CheckedMeans(permissions, ast);
    if |Unique(names)| != |PermissionsFor(permissions, names)| {
      return Err(Forbidden);
    }
    if !FieldsAllowed(permissions, ast.name, ast.children) {
      return Err(Forbidden);
    }
    if !filtersPermitted {
      return Err(Forbidden);
    }
    if !BranchCountsCovered(permissions, false, ast.children) {
      return Err(Broken);
    }
    r := Ok(ApplyToAst(permissions, ast));
  }

  lemma AstCollections(permissions: seq<Permission>, ast: Ast)
    ensures (forall n :: n in CollectionsOfAst(ast) ==> Find(permissions, n).Some?)
            <==> Find(permissions, ast.name).Some? && AllFound(permissions, CollectionsBelow(false, ast.children))
  {
    FoundAppend(permissions, [ast.name], CollectionsBelow(false, ast.children));
    FindOne(permissions, ast.name);
  }

  /** The three checks, by what the tree reads. */
  lemma CheckedMeans(permissions: seq<Permission>, ast: Ast)
    ensures (forall c :: HasLevel(ast, c) || CountsIn(ast, c, false) ==> HasPermission(permissions, c))
            <==> Find(permissions, ast.name).Some? && AllFound(permissions, CollectionsBelow(false, ast.children))
    ensures (forall c, name :: ReadsColumn(ast, c, name) ==> AllowsColumn(permissions, c, name))
            <==> FieldsAllowed(permissions, ast.name, ast.children)
    ensures (exists c :: CountsIn(ast, c, true) && !HasPermission(permissions, c))
            <==> !BranchCountsCovered(permissions, false, ast.children)
    ensures Permitted(permissions, ast)
            <==> Find(permissions, ast.name).Some? && AllFound(permissions, CollectionsBelow(false, ast.children))
                 && FieldsAllowed(permissions, ast.name, ast.children)
                 && BranchCountsCovered(permissions, false, ast.children)
  {
    hide FieldsAllowed, AllFound, BranchCountsCovered, HasPermission, AllowsColumn, HasLevel, CountsIn, ReadsColumn, Find;
    CollectedPermittedIff(permissions, ast);
    ColumnsPermittedIff(permissions, ast);
    BranchCountsPermittedIff(permissions, ast);
  }

  /** What is permitted is covered by permissions. */
  lemma PermittedIsCovered(permissions: seq<Permission>, ast: Ast)
    requires Permitted(permissions, ast)
    ensures Find(permissions, ast.name).Some? && Covered(permissions, ast.children)
  {
    hide *;
    CheckedMeans(permissions, ast);
    CoveredIff(permissions, false, ast.children);
  }

  /** A count in a many-to-any branch whose collection nothing else reads passes the check by
      counting, and then the rewriting fails. */
  lemma BranchCountEscapes(permissions: seq<Permission>, query: Query)
    requires Find(permissions, "pages").Some? && Find(permissions, "blocks").Some?
    requires Find(permissions, "comments").None?
    ensures var branch := Branch("blocks", [Count("comments_count", "comments", "block", query)], query);
            var children := [A2O("item", "item", "collection", [branch])];
            AllFound(permissions, CollectionsOfAst(Ast("pages", children, query)))
            && !BranchCountsCovered(permissions, false, children)
  {
    var count := Count("comments_count", "comments", "block", query);
    var branch := Branch("blocks", [count], query);
    var node := A2O("item", "item", "collection", [branch]);
    assert [count][..0] == [] && [node][..0] == [];
    assert CollectionsOf(true, count) == [];
    assert CollectionsBelow(true, [count]) == [];
    assert CollectionsInBranches([branch]) == [];
    assert Names([branch]) == ["blocks"];
    assert CollectionsOf(false, node) == ["blocks"];
    assert CollectionsBelow(false, [node]) == ["blocks"];
    assert !BranchCountsCovered(permissions, true, [count]);
    assert node.branches[0].children == [count];
    assert !NodeCountsCovered(permissions, false, node);
  }

  // ----- the rewritten tree is as well formed as the tree -----

  lemma UpdatedIsClean(permissions: seq<Permission>, c: string, q: Query, field: string)
    ensures NothingOn(UpdateQuery(permissions, c, q).filter, field)
    ensures NoInOn(UpdateQuery(permissions, c, q).filter, field)
  {
  }

  /** What `KeysGood` looks at survives the rewriting. */
  predicate SameShape(a: Node, b: Node) {
    && a.key == b.key
    && (a.Field? <==> b.Field?) && (a.Count? <==> b.Count?) && (a.M2O? <==> b.M2O?)
    && (a.O2M? <==> b.O2M?) && (a.A2O? <==> b.A2O?)
    && (a.Field? && b.Field? ==> a.name == b.name)
    && (!a.Field? && !b.Field? ==> a.field == b.field)
    && (a.A2O? && b.A2O? ==> a.collectionField == b.collectionField)
    && (a.M2O? && b.M2O? ==> a.related == b.related && (a.children == [] <==> b.children == []))
  }

  lemma ShapeKept(permissions: seq<Permission>, children: seq<Node>, i: nat)
    requires i < |children|
    ensures SameShape(children[i], ApplyFilters(permissions, children)[i])
  {
    AppliedAt(permissions, children, i);
  }

  lemma KeysKept(w: World, permissions: seq<Permission>, c: string, children: seq<Node>, extras: set<string>)
    requires KeysGood(w, c, children, extras)
    ensures KeysGood(w, c, ApplyFilters(permissions, children), extras)
  {
    var applied := ApplyFilters(permissions, children);
    forall i | 0 <= i < |children| ensures SameShape(children[i], applied[i]) {
      ShapeKept(permissions, children, i);
    }
    NeededKept(w, c, children, applied, extras);
    KeysOfSameShape(w, c, children, applied, extras);
  }

  lemma NeededKept(w: World, c: string, children: seq<Node>, applied: seq<Node>, extras: set<string>)
    requires |children| == |applied| && forall i :: 0 <= i < |children| ==> SameShape(children[i], applied[i])
    ensures Needed(w, c, applied, extras) == Needed(w, c, children, extras)
  {
    var a := set i | 0 <= i < |children| && (children[i].M2O? || children[i].A2O?) :: children[i].field;
    var b := set i | 0 <= i < |applied| && (applied[i].M2O? || applied[i].A2O?) :: applied[i].field;
    forall k ensures k in a <==> k in b {
      if k in a {
        var i :| 0 <= i < |children| && (children[i].M2O? || children[i].A2O?) && children[i].field == k;
        assert SameShape(children[i], applied[i]) && applied[i].field == k;
      }
      if k in b {
        var i :| 0 <= i < |applied| && (applied[i].M2O? || applied[i].A2O?) && applied[i].field == k;
        assert SameShape(children[i], applied[i]) && children[i].field == k;
      }
    }
    var a' := set i | 0 <= i < |children| && children[i].A2O? :: children[i].collectionField;
    var b' := set i | 0 <= i < |applied| && applied[i].A2O? :: applied[i].collectionField;
    forall k ensures k in a' <==> k in b' {
      if k in a' {
        var i :| 0 <= i < |children| && children[i].A2O? && children[i].collectionField == k;
        assert SameShape(children[i], applied[i]) && applied[i].collectionField == k;
      }
      if k in b' {
        var i :| 0 <= i < |applied| && applied[i].A2O? && applied[i].collectionField == k;
        assert SameShape(children[i], applied[i]) && children[i].collectionField == k;
      }
    }
    assert a == b && a' == b';
  }

  lemma KeysOfSameShape(w: World, c: string, children: seq<Node>, applied: seq<Node>, extras: set<string>)
    requires KeysGood(w, c, children, extras)
    requires |children| == |applied| && forall i :: 0 <= i < |children| ==> SameShape(children[i], applied[i])
    requires Needed(w, c, applied, extras) == Needed(w, c, children, extras)
    ensures KeysGood(w, c, applied, extras)
  {
    hide Needed;
    forall i | 0 <= i < |applied|
      ensures applied[i].key == children[i].key && (applied[i].IsNested() <==> children[i].IsNested())
      ensures SameShape(children[i], applied[i])
    {
    }
  }

  lemma {:induction false} GoodKept(w: World, permissions: seq<Permission>, c: string, children: seq<Node>, extras: set<string>)
    requires Good(w, c, children, extras)
    ensures Good(w, c, ApplyFilters(permissions, children), extras)
    decreases children, 0
  {
    hide KeysGood, NodeGood, ApplyToNode;
    KeysKept(w, permissions, c, children, extras);
    forall i | 0 <= i < |children| ensures NodeGood(w, c, ApplyFilters(permissions, children)[i]) {
      AppliedAt(permissions, children, i);
      NodeGoodKept(w, permissions, c, children[i]);
    }
  }

  lemma {:induction false} NodeGoodKept(w: World, permissions: seq<Permission>, c: string, node: Node)
    requires NodeGood(w, c, node)
    ensures NodeGood(w, c, ApplyToNode(permissions, node))
    decreases node, 1
  {
    hide Good, O2MGood;
    match node {
      case Field(_, _) =>
      case Count(_, _, _, _) =>
      case M2O(_, field, related, children, query) =>
        UpdatedIsClean(permissions, related, query, w.Primary(related));
        GoodKept(w, permissions, related, children, {});
      case O2M(_, _, related, _, children, _) =>
        ExtrasUpdated(permissions, node);
        O2MGoodKept(w, permissions, c, node);
        GoodKept(w, permissions, related, children, Extras(node));
      case A2O(_, _, _, branches) =>
        var applied := ApplyToBranches(permissions, branches);
        forall i | 0 <= i < |branches|
          ensures BranchIsGood(w, applied[i]) && Good(w, applied[i].collection, applied[i].children, {})
        {
          BranchAt(permissions, branches, i);
          assert BranchIsGood(w, branches[i]);
          BranchKept(w, permissions, branches[i]);
          GoodKept(w, permissions, branches[i].collection, branches[i].children, {});
        }
        forall i, j | 0 <= i < j < |branches|
          ensures applied[i].collection != applied[j].collection
        {
          BranchAt(permissions, branches, i);
          BranchAt(permissions, branches, j);
        }
    }
  }

  lemma O2MGoodKept(w: World, permissions: seq<Permission>, c: string, node: Node)
    requires node.O2M? && O2MGood(w, c, node)
    ensures O2MGood(w, c, ApplyToNode(permissions, node))
  {
    hide SelectKeys;
    var applied := ApplyFilters(permissions, node.children);
    UpdatedIsClean(permissions, node.related, node.query, node.field);
    ExtrasUpdated(permissions, node);
    SelectKeysKept(w, permissions, node.related, node.children, Extras(node));
    forall i | 0 <= i < |applied| ensures SameShape(node.children[i], applied[i]) {
      ShapeKept(permissions, node.children, i);
    }
  }

  lemma SelectKeysKept(w: World, permissions: seq<Permission>, c: string, children: seq<Node>, extras: set<string>)
    ensures SelectKeys(w, c, ApplyFilters(permissions, children), extras) == SelectKeys(w, c, children, extras)
  {
    KeysUpdated(w, permissions, c, children);
    KeysOfRestricted(w, permissions, c, children);
  }

  /** Which columns are selected does not depend on the rows. */
  lemma {:induction false} KeysOfRestricted(w: World, permissions: seq<Permission>, c: string, children: seq<Node>)
    ensures ColumnKeys(Restrict(w, permissions), c, children) == ColumnKeys(w, c, children)
  {
    if children != [] {
      KeysOfRestricted(w, permissions, c, children[1..]);
    }
  }

  /** What a branch is stripped by survives the rewriting. */
  lemma StripKeysKept(w: World, permissions: seq<Permission>, c: string, children: seq<Node>)
    ensures LeftKeys(w, c, true, ApplyFilters(permissions, children), {}) == LeftKeys(w, c, true, children, {})
    ensures RequestedKeys(w, c, ApplyFilters(permissions, children)) == RequestedKeys(w, c, children)
  {
    hide SelectKeys;
    var applied := ApplyFilters(permissions, children);
    SelectKeysKept(w, permissions, c, children, {});
    forall i | 0 <= i < |applied| ensures SameShape(children[i], applied[i]) {
      ShapeKept(permissions, children, i);
    }
    hide ApplyFilters;
    KeySetsOfSameShape(w, c, children, applied);
  }

  lemma KeySetsOfSameShape(w: World, c: string, a: seq<Node>, b: seq<Node>)
    requires |a| == |b| && forall i :: 0 <= i < |a| ==> SameShape(a[i], b[i])
    ensures NestedKeys(a) == NestedKeys(b) && PickedKeys(true, a) == PickedKeys(true, b)
    ensures RequestedKeys(w, c, a) == RequestedKeys(w, c, b)
  {
    forall i | 0 <= i < |a|
      ensures a[i].IsNested() == b[i].IsNested() && a[i].key == b[i].key && PickedKey(true, a[i]) == PickedKey(true, b[i])
      ensures IsRequested(w, c, a[i]) == IsRequested(w, c, b[i])
    {
      assert SameShape(a[i], b[i]);
    }
    hide SameShape, PickedKey, IsRequested;
    forall k ensures k in NestedKeys(a) <==> k in NestedKeys(b) { }
    forall k ensures k in PickedKeys(true, a) <==> k in PickedKeys(true, b) { }
    forall k ensures k in RequestedKeys(w, c, a) <==> k in RequestedKeys(w, c, b) { }
  }

  lemma BranchKept(w: World, permissions: seq<Permission>, b: Branch)
    requires BranchIsGood(w, b)
    ensures BranchIsGood(w, Branch(b.collection, ApplyFilters(permissions, b.children), UpdateQuery(permissions, b.collection, b.query)))
  {
    UpdatedIsClean(permissions, b.collection, b.query, w.Primary(b.collection));
  }

  // ----- a row is intact as rewritten when it is intact in the visible part -----

  lemma TakenKept(permissions: seq<Permission>, children: seq<Node>, i: nat)
    requires i < |children|
    ensures FieldTaken(ApplyFilters(permissions, children), i) <==> FieldTaken(children, i)
  {
    var applied := ApplyFilters(permissions, children);
    forall j | 0 <= j < |children| ensures SameShape(children[j], applied[j]) {
      ShapeKept(permissions, children, j);
    }
    hide ApplyFilters;
    if FieldTaken(children, i) {
      var j :| 0 <= j < i && children[j].IsNested() && children[j].key == children[i].field;
      assert applied[j].IsNested() && applied[j].key == applied[i].field;
    }
    if FieldTaken(applied, i) {
      var j :| 0 <= j < i && applied[j].IsNested() && applied[j].key == applied[i].field;
      assert children[j].IsNested() && children[j].key == children[i].field;
    }
  }

  lemma WayBackUpdated(w: World, permissions: seq<Permission>, node: Node, key: Value)
    requires node.O2M? && Covered(permissions, node.children)
    ensures WayBackShows(w, ApplyToNode(permissions, node), key) <==> WayBackShows(Restrict(w, permissions), node, key)
  {
    hide RelatedRow;
    var applied := ApplyToNode(permissions, node);
    forall i | 0 <= i < |node.children|
      ensures IsWayBack(applied, applied.children[i]) <==> IsWayBack(node, node.children[i])
      ensures IsWayBack(node, node.children[i]) ==>
                RelatedRow(w, applied.children[i].related, applied.children[i].query, key)
                == RelatedRow(Restrict(w, permissions), node.children[i].related, node.children[i].query, key)
    {
      AppliedAt(permissions, node.children, i);
      CoveredAt(permissions, node.children, i);
      if node.children[i].M2O? {
        MatchingUpdated(w, permissions, node.children[i].related, node.children[i].query);
      }
    }
  }

  /** What is picked does not depend on the rows. */
  lemma PickedInVisible(w: World, permissions: seq<Permission>, c: string, children: seq<Node>)
    ensures LeftKeys(Restrict(w, permissions), c, true, children, {}) == LeftKeys(w, c, true, children, {})
    ensures RequestedKeys(Restrict(w, permissions), c, children) == RequestedKeys(w, c, children)
  {
    KeysOfRestricted(w, permissions, c, children);
  }

  lemma {:induction false} IntactUpdated(w: World, permissions: seq<Permission>, c: string, inBranch: bool, children: seq<Node>, row: Row)
    requires SortsFilled(children) && Covered(permissions, children)
    requires SortsFilled(ApplyFilters(permissions, children))
    ensures Intact(w, c, inBranch, ApplyFilters(permissions, children), row)
            <==> Intact(Restrict(w, permissions), c, inBranch, children, row)
    decreases children, 3
  {
    hide LeftKeys, RequestedKeys, NodeIntact, FieldTaken, RelatedRow, ApplyFilters, ApplyToNode;
    var applied := ApplyFilters(permissions, children);
    var visible := Restrict(w, permissions);
    StripKeysKept(w, permissions, c, children);
    PickedInVisible(w, permissions, c, children);
    forall i | 0 <= i < |children|
      ensures applied[i] == ApplyToNode(permissions, children[i])
      ensures SortFilled(children[i])
      ensures SortFilled(applied[i])
      ensures applied[i].IsNested() <==> children[i].IsNested()
      ensures FieldTaken(applied, i) <==> FieldTaken(children, i)
      ensures FieldTaken(children, i) ==>
                && children[i].M2O? && applied[i].M2O?
                && RelatedRow(w, applied[i].related, applied[i].query, Cell(row, applied[i].field))
                   == RelatedRow(visible, children[i].related, children[i].query, Cell(row, children[i].field))
      ensures children[i].IsNested() ==>
                (NodeIntact(w, c, inBranch, applied[i], row) <==> NodeIntact(visible, c, inBranch, children[i], row))
    {
      AppliedAt(permissions, children, i);
      CoveredAt(permissions, children, i);
      SortsFilledAt(children, i);
      SortsFilledAt(applied, i);
      ShapeKept(permissions, children, i);
      TakenKept(permissions, children, i);
      if children[i].IsNested() {
        NodeIntactUpdated(w, permissions, c, inBranch, children[i], row);
      }
      if FieldTaken(children, i) {
        TakenIsM2O(children, i);
        RelatedUpdated(w, permissions, children[i]);
      }
    }
  }

  lemma TakenIsM2O(children: seq<Node>, i: nat)
    requires i < |children| && FieldTaken(children, i)
    ensures children[i].M2O?
  {
  }

  lemma RelatedUpdated(w: World, permissions: seq<Permission>, node: Node)
    requires node.M2O? && NodeCovered(permissions, node)
    ensures var applied := ApplyToNode(permissions, node);
            && applied.M2O? && applied.field == node.field && applied.related == node.related
            && forall v :: RelatedRow(w, applied.related, applied.query, v)
                           == RelatedRow(Restrict(w, permissions), node.related, node.query, v)
  {
    hide RelatedRow;
    MatchingUpdated(w, permissions, node.related, node.query);
  }

  lemma {:induction false} NodeIntactUpdated(w: World, permissions: seq<Permission>, c: string, inBranch: bool, node: Node, row: Row)
    requires SortFilled(node) && node.IsNested() && NodeCovered(permissions, node)
    requires SortFilled(ApplyToNode(permissions, node))
    ensures NodeIntact(w, c, inBranch, ApplyToNode(permissions, node), row)
            <==> NodeIntact(Restrict(w, permissions), c, inBranch, node, row)
    decreases node, 2
  {
    hide LinkedRows, RelatedRow, WayBackShows, Intact, BranchFor;
    var visible := Restrict(w, permissions);
    match node {
      case M2O(_, field, related, children, query) =>
        MatchingUpdated(w, permissions, related, query);
        var r := RelatedRow(visible, related, query, Cell(row, field));
        if r.Some? {
          IntactUpdated(w, permissions, related, false, children, r.value);
        }
      case O2M(_, _, related, _, children, _) =>
        O2MIntactUpdated(w, permissions, c, inBranch, node, row);
      case A2O(_, _, _, _) =>
        A2OIntactUpdated(w, permissions, c, inBranch, node, row);
    }
  }

  lemma {:induction false} A2OIntactUpdated(w: World, permissions: seq<Permission>, c: string, inBranch: bool, node: Node, row: Row)
    requires node.A2O? && SortFilled(node) && NodeCovered(permissions, node)
    requires SortFilled(ApplyToNode(permissions, node))
    ensures NodeIntact(w, c, inBranch, ApplyToNode(permissions, node), row)
            <==> NodeIntact(Restrict(w, permissions), c, inBranch, node, row)
    decreases node, 1
  {
    hide RelatedRow, Intact, BranchFor;
    var visible := Restrict(w, permissions);
    var v := Cell(row, node.collectionField);
    BranchUpdated(permissions, node.branches, v);
    var b := BranchFor(node.branches, v);
    if b.Some? {
      MatchingUpdated(w, permissions, b.value.collection, b.value.query);
      SortsKept(permissions, b.value.children);
      var r := RelatedRow(visible, b.value.collection, b.value.query, Cell(row, node.field));
      if r.Some? {
        IntactUpdated(w, permissions, b.value.collection, true, b.value.children, r.value);
      }
    }
  }

  lemma {:induction false} O2MIntactUpdated(w: World, permissions: seq<Permission>, c: string, inBranch: bool, node: Node, row: Row)
    requires node.O2M? && SortFilled(node) && NodeCovered(permissions, node)
    requires SortFilled(ApplyToNode(permissions, node))
    ensures NodeIntact(w, c, inBranch, ApplyToNode(permissions, node), row)
            <==> NodeIntact(Restrict(w, permissions), c, inBranch, node, row)
    decreases node, 1
  {
    hide LinkedRows, WayBackShows, Intact;
    var visible := Restrict(w, permissions);
    var key := Cell(row, w.Primary(c));
    LinkedUpdated(w, permissions, node, key);
    WayBackUpdated(w, permissions, node, key);
    var linked := LinkedRows(visible, node, key);
    forall i | 0 <= i < |linked|
      ensures Intact(w, node.related, false, ApplyFilters(permissions, node.children), linked[i])
              <==> Intact(visible, node.related, false, node.children, linked[i])
    {
      IntactUpdated(w, permissions, node.related, false, node.children, linked[i]);
    }
  }

  lemma AllIntactUpdated(w: World, permissions: seq<Permission>, ast: Ast)
    requires SortsFilled(ast.children) && Find(permissions, ast.name).Some? && Covered(permissions, ast.children)
    requires SortsFilled(ApplyToAst(permissions, ast).children)
    ensures AllIntact(w, ApplyToAst(permissions, ast)) <==> AllIntact(Restrict(w, permissions), ast)
  {
    hide Intact, Fetch;
    MatchingUpdated(w, permissions, ast.name, ast.query);
    var rows := Fetch(Restrict(w, permissions), ast.name, ast.query);
    forall i | 0 <= i < |rows|
      ensures Intact(w, ast.name, false, ApplyFilters(permissions, ast.children), rows[i])
              <==> Intact(Restrict(w, permissions), ast.name, false, ast.children, rows[i])
    {
      IntactUpdated(w, permissions, ast.name, false, ast.children, rows[i]);
    }
  }

  // ----- the read -----

  /** A read on behalf of someone with permissions: it is refused unless everything it reads is
      permitted, and otherwise it is the nested join over the rows the permissions let through, exactly
      when all of them are intact there.  The tree has to be good only as rewritten: no filter of it
      then has a clause of its own. */
  method ReadByQuery(w: World, permissions: seq<Permission>, filtersPermitted: bool, batchSize: nat, ast: Ast)
    returns (r: Result<seq<Value>, Failure>)
    requires batchSize > 0 && Sound(w)
    requires SortsFilled(ast.children) && Good(w, ast.name, ApplyFilters(permissions, ast.children), {})
    ensures r.Ok? <==> filtersPermitted && Permitted(permissions, ast)
    ensures r.Ok? ==> (r.value == Join(Restrict(w, permissions), ast) <==> AllIntact(Restrict(w, permissions), ast))
    ensures r.Ok? ==> CountsShown(Restrict(w, permissions), ast, r.value)
    ensures r.Ok? ==> SortsFilled(ApplyToAst(permissions, ast).children) && r.value == Answer(w, ApplyToAst(permissions, ast))
  {
    hide Answer, CountsShown;
    var processed := ProcessAst(permissions, filtersPermitted, ast);
    if processed.Err? {
      return Err(processed.failure);
    }
    PermittedIsCovered(permissions, ast);
    SortsKept(permissions, ast.children);
    PermissionsRestrictTheDatabase(w, permissions, ast);
    AllIntactUpdated(w, permissions, ast);
    var items := RunAst.RunAst(w, batchSize, processed.value);
    r := Ok(items);
    VisibleCounts(w, permissions, ast, items);
  }

  lemma VisibleCounts(w: World, permissions: seq<Permission>, ast: Ast, items: seq<Value>)
    requires Find(permissions, ast.name).Some? && Covered(permissions, ast.children)
    requires CountsShown(w, ApplyToAst(permissions, ast), items)
    ensures CountsShown(Restrict(w, permissions), ast, items)
  {
    hide ShowsCount, Fetch, ApplyFilters, ApplyToNode;
    MatchingUpdated(w, permissions, ast.name, ast.query);
    forall i, k | 0 <= i < |items| && 0 <= k < |ast.children| && ast.children[k].Count?
      ensures ShowsCount(Restrict(w, permissions), ast.name, ast.children[k],
                         Fetch(Restrict(w, permissions), ast.name, ast.query)[i], items[i])
    {
      var row := Fetch(Restrict(w, permissions), ast.name, ast.query)[i];
      AppliedAt(permissions, ast.children, k);
      CoveredAt(permissions, ast.children, k);
      StillCount(permissions, ast.children[k]);
      VisibleCount(w, permissions, ast.name, ast.children[k], row, items[i]);
    }
  }

  lemma StillCount(permissions: seq<Permission>, node: Node)
    requires node.Count?
    ensures ApplyToNode(permissions, node).Count?
  {
  }

  /** What counts with the filter of a permission counts the visible rows. */
  lemma VisibleCount(w: World, permissions: seq<Permission>, c: string, node: Node, row: Row, v: Value)
    requires node.Count? && NodeCovered(permissions, node)
    requires ShowsCount(w, c, ApplyToNode(permissions, node), row, v)
    ensures ShowsCount(Restrict(w, permissions), c, node, row, v)
  {
    hide Pointing;
    CountUpdated(w, permissions, c, node, row);
    CountIsPointing(w, c, ApplyToNode(permissions, node), row);
    CountIsPointing(Restrict(w, permissions), c, node, row);
  }

  /** Hiding rows keeps a database sound. */
  lemma VisibleIsSound(w: World, permissions: seq<Permission>)
    requires Sound(w)
    ensures Sound(Restrict(w, permissions))
  {
    var visible := Restrict(w, permissions);
    forall c: string ensures forall r :: r in visible.Table(c) ==> r in w.Table(c) {
      VisibleRows(w, permissions, c);
    }
    forall c: string ensures Windows.Distinct(visible.Table(c), w.Primary(c)) {
      VisibleDistinct(w, permissions, c);
    }
    hide Restrict;
    forall c: string, i: nat | i < |visible.Table(c)| ensures visible.Table(c)[i] in w.Table(c) {
      assert visible.Table(c)[i] in visible.Table(c);
    }
    forall c: string, i: nat | i < |visible.Table(c)| ensures Cell(visible.Table(c)[i], w.Primary(c)) != Null {
      var j: nat :| j < |w.Table(c)| && w.Table(c)[j] == visible.Table(c)[i];
    }
    forall c: string, i: nat, column: string | i < |visible.Table(c)|
      ensures !Cell(visible.Table(c)[i], column).Obj? && !Cell(visible.Table(c)[i], column).Arr?
    {
      var j: nat :| j < |w.Table(c)| && w.Table(c)[j] == visible.Table(c)[i];
    }
  }

  lemma VisibleRows(w: World, permissions: seq<Permission>, c: string)
    ensures forall r :: r in Restrict(w, permissions).Table(c) ==> r in w.Table(c)
  {
    KeepMembers(w.Table(c), Passes(FilterFor(permissions, c)));
  }

  lemma VisibleDistinct(w: World, permissions: seq<Permission>, c: string)
    requires Sound(w)
    ensures Windows.Distinct(Restrict(w, permissions).Table(c), w.Primary(c))
  {
    Windows.KeepDistinct(w.Table(c), w.Primary(c), Passes(FilterFor(permissions, c)));
  }

  /** What a permitted read of a plain tree returns is the nested join over the visible rows. */
  lemma PlainReadsAreIntact(w: World, permissions: seq<Permission>, ast: Ast)
    requires Sound(w) && SortsFilled(ast.children)
    requires PlainTrees.Plain(Restrict(w, permissions), ast.name, false, ast.children)
    ensures AllIntact(Restrict(w, permissions), ast)
  {
    VisibleIsSound(w, permissions);
    PlainTrees.PlainReads(Restrict(w, permissions), ast);
  }

  /** The same rows are seen by everyone who may see them: outside the visible part, the database
      does not matter. */
  lemma NothingHiddenIsSeen(w: World, w': World, permissions: seq<Permission>, ast: Ast)
    requires SortsFilled(ast.children) && Permitted(permissions, ast)
    requires Restrict(w, permissions) == Restrict(w', permissions)
    ensures SortsFilled(ApplyToAst(permissions, ast).children)
    ensures Join(w, ApplyToAst(permissions, ast)) == Join(w', ApplyToAst(permissions, ast))
  {
    PermittedIsCovered(permissions, ast);
    PermissionsRestrictTheDatabase(w, permissions, ast);
    PermissionsRestrictTheDatabase(w', permissions, ast);
  }
}
