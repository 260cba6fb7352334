/**
 Trees of which every row comes out as requested, whatever the database: no aliases in branches, no
 filters on the way back, no key taken or read under another name.
 */
module PlainTrees {
  import opened QueryModel
  import opened NestedJoin
  import opened Unstripped
  import opened Merging
  import opened Windows

  /** No node reads a foreign key that another has taken, parents are requested back without a filter,
      branches keep the names of their columns, and bare items have the primary key they are read by. */
  ghost predicate Plain(w: World, c: string, inBranch: bool, children: seq<Node>)
    decreases children, 0
  {
    && (inBranch ==> LeftKeys(w, c, true, children, {}) == RequestedKeys(w, c, children))
    && forall i :: 0 <= i < |children| ==> !FieldTaken(children, i) && NodePlain(w, c, inBranch, children[i])
  }

  ghost predicate NodePlain(w: World, c: string, inBranch: bool, node: Node)
    decreases node, 1
  {
    match node
    case M2O(_, _, related, children, _) =>
      if children == [] then inBranch ==> w.Primary(related) == w.Primary(c) else Plain(w, related, false, children)
    case O2M(_, _, related, _, children, _) =>
      && Plain(w, related, false, children)
      && forall i :: 0 <= i < |children| && IsWayBack(node, children[i]) ==>
           children[i].related == c && children[i].query.filter == ANYTHING
    case A2O(_, _, _, branches) =>
      forall i :: 0 <= i < |branches| ==>
        if branches[i].children == [] then w.Primary(branches[i].collection) == w.Primary(c)
        else Plain(w, branches[i].collection, true, branches[i].children)
    case _ => true
  }

  lemma {:induction false} PlainIsIntact(w: World, c: string, inBranch: bool, children: seq<Node>, row: Row)
    requires Sound(w) && SortsFilled(children) && Plain(w, c, inBranch, children) && row in w.Table(c)
    ensures Intact(w, c, inBranch, children, row)
    decreases children, 3
  {
    hide LeftKeys, RequestedKeys, NodeIntact, NodePlain, FieldTaken, Sound;
    forall i | 0 <= i < |children| && children[i].IsNested() && SortFilled(children[i])
      ensures NodeIntact(w, c, inBranch, children[i], row)
    {
      NodePlainIsIntact(w, c, inBranch, children[i], row);
    }
  }

  lemma {:induction false} NodePlainIsIntact(w: World, c: string, inBranch: bool, node: Node, row: Row)
    requires Sound(w) && SortFilled(node) && node.IsNested() && NodePlain(w, c, inBranch, node) && row in w.Table(c)
    ensures NodeIntact(w, c, inBranch, node, row)
    decreases node, 2
  {
    hide RelatedRow, LinkedRows, WayBackShows, Intact, Plain, BranchFor, Sound;
    match node {
      case M2O(_, field, related, children, query) =>
        var r := RelatedRow(w, related, query, Cell(row, field));
        if r.Some? && children != [] {
          RelatedRowIsRelated(w, related, query, Cell(row, field));
          PlainIsIntact(w, related, false, children, r.value);
        }
      case O2M(_, _, related, _, children, _) =>
        var key := Cell(row, w.Primary(c));
        var linked := LinkedRows(w, node, key);
        PlainWayBack(w, c, node, row);
        LinkedMembers(w, node, key);
        forall i | 0 <= i < |linked| ensures Intact(w, related, false, children, linked[i]) {
          assert linked[i] in linked;
          PlainIsIntact(w, related, false, children, linked[i]);
        }
      case A2O(_, field, collectionField, branches) =>
        var b := BranchFor(branches, Cell(row, collectionField));
        if b.Some? {
          var i :| 0 <= i < |branches| && branches[i] == b.value;
          var r := RelatedRow(w, b.value.collection, b.value.query, Cell(row, field));
          if r.Some? && b.value.children != [] {
            RelatedRowIsRelated(w, b.value.collection, b.value.query, Cell(row, field));
            PlainIsIntact(w, b.value.collection, true, b.value.children, r.value);
          }
        }
    }
  }

  lemma PlainWayBack(w: World, c: string, node: Node, row: Row)
    requires Sound(w) && node.O2M? && row in w.Table(c)
    requires forall i :: 0 <= i < |node.children| && IsWayBack(node, node.children[i]) ==>
               node.children[i].related == c && node.children[i].query.filter == ANYTHING
    ensures WayBackShows(w, node, Cell(row, w.Primary(c)))
  {
    forall i | 0 <= i < |node.children| && IsWayBack(node, node.children[i])
      ensures RelatedRow(w, node.children[i].related, node.children[i].query, Cell(row, w.Primary(c))).Some?
    {
      OwnRowIsRelatedIff(w, c, node.children[i].query, row);
      assert HoldsAll([], row);
    }
  }

  /** A plain tree comes out as the join has it. */
  lemma PlainReads(w: World, ast: Ast)
    requires Sound(w) && SortsFilled(ast.children) && Plain(w, ast.name, false, ast.children)
    ensures AllIntact(w, ast)
  {
    hide Intact, Plain, Fetch;
    FetchMembers(w, ast.name, ast.query);
    var rows := Fetch(w, ast.name, ast.query);
    forall i | 0 <= i < |rows| ensures Intact(w, ast.name, false, ast.children, rows[i]) {
      assert rows[i] in rows;
      PlainIsIntact(w, ast.name, false, ast.children, rows[i]);
    }
  }
}
