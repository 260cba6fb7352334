/**
 The checks of `processAST`, by recursion as the code makes them: each is what it should be at every place of the tree.
 */
module PermissionCheck {
  import opened Rows
  import opened Wrappers
  import opened QueryModel
  import opened Authorization
  import opened Occurrences

  // ----- the collections of a tree -----

  /** The collections below a level.  A count in a branch of a many-to-any node is passed over. */
  function CollectionsBelow(inBranch: bool, children: seq<Node>): seq<string>
    decreases children, 0
  {
    if children == [] then []
    else CollectionsBelow(inBranch, children[..|children| - 1]) + CollectionsOf(inBranch, children[|children| - 1])
  }

  function CollectionsOf(inBranch: bool, node: Node): seq<string>
    decreases node, 1
  {
    match node
    case Field(_, _) => []
    case Count(_, related, _, _) => if inBranch then [] else [related]
    case M2O(_, _, related, children, _) => [related] + CollectionsBelow(false, children)
    case O2M(_, _, related, _, children, _) => [related] + CollectionsBelow(false, children)
    case A2O(_, _, _, branches) => Names(branches) + CollectionsInBranches(branches)
  }

  function Names(branches: seq<Branch>): (r: seq<string>)
    ensures |r| == |branches|
    ensures forall i :: 0 <= i < |r| ==> r[i] == branches[i].collection
  {
    if branches == [] then [] else [branches[0].collection] + Names(branches[1..])
  }

  function CollectionsInBranches(branches: seq<Branch>): seq<string>
    decreases branches, 0
  {
    if branches == [] then []
    else CollectionsBelow(true, branches[0].children) + CollectionsInBranches(branches[1..])
  }

  function CollectionsOfAst(ast: Ast): seq<string> {
    [ast.name] + CollectionsBelow(false, ast.children)
  }

  // ----- the check by counting -----

  ghost predicate Distinct(names: seq<string>) {
    forall i, j :: 0 <= i < j < |names| ==> names[i] != names[j]
  }

  function Unique(names: seq<string>): (r: seq<string>)
    ensures Distinct(r) && forall n :: n in r <==> n in names
  {
    if names == [] then []
    else
      var before := Unique(names[..|names| - 1]);
      assert names == names[..|names| - 1] + [names[|names| - 1]];
      if names[|names| - 1] in before then before else before + [names[|names| - 1]]
  }

  /** The first permission of each collection. */
  function UniqueFor(permissions: seq<Permission>): seq<Permission> {
    if permissions == [] then []
    else
      var last := permissions[|permissions| - 1];
      var before := UniqueFor(permissions[..|permissions| - 1]);
      if last.collection in Collections(before) then before else before + [last]
  }

  function Collections(permissions: seq<Permission>): (r: seq<string>)
    ensures |r| == |permissions|
    ensures forall i :: 0 <= i < |r| ==> r[i] == permissions[i].collection
  {
    if permissions == [] then [] else [permissions[0].collection] + Collections(permissions[1..])
  }

  lemma CollectionsAppend(permissions: seq<Permission>, p: Permission)
    ensures Collections(permissions + [p]) == Collections(permissions) + [p.collection]
  {
  }

  lemma {:induction false} UniqueForKeepsFirsts(permissions: seq<Permission>)
    ensures var r := Collections(UniqueFor(permissions));
            Distinct(r) && forall n :: n in r <==> n in Collections(permissions)
  {
    if permissions != [] {
      var front, last := permissions[..|permissions| - 1], permissions[|permissions| - 1];
      UniqueForKeepsFirsts(front);
      var before := UniqueFor(front);
      assert permissions == front + [last];
      CollectionsAppend(front, last);
      CollectionsAppend(before, last);
      hide Collections, UniqueFor;
    }
  }

  function Concerns(names: seq<string>): Permission -> bool {
    (p: Permission) => p.collection in names
  }

  function PermissionsFor(permissions: seq<Permission>, names: seq<string>): seq<Permission> {
    UniqueFor(Keep(permissions, Concerns(names)))
  }

  lemma {:induction false} FindFinds(permissions: seq<Permission>, c: string)
    ensures Find(permissions, c).Some? <==> exists p :: p in permissions && p.collection == c
    ensures Find(permissions, c).Some? ==> Find(permissions, c).value in permissions
                                           && Find(permissions, c).value.collection == c
  {
    if permissions != [] {
      FindFinds(permissions[1..], c);
    }
  }

  /** A sequence without repetitions is as long as its set of members. */
  lemma {:induction false} LengthOfDistinct(s: seq<string>)
    requires Distinct(s)
    ensures |s| == |set x | x in s|
  {
    if s == [] {
      assert (set x | x in s) == {};
    } else {
      var front, last := s[..|s| - 1], s[|s| - 1];
      LengthOfDistinct(front);
      assert s == front + [last];
      assert (set x | x in s) == (set x | x in front) + {last};
    }
  }

  lemma SubsetOfSameSize(a: set<string>, b: set<string>)
    requires a <= b && |a| == |b|
    ensures a == b
  {
    if x :| x in b && x !in a {
      SmallerThan(a, b - {x});
    }
  }

  lemma {:induction false} SmallerThan(a: set<string>, b: set<string>)
    requires a <= b
    ensures |a| <= |b|
  {
    if x :| x in a {
      SmallerThan(a - {x}, b - {x});
    }
  }

  /** Comparing the two counts is asking whether every collection has a permission. */
  lemma CountsAgreeIff(permissions: seq<Permission>, names: seq<string>)
    ensures |Unique(names)| == |PermissionsFor(permissions, names)|
            <==> forall n :: n in names ==> Find(permissions, n).Some?
  {
    hide Find;
    var kept := Keep(permissions, Concerns(names));
    var found := Collections(UniqueFor(kept));
    UniqueForKeepsFirsts(kept);
    LengthOfDistinct(Unique(names));
    LengthOfDistinct(found);
    forall n ensures n in found <==> n in names && Find(permissions, n).Some? {
      FindFinds(permissions, n);
      PermittedIff(permissions, names, n);
    }
    SameSizeIff(found, Unique(names));
  }

  lemma SameSizeIff(a: seq<string>, b: seq<string>)
    requires forall n :: n in a ==> n in b
    requires |a| == |set n | n in a| && |b| == |set n | n in b|
    ensures |a| == |b| <==> forall n :: n in b ==> n in a
  {
    var x, y := set n | n in a, set n | n in b;
    if forall n :: n in b ==> n in a {
      assert x == y;
    }
    if |a| == |b| {
      SubsetOfSameSize(x, y);
      forall n | n in b ensures n in a {
        assert n in y;
      }
    }
  }

  lemma PermittedIff(permissions: seq<Permission>, names: seq<string>, n: string)
    ensures n in Collections(PermissionsFor(permissions, names))
            <==> n in names && exists p :: p in permissions && p.collection == n
  {
    hide UniqueFor, Keep;
    var kept := Keep(permissions, Concerns(names));
    KeepMembers(permissions, Concerns(names));
    UniqueForKeepsFirsts(kept);
    if n in Collections(kept) {
      var i :| 0 <= i < |kept| && kept[i].collection == n;
      assert kept[i] in kept;
    }
    if p :| p in permissions && p.collection == n && n in names {
      assert Concerns(names)(p);
      var i :| 0 <= i < |kept| && kept[i] == p;
      assert Collections(kept)[i] == n;
    }
  }

  // ----- the columns -----

  predicate FieldsAllowed(permissions: seq<Permission>, c: string, children: seq<Node>)
    decreases children, 0
  {
    children == [] || (FieldsAllowed(permissions, c, children[..|children| - 1])
                       && NodeAllowed(permissions, c, children[|children| - 1]))
  }

  /** A column must be among the fields of its collection's permission; a count is not looked at. */
  predicate NodeAllowed(permissions: seq<Permission>, c: string, node: Node)
    decreases node, 1
  {
    match node
    case Field(name, _) =>
      var p := Find(permissions, c);
      p.Some? && (p.value.allFields || name in p.value.fields)
    case Count(_, _, _, _) => true
    case M2O(_, _, related, children, _) => FieldsAllowed(permissions, related, children)
    case O2M(_, _, related, _, children, _) => FieldsAllowed(permissions, related, children)
    case A2O(_, _, _, branches) =>
      forall i :: 0 <= i < |branches| ==> FieldsAllowed(permissions, branches[i].collection, branches[i].children)
  }

  // ----- coverage -----

  predicate AllFound(permissions: seq<Permission>, names: seq<string>) {
    forall n :: n in names ==> Find(permissions, n).Some?
  }

  /** The counts in many-to-any branches, which the collections of a tree leave out. */
  predicate BranchCountsCovered(permissions: seq<Permission>, inBranch: bool, children: seq<Node>)
    decreases children, 0
  {
    children == [] || (BranchCountsCovered(permissions, inBranch, children[..|children| - 1])
                       && NodeCountsCovered(permissions, inBranch, children[|children| - 1]))
  }

  predicate NodeCountsCovered(permissions: seq<Permission>, inBranch: bool, node: Node)
    decreases node, 1
  {
    match node
    case Field(_, _) => true
    case Count(_, related, _, _) => inBranch ==> Find(permissions, related).Some?
    case M2O(_, _, _, children, _) => BranchCountsCovered(permissions, false, children)
    case O2M(_, _, _, _, children, _) => BranchCountsCovered(permissions, false, children)
    case A2O(_, _, _, branches) =>
      forall i :: 0 <= i < |branches| ==> BranchCountsCovered(permissions, true, branches[i].children)
  }

  lemma FoundAppend(permissions: seq<Permission>, a: seq<string>, b: seq<string>)
    ensures AllFound(permissions, a + b) <==> AllFound(permissions, a) && AllFound(permissions, b)
  {
    forall n ensures n in a + b <==> n in a || n in b { }
  }

  /** The collected collections and the counts in branches are all that a covered tree needs. */
  lemma {:induction false} CoveredIff(permissions: seq<Permission>, inBranch: bool, children: seq<Node>)
    ensures Covered(permissions, children)
            <==> AllFound(permissions, CollectionsBelow(inBranch, children)) && BranchCountsCovered(permissions, inBranch, children)
    decreases children, 0
  {
    if children != [] {
      var front, last := children[..|children| - 1], children[|children| - 1];
      CoveredIff(permissions, inBranch, front);
      NodeCoveredIff(permissions, inBranch, last);
      FoundAppend(permissions, CollectionsBelow(inBranch, front), CollectionsOf(inBranch, last));
    }
  }

  lemma {:induction false} NodeCoveredIff(permissions: seq<Permission>, inBranch: bool, node: Node)
    ensures NodeCovered(permissions, node)
            <==> AllFound(permissions, CollectionsOf(inBranch, node)) && NodeCountsCovered(permissions, inBranch, node)
    decreases node, 1
  {
    match node {
      case Field(_, _) =>
      case Count(_, related, _, _) =>
        FindOne(permissions, related);
      case M2O(_, _, related, children, _) =>
        CoveredIff(permissions, false, children);
        FindOne(permissions, related);
        FoundAppend(permissions, [related], CollectionsBelow(false, children));
      case O2M(_, _, related, _, children, _) =>
        CoveredIff(permissions, false, children);
        FindOne(permissions, related);
        FoundAppend(permissions, [related], CollectionsBelow(false, children));
      case A2O(_, _, _, branches) =>
        FoundAppend(permissions, Names(branches), CollectionsInBranches(branches));
        BranchesCoveredIff(permissions, branches);
        NamesFound(permissions, branches);
    }
  }

  lemma FindOne(permissions: seq<Permission>, c: string)
    ensures AllFound(permissions, [c]) <==> Find(permissions, c).Some?
  {
    assert c in [c];
  }

  lemma NamesFound(permissions: seq<Permission>, branches: seq<Branch>)
    ensures AllFound(permissions, Names(branches))
            <==> forall i :: 0 <= i < |branches| ==> Find(permissions, branches[i].collection).Some?
  {
    if AllFound(permissions, Names(branches)) {
      forall i | 0 <= i < |branches| ensures Find(permissions, branches[i].collection).Some? {
        assert Names(branches)[i] in Names(branches);
      }
    }
  }

  ghost predicate BranchesCovered(permissions: seq<Permission>, branches: seq<Branch>) {
    forall i :: 0 <= i < |branches| ==> Covered(permissions, branches[i].children)
  }

  ghost predicate BranchesCounted(permissions: seq<Permission>, branches: seq<Branch>) {
    forall i :: 0 <= i < |branches| ==> BranchCountsCovered(permissions, true, branches[i].children)
  }

  lemma {:induction false} BranchesCoveredIff(permissions: seq<Permission>, branches: seq<Branch>)
    ensures BranchesCovered(permissions, branches)
            <==> AllFound(permissions, CollectionsInBranches(branches)) && BranchesCounted(permissions, branches)
    decreases branches, 0
  {
    if branches != [] {
      var tail := branches[1..];
      CoveredIff(permissions, true, branches[0].children);
      BranchesCoveredIff(permissions, tail);
      FoundAppend(permissions, CollectionsBelow(true, branches[0].children), CollectionsInBranches(tail));
      assert BranchesCovered(permissions, branches)
        <==> Covered(permissions, branches[0].children) && BranchesCovered(permissions, tail) by {
        forall i | 0 < i < |branches| ensures branches[i] == tail[i - 1] { }
      }
      assert BranchesCounted(permissions, branches)
        <==> BranchCountsCovered(permissions, true, branches[0].children) && BranchesCounted(permissions, tail) by {
        forall i | 0 < i < |branches| ensures branches[i] == tail[i - 1] { }
      }
    }
  }

  // ----- at every place of the tree -----

  ghost function ColumnsAllowed(permissions: seq<Permission>): Level -> bool {
    (level: Level) => forall i :: 0 <= i < |level.children| && level.children[i].Field? ==>
      AllowsColumn(permissions, level.collection, level.children[i].name)
  }

  /** The collection of a level has a permission, and so has what its counts count, outside branches. */
  ghost function LevelFound(permissions: seq<Permission>): Level -> bool {
    (level: Level) => HasPermission(permissions, level.collection)
                      && (!level.inBranch ==> CountsFound(permissions, level))
  }

  ghost function BranchCountsFound(permissions: seq<Permission>): Level -> bool {
    (level: Level) => level.inBranch ==> CountsFound(permissions, level)
  }

  ghost predicate CountsFound(permissions: seq<Permission>, level: Level) {
    forall i :: 0 <= i < |level.children| && level.children[i].Count? ==>
      HasPermission(permissions, level.children[i].related)
  }

  /** The same everywhere below a child. */
  ghost predicate BelowChild(level: Level, i: nat, p: Level -> bool) {
    forall b: nat :: Below(level, (i, b)).Some? ==> Everywhere(Below(level, (i, b)).value, p)
  }

  lemma EverywhereByChild(level: Level, p: Level -> bool)
    ensures Everywhere(level, p)
            <==> p(level) && forall i :: 0 <= i < |level.children| ==> BelowChild(level, i, p)
  {
    hide Everywhere;
    EverywhereIff(level, p);
    if p(level) && forall i :: 0 <= i < |level.children| ==> BelowChild(level, i, p) {
      forall step: Step | Below(level, step).Some? ensures Everywhere(Below(level, step).value, p) {
        assert BelowChild(level, step.0, p);
        assert step == (step.0, step.1);
      }
    }
  }

  lemma BelowOne(level: Level, i: nat, p: Level -> bool)
    requires i < |level.children|
    ensures var node := level.children[i];
            && (node.IsColumn() ==> BelowChild(level, i, p))
            && (node.M2O? || node.O2M? ==>
                  (BelowChild(level, i, p) <==> Everywhere(Level(node.related, false, node.children), p)))
            && (node.A2O? ==>
                  (BelowChild(level, i, p) <==>
                   forall b :: 0 <= b < |node.branches| ==>
                     Everywhere(Level(node.branches[b].collection, true, node.branches[b].children), p)))
  {
    hide Everywhere;
    var node := level.children[i];
    if node.M2O? || node.O2M? {
      assert Below(level, (i, 0)) == Some(Level(node.related, false, node.children));
    } else if node.A2O? {
      forall b: nat | b < |node.branches|
        ensures Below(level, (i, b)) == Some(Level(node.branches[b].collection, true, node.branches[b].children))
      {
      }
    }
  }

  lemma {:induction false} FieldsAllowedEach(permissions: seq<Permission>, c: string, children: seq<Node>)
    ensures FieldsAllowed(permissions, c, children)
            <==> forall i :: 0 <= i < |children| ==> NodeAllowed(permissions, c, children[i])
  {
    hide NodeAllowed;
    if children != [] {
      FieldsAllowedEach(permissions, c, children[..|children| - 1]);
    }
  }

  /** The check of the columns passes exactly when every column read anywhere is allowed. */
  lemma {:induction false} FieldsAllowedIff(permissions: seq<Permission>, c: string, inBranch: bool, children: seq<Node>)
    ensures FieldsAllowed(permissions, c, children)
            <==> Everywhere(Level(c, inBranch, children), ColumnsAllowed(permissions))
    decreases children, 0
  {
    hide NodeAllowed, Everywhere, BelowChild, FieldsAllowed, AllowsColumn;
    var level, p := Level(c, inBranch, children), ColumnsAllowed(permissions);
    FieldsAllowedEach(permissions, c, children);
    forall i | 0 <= i < |children|
      ensures NodeAllowed(permissions, c, children[i])
              <==> (children[i].Field? ==> AllowsColumn(permissions, c, children[i].name)) && BelowChild(level, i, p)
    {
      NodeAllowedIff(permissions, level, i);
    }
    EverywhereByChild(level, p);
  }

  lemma {:induction false} NodeAllowedIff(permissions: seq<Permission>, level: Level, i: nat)
    requires i < |level.children|
    ensures var node := level.children[i];
            NodeAllowed(permissions, level.collection, node)
            <==> (node.Field? ==> AllowsColumn(permissions, level.collection, node.name))
                 && BelowChild(level, i, ColumnsAllowed(permissions))
    decreases level.children[i], 1
  {
    hide FieldsAllowed, Everywhere, BelowChild, AllowsColumn;
    var node, p := level.children[i], ColumnsAllowed(permissions);
    BelowOne(level, i, p);
    match node {
      case Field(name, _) => AllowedIff(permissions, level.collection, name);
      case Count(_, _, _, _) =>
      case M2O(_, _, related, children, _) => FieldsAllowedIff(permissions, related, false, children);
      case O2M(_, _, related, _, children, _) => FieldsAllowedIff(permissions, related, false, children);
      case A2O(_, _, _, branches) =>
        forall b | 0 <= b < |branches|
          ensures FieldsAllowed(permissions, branches[b].collection, branches[b].children)
                  <==> Everywhere(Level(branches[b].collection, true, branches[b].children), p)
        {
          FieldsAllowedIff(permissions, branches[b].collection, true, branches[b].children);
        }
    }
  }

  lemma {:induction false} FoundEach(permissions: seq<Permission>, inBranch: bool, children: seq<Node>)
    ensures AllFound(permissions, CollectionsBelow(inBranch, children))
            <==> forall i :: 0 <= i < |children| ==> AllFound(permissions, CollectionsOf(inBranch, children[i]))
  {
    hide AllFound, CollectionsOf;
    if children == [] {
      assert AllFound(permissions, []) by { NothingToFind(permissions); }
    } else {
      var front, last := children[..|children| - 1], children[|children| - 1];
      FoundEach(permissions, inBranch, front);
      FoundAppend(permissions, CollectionsBelow(inBranch, front), CollectionsOf(inBranch, last));
    }
  }

  lemma NothingToFind(permissions: seq<Permission>)
    ensures AllFound(permissions, [])
  {
  }

  /** The collections collected all have a permission exactly when those of all levels have one, and
      those counted at the levels outside branches. */
  lemma {:induction false} FoundIff(permissions: seq<Permission>, c: string, inBranch: bool, children: seq<Node>)
    ensures HasPermission(permissions, c) && AllFound(permissions, CollectionsBelow(inBranch, children))
            <==> Everywhere(Level(c, inBranch, children), LevelFound(permissions))
    decreases children, 0
  {
    hide AllFound, CollectionsOf, CollectionsBelow, Everywhere, BelowChild, HasPermission;
    var level, p := Level(c, inBranch, children), LevelFound(permissions);
    FoundEach(permissions, inBranch, children);
    forall i | 0 <= i < |children|
      ensures AllFound(permissions, CollectionsOf(inBranch, children[i]))
              <==> (children[i].Count? && !inBranch ==> HasPermission(permissions, children[i].related))
                   && BelowChild(level, i, p)
    {
      NodeFoundIff(permissions, level, i);
    }
    EverywhereByChild(level, p);
  }

  lemma {:induction false} NodeFoundIff(permissions: seq<Permission>, level: Level, i: nat)
    requires i < |level.children|
    ensures var node := level.children[i];
            AllFound(permissions, CollectionsOf(level.inBranch, node))
            <==> (node.Count? && !level.inBranch ==> HasPermission(permissions, node.related))
                 && BelowChild(level, i, LevelFound(permissions))
    decreases level.children[i], 1
  {
    hide AllFound, CollectionsBelow, CollectionsInBranches, Everywhere, BelowChild, HasPermission, LevelFound, Find;
    var node, p := level.children[i], LevelFound(permissions);
    BelowOne(level, i, p);
    NothingToFind(permissions);
    match node {
      case Field(_, _) =>
      case Count(_, related, _, _) =>
        OneFoundIff(permissions, related);
      case M2O(_, _, related, children, _) =>
        RelatedFoundIff(permissions, related, children);
      case O2M(_, _, related, _, children, _) =>
        RelatedFoundIff(permissions, related, children);
      case A2O(_, _, _, branches) =>
        FoundAppend(permissions, Names(branches), CollectionsInBranches(branches));
        BranchesFoundIff(permissions, branches);
    }
  }

  lemma OneFoundIff(permissions: seq<Permission>, c: string)
    ensures AllFound(permissions, [c]) <==> HasPermission(permissions, c)
  {
    FindOne(permissions, c);
    FindIsFirst(permissions, c);
  }

  lemma {:induction false} RelatedFoundIff(permissions: seq<Permission>, related: string, children: seq<Node>)
    ensures AllFound(permissions, [related] + CollectionsBelow(false, children))
            <==> Everywhere(Level(related, false, children), LevelFound(permissions))
    decreases children, 2
  {
    hide *;
    FoundAppend(permissions, [related], CollectionsBelow(false, children));
    OneFoundIff(permissions, related);
    FoundIff(permissions, related, false, children);
  }

  ghost predicate BranchesFound(permissions: seq<Permission>, branches: seq<Branch>) {
    forall b :: 0 <= b < |branches| ==>
      Everywhere(Level(branches[b].collection, true, branches[b].children), LevelFound(permissions))
  }

  lemma {:induction false} BranchesFoundIff(permissions: seq<Permission>, branches: seq<Branch>)
    ensures AllFound(permissions, Names(branches)) && AllFound(permissions, CollectionsInBranches(branches))
            <==> BranchesFound(permissions, branches)
    decreases branches, 0
  {
    hide AllFound, CollectionsBelow, Everywhere, HasPermission, LevelFound;
    NothingToFind(permissions);
    if branches != [] {
      var b, tail := branches[0], branches[1..];
      FoundIff(permissions, b.collection, true, b.children);
      BranchesFoundIff(permissions, tail);
      FoundAppend(permissions, [b.collection], Names(tail));
      OneFoundIff(permissions, b.collection);
      FoundAppend(permissions, CollectionsBelow(true, b.children), CollectionsInBranches(tail));
      assert BranchesFound(permissions, branches)
        <==> Everywhere(Level(b.collection, true, b.children), LevelFound(permissions)) && BranchesFound(permissions, tail) by {
        forall i | 0 < i < |branches| ensures branches[i] == tail[i - 1] { }
      }
    }
  }

  lemma {:induction false} CountsCoveredEach(permissions: seq<Permission>, inBranch: bool, children: seq<Node>)
    ensures BranchCountsCovered(permissions, inBranch, children)
            <==> forall i :: 0 <= i < |children| ==> NodeCountsCovered(permissions, inBranch, children[i])
  {
    hide NodeCountsCovered;
    if children != [] {
      CountsCoveredEach(permissions, inBranch, children[..|children| - 1]);
    }
  }

  /** The counts in branches are covered exactly when what is counted there has a permission. */
  lemma {:induction false} BranchCountsIff(permissions: seq<Permission>, c: string, inBranch: bool, children: seq<Node>)
    ensures BranchCountsCovered(permissions, inBranch, children)
            <==> Everywhere(Level(c, inBranch, children), BranchCountsFound(permissions))
    decreases children, 0
  {
    hide NodeCountsCovered, Everywhere, BelowChild, BranchCountsCovered, HasPermission;
    var level, p := Level(c, inBranch, children), BranchCountsFound(permissions);
    CountsCoveredEach(permissions, inBranch, children);
    forall i | 0 <= i < |children|
      ensures NodeCountsCovered(permissions, inBranch, children[i])
              <==> (children[i].Count? && inBranch ==> HasPermission(permissions, children[i].related))
                   && BelowChild(level, i, p)
    {
      NodeCountsIff(permissions, level, i);
    }
    EverywhereByChild(level, p);
  }

  lemma {:induction false} NodeCountsIff(permissions: seq<Permission>, level: Level, i: nat)
    requires i < |level.children|
    ensures var node := level.children[i];
            NodeCountsCovered(permissions, level.inBranch, node)
            <==> (node.Count? && level.inBranch ==> HasPermission(permissions, node.related))
                 && BelowChild(level, i, BranchCountsFound(permissions))
    decreases level.children[i], 1
  {
    hide BranchCountsCovered, Everywhere, BelowChild, HasPermission;
    var node, p := level.children[i], BranchCountsFound(permissions);
    BelowOne(level, i, p);
    match node {
      case Field(_, _) =>
      case Count(_, related, _, _) => FindIsFirst(permissions, related);
      case M2O(_, _, related, children, _) => BranchCountsIff(permissions, related, false, children);
      case O2M(_, _, related, _, children, _) => BranchCountsIff(permissions, related, false, children);
      case A2O(_, _, _, branches) =>
        forall b | 0 <= b < |branches|
          ensures BranchCountsCovered(permissions, true, branches[b].children)
                  <==> Everywhere(Level(branches[b].collection, true, branches[b].children), p)
        {
          BranchCountsIff(permissions, branches[b].collection, true, branches[b].children);
        }
    }
  }

  // ----- what the checks come to -----

  /** Every collection that is collected has a permission. */
  ghost predicate CollectedPermitted(permissions: seq<Permission>, ast: Ast) {
    forall c :: HasLevel(ast, c) || CountsIn(ast, c, false) ==> HasPermission(permissions, c)
  }

  ghost predicate ColumnsPermitted(permissions: seq<Permission>, ast: Ast) {
    forall c, name :: ReadsColumn(ast, c, name) ==> AllowsColumn(permissions, c, name)
  }

  ghost predicate BranchCountsPermitted(permissions: seq<Permission>, ast: Ast) {
    forall c :: CountsIn(ast, c, true) ==> HasPermission(permissions, c)
  }

  lemma ColumnsPermittedIff(permissions: seq<Permission>, ast: Ast)
    ensures ColumnsPermitted(permissions, ast) <==> FieldsAllowed(permissions, ast.name, ast.children)
  {
    hide FieldsAllowed, AllowsColumn, LevelAt;
    var p := ColumnsAllowed(permissions);
    assert Root(ast) == Level(ast.name, false, ast.children);
    FieldsAllowedIff(permissions, ast.name, false, ast.children);
    if ColumnsPermitted(permissions, ast) {
      forall path: seq<Step> | LevelAt(Root(ast), path).Some?
        ensures p(LevelAt(Root(ast), path).value)
      {
        var level := LevelAt(Root(ast), path).value;
        forall i | 0 <= i < |level.children| && level.children[i].Field?
          ensures AllowsColumn(permissions, level.collection, level.children[i].name)
        {
          assert ReadsColumn(ast, level.collection, level.children[i].name);
        }
      }
      assert Everywhere(Root(ast), p);
    } else {
      var c, name :| ReadsColumn(ast, c, name) && !AllowsColumn(permissions, c, name);
      var path: seq<Step> :| LevelAt(Root(ast), path).Some?
        && LevelAt(Root(ast), path).value.collection == c && HasColumn(LevelAt(Root(ast), path).value, name);
      assert !p(LevelAt(Root(ast), path).value);
    }
  }

  lemma CollectedPermittedIff(permissions: seq<Permission>, ast: Ast)
    ensures CollectedPermitted(permissions, ast)
            <==> Find(permissions, ast.name).Some? && AllFound(permissions, CollectionsBelow(false, ast.children))
  {
    hide AllFound, CollectionsBelow, HasPermission, LevelAt, Find;
    var p := LevelFound(permissions);
    assert Root(ast) == Level(ast.name, false, ast.children);
    FoundIff(permissions, ast.name, false, ast.children);
    FindIsFirst(permissions, ast.name);
    if CollectedPermitted(permissions, ast) {
      forall path: seq<Step> | LevelAt(Root(ast), path).Some?
        ensures p(LevelAt(Root(ast), path).value)
      {
        var level := LevelAt(Root(ast), path).value;
        assert HasLevel(ast, level.collection);
        forall i | 0 <= i < |level.children| && level.children[i].Count? && !level.inBranch
          ensures HasPermission(permissions, level.children[i].related)
        {
          assert CountsIn(ast, level.children[i].related, false);
        }
      }
      assert Everywhere(Root(ast), p);
    } else {
      var c :| (HasLevel(ast, c) || CountsIn(ast, c, false)) && !HasPermission(permissions, c);
      if HasLevel(ast, c) {
        var path: seq<Step> :| LevelAt(Root(ast), path).Some? && LevelAt(Root(ast), path).value.collection == c;
        assert !p(LevelAt(Root(ast), path).value);
      } else {
        var path: seq<Step> :| LevelAt(Root(ast), path).Some?
          && !LevelAt(Root(ast), path).value.inBranch && CountsFrom(LevelAt(Root(ast), path).value, c);
        assert !p(LevelAt(Root(ast), path).value);
      }
    }
  }

  lemma BranchCountsPermittedIff(permissions: seq<Permission>, ast: Ast)
    ensures BranchCountsPermitted(permissions, ast) <==> BranchCountsCovered(permissions, false, ast.children)
  {
    hide BranchCountsCovered, HasPermission, LevelAt;
    var p := BranchCountsFound(permissions);
    assert Root(ast) == Level(ast.name, false, ast.children);
    BranchCountsIff(permissions, ast.name, false, ast.children);
    if BranchCountsPermitted(permissions, ast) {
      forall path: seq<Step> | LevelAt(Root(ast), path).Some?
        ensures p(LevelAt(Root(ast), path).value)
      {
        var level := LevelAt(Root(ast), path).value;
        forall i | 0 <= i < |level.children| && level.children[i].Count? && level.inBranch
          ensures HasPermission(permissions, level.children[i].related)
        {
          assert CountsIn(ast, level.children[i].related, true);
        }
      }
      assert Everywhere(Root(ast), p);
    } else {
      var c :| CountsIn(ast, c, true) && !HasPermission(permissions, c);
      var path: seq<Step> :| LevelAt(Root(ast), path).Some?
        && LevelAt(Root(ast), path).value.inBranch && CountsFrom(LevelAt(Root(ast), path).value, c);
      assert !p(LevelAt(Root(ast), path).value);
    }
  }
}
