/**
 What a query tree reads, place by place: a path of steps leads from the root to a level, and a level
 reads its collection, its columns and what its counts count.  Who may read it is said by the list of
 permissions, of which the first for a collection counts.
 */
module Occurrences {
  import opened QueryModel
  import opened Wrappers
  import opened Authorization

  /** A level of a tree; the children of a many-to-any branch stand in a branch. */
  datatype Level = Level(collection: string, inBranch: bool, children: seq<Node>)

  /** One step down: which child, and which of its branches if it is a many-to-any node. */
  type Step = (nat, nat)

  function Root(ast: Ast): Level {
    Level(ast.name, false, ast.children)
  }

  function Below(level: Level, step: Step): Option<Level> {
    if step.0 >= |level.children| then None
    else
      match level.children[step.0]
      case M2O(_, _, related, children, _) => Some(Level(related, false, children))
      case O2M(_, _, related, _, children, _) => Some(Level(related, false, children))
      case A2O(_, _, _, branches) =>
        if step.1 < |branches| then Some(Level(branches[step.1].collection, true, branches[step.1].children)) else None
      case _ => None
  }

  function LevelAt(level: Level, path: seq<Step>): Option<Level>
    decreases |path|
  {
    if path == [] then Some(level)
    else
      var next := Below(level, path[0]);
      if next.None? then None else LevelAt(next.value, path[1..])
  }

  // ----- what is read where -----

  ghost predicate CountsFrom(level: Level, c: string) {
    exists i :: 0 <= i < |level.children| && level.children[i].Count? && level.children[i].related == c
  }

  ghost predicate HasColumn(level: Level, name: string) {
    exists i :: 0 <= i < |level.children| && level.children[i].Field? && level.children[i].name == name
  }

  /** Somewhere the tree has a level of a collection. */
  ghost predicate HasLevel(ast: Ast, c: string) {
    exists path: seq<Step> :: LevelAt(Root(ast), path).Some? && LevelAt(Root(ast), path).value.collection == c
  }

  /** Somewhere the tree counts the rows of a collection, in a branch or outside. */
  ghost predicate CountsIn(ast: Ast, c: string, inBranch: bool) {
    exists path: seq<Step> :: LevelAt(Root(ast), path).Some?
      && LevelAt(Root(ast), path).value.inBranch == inBranch && CountsFrom(LevelAt(Root(ast), path).value, c)
  }

  ghost predicate ReadsCollection(ast: Ast, c: string) {
    HasLevel(ast, c) || CountsIn(ast, c, false) || CountsIn(ast, c, true)
  }

  /** Somewhere the tree reads a column of a collection. */
  ghost predicate ReadsColumn(ast: Ast, c: string, name: string) {
    exists path: seq<Step> :: LevelAt(Root(ast), path).Some?
      && LevelAt(Root(ast), path).value.collection == c && HasColumn(LevelAt(Root(ast), path).value, name)
  }

  // ----- who may read it -----

  ghost predicate HasPermission(permissions: seq<Permission>, c: string) {
    exists i :: 0 <= i < |permissions| && permissions[i].collection == c
  }

  /** Permission `i` is the one that counts for its collection. */
  ghost predicate IsFirst(permissions: seq<Permission>, i: int) {
    0 <= i < |permissions| && forall j :: 0 <= j < i ==> permissions[j].collection != permissions[i].collection
  }

  ghost predicate AllowsColumn(permissions: seq<Permission>, c: string, name: string) {
    exists i :: IsFirst(permissions, i) && permissions[i].collection == c
                && (permissions[i].allFields || name in permissions[i].fields)
  }

  /** The first of the rest is the first of all, if the one in front is for another collection. */
  lemma FirstOfRest(permissions: seq<Permission>, i: nat)
    requires permissions != [] && IsFirst(permissions[1..], i)
    requires permissions[0].collection != permissions[1..][i].collection
    ensures IsFirst(permissions, i + 1) && permissions[i + 1] == permissions[1..][i]
  {
    forall j | 0 <= j < i + 1 ensures permissions[j].collection != permissions[i + 1].collection {
      assert j > 0 ==> permissions[j] == permissions[1..][j - 1];
    }
  }

  lemma {:induction false} FindIsFirst(permissions: seq<Permission>, c: string)
    ensures Find(permissions, c).Some? <==> HasPermission(permissions, c)
    ensures Find(permissions, c).Some? ==>
              exists i :: IsFirst(permissions, i) && permissions[i].collection == c && permissions[i] == Find(permissions, c).value
  {
    if permissions != [] && permissions[0].collection != c {
      var rest := permissions[1..];
      FindIsFirst(rest, c);
      hide IsFirst;
      if i :| 0 <= i < |permissions| && permissions[i].collection == c {
        assert rest[i - 1].collection == c;
      }
      if Find(rest, c).Some? {
        var i :| IsFirst(rest, i) && rest[i].collection == c && rest[i] == Find(rest, c).value;
        FirstOfRest(permissions, i);
      }
    } else if permissions != [] {
      assert IsFirst(permissions, 0);
    }
  }

  lemma AllowedIff(permissions: seq<Permission>, c: string, name: string)
    ensures AllowsColumn(permissions, c, name)
            <==> Find(permissions, c).Some?
                 && (Find(permissions, c).value.allFields || name in Find(permissions, c).value.fields)
  {
    FindIsFirst(permissions, c);
    if AllowsColumn(permissions, c, name) {
      var i :| IsFirst(permissions, i) && permissions[i].collection == c
               && (permissions[i].allFields || name in permissions[i].fields);
      var k :| IsFirst(permissions, k) && permissions[k].collection == c && permissions[k] == Find(permissions, c).value;
      assert i == k;
    }
  }

  // ----- everywhere in a tree -----

  ghost predicate Everywhere(level: Level, p: Level -> bool) {
    forall path: seq<Step> :: LevelAt(level, path).Some? ==> p(LevelAt(level, path).value)
  }

  /** What holds everywhere holds here and everywhere below. */
  lemma EverywhereIff(level: Level, p: Level -> bool)
    ensures Everywhere(level, p)
            <==> p(level) && forall step: Step :: Below(level, step).Some? ==> Everywhere(Below(level, step).value, p)
  {
    if Everywhere(level, p) {
      assert LevelAt(level, []).value == level;
      forall step: Step | Below(level, step).Some? ensures Everywhere(Below(level, step).value, p) {
        forall path: seq<Step> | LevelAt(Below(level, step).value, path).Some?
          ensures p(LevelAt(Below(level, step).value, path).value)
        {
          assert ([step] + path)[1..] == path;
          assert LevelAt(level, [step] + path) == LevelAt(Below(level, step).value, path);
        }
      }
    }
    if p(level) && forall step: Step :: Below(level, step).Some? ==> Everywhere(Below(level, step).value, p) {
      forall path: seq<Step> | LevelAt(level, path).Some? ensures p(LevelAt(level, path).value) {
        if path != [] {
          assert Everywhere(Below(level, path[0]).value, p);
        }
      }
    }
  }
}
