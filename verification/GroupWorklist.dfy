/**
 The collections a reader may list: those with a read permission and, so that the tree can be drawn,
 every group they are in.  The loop appends to the array it runs over.
 */
module GroupWorklist {

  /** The group of each collection; the empty string is none. */
  type Groups = map<string, string>

  function GroupOf(groups: Groups, c: string): string {
    if c in groups then groups[c] else ""
  }

  ghost predicate Closed(groups: Groups, s: set<string>) {
    forall c :: c in s && GroupOf(groups, c) != "" ==> GroupOf(groups, c) in s
  }

  /** `d` is `n` groups above `c`. */
  predicate IsAbove(groups: Groups, c: string, d: string, n: nat)
    decreases n
  {
    if n == 0 then c == d
    else GroupOf(groups, c) != "" && IsAbove(groups, GroupOf(groups, c), d, n - 1)
  }

  ghost predicate AboveSome(groups: Groups, readable: seq<string>, d: string) {
    exists c, n: nat :: c in readable && IsAbove(groups, c, d, n)
  }

  lemma {:induction false} OneMoreAbove(groups: Groups, c: string, d: string, n: nat)
    requires IsAbove(groups, c, d, n) && GroupOf(groups, d) != ""
    ensures IsAbove(groups, c, GroupOf(groups, d), n + 1)
    decreases n
  {
    if n > 0 {
      OneMoreAbove(groups, GroupOf(groups, c), d, n - 1);
    } else {
      assert IsAbove(groups, GroupOf(groups, d), GroupOf(groups, d), 0);
    }
  }

  lemma {:induction false} ClosedHasAbove(groups: Groups, s: set<string>, c: string, d: string, n: nat)
    requires Closed(groups, s) && c in s && IsAbove(groups, c, d, n)
    ensures d in s
    decreases n
  {
    if n > 0 {
      ClosedHasAbove(groups, s, GroupOf(groups, c), d, n - 1);
    }
  }

  /** The worklist ends, whatever cycles the groups have, with the least set that has the readable
      collections and the group of each of its members: those some number of groups above one. */
  method ReadableWithGroups(groups: Groups, readable: seq<string>) returns (r: set<string>)
    ensures forall c :: c in readable ==> c in r
    ensures Closed(groups, r)
    ensures forall s: set<string> :: Closed(groups, s) && (forall c :: c in readable ==> c in s) ==> r <= s
    ensures forall d :: d in r <==> AboveSome(groups, readable, d)
  {
    var left := groups;
    var list := readable;
    var i := 0;
    ReadableAreAbove(groups, readable);
    while i < |list|
      invariant 0 <= i <= |list| && readable <= list
      invariant Progress(groups, readable, left, list, i)
      decreases |left|, |list| - i
    {
      var collection := list[i];
      var group := GroupOf(left, collection);
      ProgressStep(groups, readable, left, list, i);
      if collection in left {
        Fewer(left, collection);
      }
      if group != "" {
        list := list + [group];
      }
      left := left - {collection};
      i := i + 1;
    }
    r := set c | c in list;
    assert forall c :: c in list <==> c in r;
    WorklistIsLeast(groups, readable, left, list, r);
  }

  /** Whose group has been taken out of the map has been visited, every group of a visited collection
      is on the list, and nothing is on it without reason. */
  ghost predicate Progress(groups: Groups, readable: seq<string>, left: Groups, list: seq<string>, i: nat)
    requires i <= |list|
  {
    && (forall k :: k in left ==> k in groups && left[k] == groups[k])
    && (forall k :: k in groups && k !in left ==> exists j :: 0 <= j < i && list[j] == k)
    && (forall j :: 0 <= j < i && GroupOf(groups, list[j]) != "" ==> GroupOf(groups, list[j]) in list)
    && (forall c :: c in list ==> AboveSome(groups, readable, c))
  }

  lemma ReadableAreAbove(groups: Groups, readable: seq<string>)
    ensures forall c :: c in readable ==> AboveSome(groups, readable, c)
  {
    forall c | c in readable ensures AboveSome(groups, readable, c) {
      assert IsAbove(groups, c, c, 0);
    }
  }

  lemma ProgressStep(groups: Groups, readable: seq<string>, left: Groups, list: seq<string>, i: nat)
    requires i < |list| && Progress(groups, readable, left, list, i)
    ensures var group := GroupOf(left, list[i]);
            Progress(groups, readable, left - {list[i]}, if group != "" then list + [group] else list, i + 1)
  {
    hide AboveSome;
    var collection := list[i];
    var group := GroupOf(left, collection);
    var after := if group != "" then list + [group] else list;
    assert forall j :: 0 <= j < |list| ==> after[j] == list[j];
    assert forall c :: c in list ==> c in after;
    if group != "" {
      GroupIsAbove(groups, readable, collection);
      assert after[|list|] == group;
    }
    forall k | k in groups && k !in left - {collection} ensures exists j :: 0 <= j < i + 1 && after[j] == k {
      if k in left {
        assert after[i] == k;
      } else {
        var j :| 0 <= j < i && list[j] == k;
        assert after[j] == k;
      }
    }
    forall j | 0 <= j < i + 1 && GroupOf(groups, after[j]) != "" ensures GroupOf(groups, after[j]) in after {
      if j == i && collection !in left {
        var p :| 0 <= p < i && list[p] == collection;
      }
    }
  }

  lemma WorklistIsLeast(groups: Groups, readable: seq<string>, left: Groups, list: seq<string>, r: set<string>)
    requires readable <= list && Progress(groups, readable, left, list, |list|)
    requires forall c :: c in list <==> c in r
    ensures Closed(groups, r)
    ensures forall s: set<string> :: Closed(groups, s) && (forall c :: c in readable ==> c in s) ==> r <= s
    ensures forall d :: d in r <==> AboveSome(groups, readable, d)
  {
    forall c | c in r && GroupOf(groups, c) != "" ensures GroupOf(groups, c) in r {
      var j :| 0 <= j < |list| && list[j] == c;
    }
    forall s: set<string> | Closed(groups, s) && (forall c :: c in readable ==> c in s) ensures r <= s {
      forall d | d in r ensures d in s {
        var c, n: nat :| c in readable && IsAbove(groups, c, d, n);
        ClosedHasAbove(groups, s, c, d, n);
      }
    }
    forall d | AboveSome(groups, readable, d) ensures d in r {
      var c, n: nat :| c in readable && IsAbove(groups, c, d, n);
      ClosedHasAbove(groups, r, c, d, n);
    }
  }

  lemma GroupIsAbove(groups: Groups, readable: seq<string>, d: string)
    requires AboveSome(groups, readable, d) && GroupOf(groups, d) != ""
    ensures AboveSome(groups, readable, GroupOf(groups, d))
  {
    var c, n: nat :| c in readable && IsAbove(groups, c, d, n);
    OneMoreAbove(groups, c, d, n);
  }

  lemma Fewer(m: Groups, k: string)
    requires k in m
    ensures |m - {k}| < |m|
  {
    assert (m - {k}).Keys == m.Keys - {k};
    assert |(m - {k}).Keys| == |m - {k}| && |m.Keys| == |m|;
  }
}
