/**
 Drag and drop: `UtilsService.sort` moves one row of a table to the place of another by rewriting
 the sort column in place.  First the column is made usable (rows without a value go last, and a
 column with duplicates is numbered afresh), then the rows between source and target move by one.
 */
module Reordering {

  type Id = nat

  datatype Cell = Null | Val(n: int)

  type Column = map<Id, Cell>

  ghost predicate Full(sort: Column) {
    forall k :: k in sort ==> sort[k].Val?
  }

  ghost predicate DistinctValues(sort: Column) {
    forall a, b :: a in sort && b in sort && a != b && sort[a].Val? ==> sort[a] != sort[b]
  }

  predicate DistinctIds(ids: seq<Id>) {
    forall i, j :: 0 <= i < j < |ids| ==> ids[i] != ids[j]
  }

  /** A table: its rows in the order the database keeps them, and their sort values. */
  ghost predicate TableOf(ids: seq<Id>, sort: Column) {
    DistinctIds(ids) && forall k :: k in ids <==> k in sort
  }

  // ----- order -----

  /** The first row at `k` or behind it. */
  function IndexOf(ids: seq<Id>, k: Id): (i: nat)
    requires k in ids
    ensures i < |ids| && ids[i] == k
  {
    if ids[0] == k then 0 else 1 + IndexOf(ids[1..], k)
  }

  /** `a` comes before `b`, as far as the column says: by value, rows without a value last and
      among themselves as the table has them. */
  ghost predicate Before(ids: seq<Id>, sort: Column, a: Id, b: Id)
    requires a in ids && b in ids && a in sort && b in sort
  {
    match (sort[a], sort[b])
    case (Val(x), Val(y)) => x < y
    case (Val(_), Null) => true
    case (Null, Val(_)) => false
    case (Null, Null) => IndexOf(ids, a) < IndexOf(ids, b)
  }

  /** `order` lists the rows with strictly increasing sort values: all are present and distinct. */
  ghost predicate IsOrder(ids: seq<Id>, sort: Column, order: seq<Id>) {
    && |order| == |ids| && DistinctIds(order)
    && (forall k :: k in order <==> k in ids)
    && (forall k :: k in ids ==> k in sort && sort[k].Val?)
    && (forall i, j :: 0 <= i < j < |order| ==> sort[order[i]].n < sort[order[j]].n)
  }

  /** The list with `item` taken out and put where `to` was. */
  function Moved(order: seq<Id>, item: Id, to: Id): seq<Id>
    requires item in order && to in order
  {
    var i, t := IndexOf(order, item), IndexOf(order, to);
    var rest := order[..i] + order[i + 1..];
    rest[..t] + [item] + rest[t..]
  }

  /** The shift: `item` takes the value of `to`, and what lies between makes room. */
  ghost function Shifted(sort: Column, item: Id, to: Id): Column
    requires item in sort && to in sort && Full(sort)
  {
    var source, target := sort[item].n, sort[to].n;
    map k | k in sort ::
      if k == item then Val(target)
      else if source < target && source < sort[k].n <= target then Val(sort[k].n - 1)
      else if target <= source && target <= sort[k].n <= source then Val(sort[k].n + 1)
      else sort[k]
  }

  /** Rows above `low` up to `high`, other than `item`, one down. */
  function Decremented(sort: Column, low: int, high: int, item: Id): Column {
    map k | k in sort :: if k != item && sort[k].Val? && low < sort[k].n <= high then Val(sort[k].n - 1) else sort[k]
  }

  /** Rows from `low` up to `high`, other than `item`, one up. */
  function Incremented(sort: Column, low: int, high: int, item: Id): Column {
    map k | k in sort :: if k != item && sort[k].Val? && low <= sort[k].n <= high then Val(sort[k].n + 1) else sort[k]
  }

  lemma StatementsShift(sort: Column, item: Id, to: Id)
    requires item in sort && to in sort && Full(sort)
    ensures var source, target := sort[item].n, sort[to].n;
            Shifted(sort, item, to) ==
            if source < target then Decremented(sort[item := Val(target)], source, target, item)
            else Incremented(sort[item := Val(target)], target, source, item)
  {
  }

  // ----- what the shift does to the order -----

  lemma WithoutAt(order: seq<Id>, i: nat, k: nat)
    requires i < |order| && k < |order| - 1
    ensures (order[..i] + order[i + 1..])[k] == if k < i then order[k] else order[k + 1]
  {
  }

  lemma InsertedIndex(rest: seq<Id>, t: nat, x: Id, j: nat)
    requires t <= |rest| && j <= |rest|
    ensures (rest[..t] + [x] + rest[t..])[j] == if j < t then rest[j] else if j == t then x else rest[j - 1]
  {
  }

  lemma MovedFrom(order: seq<Id>, item: Id, to: Id, j: nat)
    requires item in order && to in order && j < |order|
    ensures |Moved(order, item, to)| == |order|
    ensures Origin(IndexOf(order, item), IndexOf(order, to), j) < |order|
    ensures Moved(order, item, to)[j] == order[Origin(IndexOf(order, item), IndexOf(order, to), j)]
  {
    hide IndexOf;
    var i, t := IndexOf(order, item), IndexOf(order, to);
    var rest := order[..i] + order[i + 1..];
    InsertedIndex(rest, t, item, j);
    if j < t {
      WithoutAt(order, i, j);
    } else if j > t {
      WithoutAt(order, i, j - 1);
    }
  }

  /** Which place of the old list a place of the new list is filled from. */
  function Origin(i: nat, t: nat, j: nat): nat {
    if j == t then i
    else if i <= j < t then j + 1
    else if t < j <= i then j - 1
    else j
  }

  lemma MovedKeepsRows(order: seq<Id>, item: Id, to: Id)
    requires item in order && to in order && DistinctIds(order)
    ensures |Moved(order, item, to)| == |order|
    ensures forall k :: k in Moved(order, item, to) <==> k in order
  {
    var i, t := IndexOf(order, item), IndexOf(order, to);
    var rest := order[..i] + order[i + 1..];
    assert order == order[..i] + [item] + order[i + 1..];
    assert rest == rest[..t] + rest[t..];
    forall k ensures k in Moved(order, item, to) <==> k in order {
      assert k in Moved(order, item, to) <==> k in rest[..t] || k == item || k in rest[t..];
      assert k in rest <==> k in rest[..t] || k in rest[t..];
      assert k in order <==> k in order[..i] || k == item || k in order[i + 1..];
    }
  }

  lemma IncreasingIsDistinct(sort: Column, order: seq<Id>)
    requires forall k :: k in order ==> k in sort && sort[k].Val?
    requires forall i, j :: 0 <= i < j < |order| ==> sort[order[i]].n < sort[order[j]].n
    ensures DistinctIds(order)
  {
  }

  /** The new value of the row at place `k` of the old order. */
  ghost function NewValue(sort: Column, order: seq<Id>, i: nat, t: nat, k: nat): int
    requires i < |order| && t < |order| && k < |order|
    requires forall j :: 0 <= j < |order| ==> order[j] in sort && sort[order[j]].Val?
  {
    if k == i then sort[order[t]].n
    else if i < k <= t then sort[order[k]].n - 1
    else if t <= k < i then sort[order[k]].n + 1
    else sort[order[k]].n
  }

  lemma ShiftedAt(ids: seq<Id>, sort: Column, order: seq<Id>, item: Id, to: Id, k: nat)
    requires TableOf(ids, sort) && Full(sort) && IsOrder(ids, sort, order)
    requires item in ids && to in ids && k < |order|
    requires forall j :: 0 <= j < |order| ==> order[j] in sort && sort[order[j]].Val?
    ensures Shifted(sort, item, to)[order[k]]
            == Val(NewValue(sort, order, IndexOf(order, item), IndexOf(order, to), k))
  {
    var i, t := IndexOf(order, item), IndexOf(order, to);
    assert order[k] == item <==> k == i;
    assert i < k ==> sort[item].n < sort[order[k]].n;
    assert k < i ==> sort[order[k]].n < sort[item].n;
    assert t < k ==> sort[to].n < sort[order[k]].n;
    assert k < t ==> sort[order[k]].n < sort[to].n;
    assert i < t ==> sort[item].n < sort[to].n;
    assert t < i ==> sort[to].n < sort[item].n;
  }

  lemma NewValuesIncrease(sort: Column, order: seq<Id>, i: nat, t: nat, a: nat, b: nat)
    requires i < |order| && t < |order| && a < b < |order|
    requires forall j :: 0 <= j < |order| ==> order[j] in sort && sort[order[j]].Val?
    requires forall j, k :: 0 <= j < k < |order| ==> sort[order[j]].n < sort[order[k]].n
    ensures Origin(i, t, a) < |order| && Origin(i, t, b) < |order|
    ensures NewValue(sort, order, i, t, Origin(i, t, a)) < NewValue(sort, order, i, t, Origin(i, t, b))
  {
    var x, y := Origin(i, t, a), Origin(i, t, b);
    assert order[x] in sort && order[y] in sort && order[i] in sort && order[t] in sort;
  }

  /** Values stay integers, so whatever lies strictly between moves without colliding. */
  lemma ShiftedIncreases(ids: seq<Id>, sort: Column, order: seq<Id>, item: Id, to: Id, a: nat, b: nat)
    requires TableOf(ids, sort) && Full(sort) && IsOrder(ids, sort, order)
    requires item in ids && to in ids
    requires a < b < |order| && |Moved(order, item, to)| == |order|
    ensures Moved(order, item, to)[a] in sort && Moved(order, item, to)[b] in sort
    ensures Shifted(sort, item, to)[Moved(order, item, to)[a]].n < Shifted(sort, item, to)[Moved(order, item, to)[b]].n
  {
    OrderedRows(ids, sort, order);
    hide Moved, NewValue;
    var i, t := IndexOf(order, item), IndexOf(order, to);
    MovedFrom(order, item, to, a);
    MovedFrom(order, item, to, b);
    ShiftedAt(ids, sort, order, item, to, Origin(i, t, a));
    ShiftedAt(ids, sort, order, item, to, Origin(i, t, b));
    NewValuesIncrease(sort, order, i, t, a, b);
  }

  lemma OrderedRows(ids: seq<Id>, sort: Column, order: seq<Id>)
    requires IsOrder(ids, sort, order)
    ensures forall j :: 0 <= j < |order| ==> order[j] in sort && sort[order[j]].Val?
  {
    forall j | 0 <= j < |order| ensures order[j] in sort && sort[order[j]].Val? {
      assert order[j] in order;
    }
  }

  /** The shift is a list move: the rows in their new order are the old order with `item` taken out
      and put where `to` was, and again every value is present and distinct. */
  lemma ShiftIsMove(ids: seq<Id>, sort: Column, order: seq<Id>, item: Id, to: Id)
    requires TableOf(ids, sort) && Full(sort) && IsOrder(ids, sort, order)
    requires item in ids && to in ids
    ensures IsOrder(ids, Shifted(sort, item, to), Moved(order, item, to))
  {
    MovedKeepsRows(order, item, to);
    var moved, shifted := Moved(order, item, to), Shifted(sort, item, to);
    forall a, b | 0 <= a < b < |moved| ensures shifted[moved[a]].n < shifted[moved[b]].n {
      ShiftedIncreases(ids, sort, order, item, to, a, b);
    }
    IncreasingIsDistinct(shifted, moved);
  }

  /** There is only one such order. */
  lemma OrderIsUnique(ids: seq<Id>, sort: Column, a: seq<Id>, b: seq<Id>)
    requires IsOrder(ids, sort, a) && IsOrder(ids, sort, b)
    ensures a == b
  {
    SamePrefix(ids, sort, a, b, |a|);
    assert a[..|a|] == a && b[..|a|] == b;
  }

  lemma {:induction false} SamePrefix(ids: seq<Id>, sort: Column, a: seq<Id>, b: seq<Id>, n: nat)
    requires IsOrder(ids, sort, a) && IsOrder(ids, sort, b) && n <= |a|
    ensures a[..n] == b[..n]
  {
    if n > 0 {
      SamePrefix(ids, sort, a, b, n - 1);
      forall j | 0 <= j < n - 1 ensures a[j] == b[j] {
        assert a[..n - 1][j] == b[..n - 1][j];
      }
      NextIsSame(ids, sort, a, b, n - 1);
    }
  }

  /** The smallest row not listed yet is next in both. */
  lemma NextIsSame(ids: seq<Id>, sort: Column, a: seq<Id>, b: seq<Id>, i: nat)
    requires IsOrder(ids, sort, a) && IsOrder(ids, sort, b)
    requires i < |a| && forall j :: 0 <= j < i ==> a[j] == b[j]
    ensures a[i] == b[i]
  {
    assert a[i] in b && b[i] in a;
    var p :| 0 <= p < |b| && b[p] == a[i];
    var q :| 0 <= q < |a| && a[q] == b[i];
    assert p >= i && q >= i;
  }

  /** And there is one: a table with present and distinct values can be listed in order. */
  lemma {:induction false} OrderExists(ids: seq<Id>, sort: Column) returns (order: seq<Id>)
    requires DistinctIds(ids) && DistinctValues(sort)
    requires forall k :: k in ids ==> k in sort && sort[k].Val?
    ensures IsOrder(ids, sort, order)
  {
    if ids == [] {
      order := [];
    } else {
      var front, last := ids[..|ids| - 1], ids[|ids| - 1];
      assert ids == front + [last];
      var before := OrderExists(front, sort);
      OrderedRows(front, sort, before);
      var p := |before|;
      while p > 0 && sort[before[p - 1]].n > sort[last].n
        invariant 0 <= p <= |before|
        invariant forall q :: p <= q < |before| ==> sort[before[q]].n > sort[last].n
      {
        p := p - 1;
      }
      order := InsertedInOrder(front, sort, before, last, p);
    }
  }

  lemma InsertedInOrder(front: seq<Id>, sort: Column, before: seq<Id>, last: Id, p: nat) returns (order: seq<Id>)
    requires IsOrder(front, sort, before) && DistinctValues(sort)
    requires last !in front && last in sort && sort[last].Val? && p <= |before|
    requires forall j :: 0 <= j < |before| ==> before[j] in sort && sort[before[j]].Val?
    requires forall q :: p <= q < |before| ==> sort[before[q]].n > sort[last].n
    requires p > 0 ==> sort[before[p - 1]].n <= sort[last].n
    ensures IsOrder(front + [last], sort, order)
  {
    order := before[..p] + [last] + before[p..];
    InsertedAt(before, p, last);
    forall j | 0 <= j < p ensures sort[before[j]].n < sort[last].n {
      assert before[j] in before && before[p - 1] in before;
      assert sort[before[p - 1]] != sort[last];
    }
    forall i, j | 0 <= i < j < |order| ensures order[i] in sort && order[j] in sort && sort[order[i]].n < sort[order[j]].n {
      InsertedIndex(before, p, last, i);
      InsertedIndex(before, p, last, j);
    }
  }

  /** Values that count 1 to n still do after the shift. */
  lemma ContiguousStays(ids: seq<Id>, sort: Column, order: seq<Id>, item: Id, to: Id, j: nat)
    requires TableOf(ids, sort) && Full(sort) && IsOrder(ids, sort, order)
    requires item in ids && to in ids && j < |order|
    requires forall i :: 0 <= i < |order| ==> sort[order[i]].n == i + 1
    ensures |Moved(order, item, to)| == |order| && Moved(order, item, to)[j] in sort
    ensures Shifted(sort, item, to)[Moved(order, item, to)[j]] == Val(j + 1)
  {
    OrderedRows(ids, sort, order);
    hide Moved, IndexOf, Shifted, NewValue;
    var i, t := IndexOf(order, item), IndexOf(order, to);
    MovedFrom(order, item, to, j);
    ShiftedAt(ids, sort, order, item, to, Origin(i, t, j));
    NewValuesCount(sort, order, i, t, j);
  }

  lemma NewValuesCount(sort: Column, order: seq<Id>, i: nat, t: nat, j: nat)
    requires i < |order| && t < |order| && j < |order|
    requires forall k :: 0 <= k < |order| ==> order[k] in sort && sort[order[k]].Val?
    requires forall k :: 0 <= k < |order| ==> sort[order[k]].n == k + 1
    ensures Origin(i, t, j) < |order| && NewValue(sort, order, i, t, Origin(i, t, j)) == j + 1
  {
  }

  // ----- the table -----

  ghost predicate Normalises(ids: seq<Id>, was: Column, sort: Column) {
    && TableOf(ids, was) && TableOf(ids, sort)
    && Full(sort) && DistinctValues(sort)
    && (Full(was) && DistinctValues(was) ==> sort == was)
    && forall a, b :: a in ids && b in ids && Before(ids, was, a, b) ==> sort[a].n < sort[b].n
  }

  class Table {
    const ids: seq<Id>
    var sort: Column

    ghost predicate Valid()
      reads this
    {
      TableOf(ids, sort)
    }

    constructor (ids: seq<Id>, sort: Column)
      requires TableOf(ids, sort)
      ensures Valid() && this.ids == ids && this.sort == sort
    {
      this.ids := ids;
      this.sort := sort;
    }

    /** `max(sort)`: null when no row has a value. */
    method Max() returns (max: Cell)
      requires Valid()
      ensures max.Null? ==> forall k :: k in sort ==> sort[k].Null?
      ensures max.Val? ==> forall k :: k in sort && sort[k].Val? ==> sort[k].n <= max.n
    {
      max := Null;
      for i := 0 to |ids|
        invariant forall j :: 0 <= j < i && sort[ids[j]].Val? ==> max.Val? && sort[ids[j]].n <= max.n
      {
        assert ids[i] in sort;
        if sort[ids[i]].Val? && (max.Null? || max.n < sort[ids[i]].n) {
          max := sort[ids[i]];
        }
      }
    }

    /** The rows without a sort value, in table order. */
    method WithoutValue() returns (rows: seq<Id>)
      requires Valid()
      ensures forall k :: k in rows <==> k in ids && sort[k].Null?
      ensures forall i, j :: 0 <= i < j < |rows| ==> IndexOf(ids, rows[i]) < IndexOf(ids, rows[j])
    {
      rows := [];
      for i := 0 to |ids|
        invariant forall k :: k in rows <==> k in ids[..i] && sort[k].Null?
        invariant forall j :: 0 <= j < |rows| ==> rows[j] in ids && IndexOf(ids, rows[j]) < i
        invariant forall p, q :: 0 <= p < q < |rows| ==> IndexOf(ids, rows[p]) < IndexOf(ids, rows[q])
      {
        assert ids[..i + 1] == ids[..i] + [ids[i]];
        assert IndexOf(ids, ids[i]) == i;
        if sort[ids[i]].Null? {
          rows := rows + [ids[i]];
        }
      }
      assert ids[..|ids|] == ids;
    }

    /** Rows without a value are numbered on from the largest one. */
    method FillNulls()
      requires Valid()
      modifies this
      ensures Valid() && Full(sort)
      ensures forall k :: k in sort && old(sort)[k].Val? ==> sort[k] == old(sort)[k]
      ensures forall a, b :: a in ids && b in ids && Before(ids, old(sort), a, b) ==> sort[a].n < sort[b].n
    {
      ghost var was := sort;
      var max := Max();
      var last := if max.Val? then max.n else 0;
      ghost var start := last;
      var rows := WithoutValue();
      for i := 0 to |rows|
        invariant Valid() && last == start + i
        invariant forall k :: k in sort && was[k].Val? ==> sort[k] == was[k]
        invariant forall j :: 0 <= j < i ==> sort[rows[j]] == Val(start + 1 + j)
      {
        last := last + 1;
        assert rows[i] in rows;
        forall j | 0 <= j < i ensures rows[j] != rows[i] {
          assert IndexOf(ids, rows[j]) < IndexOf(ids, rows[i]);
        }
        sort := sort[rows[i] := Val(last)];
      }
      Filled(ids, was, sort, rows, start);
    }

    predicate HasDuplicates()
      requires Valid() && Full(sort)
      reads this
    {
      exists i, j :: 0 <= i < j < |ids| && sort[ids[i]] == sort[ids[j]]
    }

    /** The rows ordered by their value; how the database breaks ties is up to it. */
    method OrderBySort() returns (order: seq<Id>)
      requires Valid() && Full(sort)
      ensures |order| == |ids| && DistinctIds(order) && forall k :: k in order <==> k in ids
      ensures forall i, j :: 0 <= i < j < |order| ==> sort[order[i]].n <= sort[order[j]].n
    {
      order := [];
      for i := 0 to |ids|
        invariant |order| == i && DistinctIds(order)
        invariant forall k :: k in order <==> k in ids[..i]
        invariant forall j :: 0 <= j < |order| ==> order[j] in sort
        invariant forall p, q :: 0 <= p < q < |order| ==> sort[order[p]].n <= sort[order[q]].n
      {
        assert ids[..i + 1] == ids[..i] + [ids[i]];
        var p := |order|;
        while p > 0 && sort[order[p - 1]].n > sort[ids[i]].n
          invariant 0 <= p <= |order|
          invariant forall q :: p <= q < |order| ==> sort[order[q]].n > sort[ids[i]].n
        {
          p := p - 1;
        }
        forall j | 0 <= j < |order| ensures order[j] != ids[i] {
          assert order[j] in order;
        }
        InsertedAt(order, p, ids[i]);
        order := order[..p] + [ids[i]] + order[p..];
      }
      assert ids[..|ids|] == ids;
    }

    /** A column with duplicates is numbered from 1 in its order. */
    method ResetDuplicates()
      requires Valid() && Full(sort)
      modifies this
      ensures Valid() && Full(sort) && DistinctValues(sort)
      ensures DistinctValues(old(sort)) ==> sort == old(sort)
      ensures forall a, b :: a in sort && b in sort && old(sort)[a].n < old(sort)[b].n ==> sort[a].n < sort[b].n
    {
      if HasDuplicates() {
        ghost var was := sort;
        var order := OrderBySort();
        for i := 0 to |order|
          invariant Valid() && Full(sort)
          invariant forall j :: 0 <= j < i ==> order[j] in sort && sort[order[j]] == Val(j + 1)
        {
          assert order[i] in order;
          sort := sort[order[i] := Val(i + 1)];
        }
        Numbered(ids, was, sort, order);
      }
    }

    method Normalise()
      requires Valid()
      modifies this
      ensures Valid() && Normalises(ids, old(sort), sort)
    {
      var count := WithoutValue();
      if |count| != 0 {
        FillNulls();
      }
      assert Full(sort);
      ResetDuplicates();
    }

    /** `sort`: normalise, then shift.  When one of the two rows is not there, the call fails after
        the column has been normalised. */
    method SortRows(item: Id, to: Id) returns (ok: bool, ghost normal: Column)
      requires Valid()
      modifies this
      ensures Valid() && Normalises(ids, old(sort), normal)
      ensures ok <==> item in ids && to in ids
      ensures sort == if ok then Shifted(normal, item, to) else normal
    {
      Normalise();
      normal := sort;
      if to !in sort {
        return false, normal;
      }
      var target := sort[to].n;
      if item !in sort {
        return false, normal;
      }
      var source := sort[item].n;
      sort := sort[item := Val(target)];
      if source < target {
        sort := Decremented(sort, source, target, item);
      } else {
        sort := Incremented(sort, target, source, item);
      }
      StatementsShift(normal, item, to);
      ok := true;
    }
  }

  lemma InsertedAt(order: seq<Id>, p: nat, k: Id)
    requires p <= |order| && DistinctIds(order) && k !in order
    ensures var r := order[..p] + [k] + order[p..];
            DistinctIds(r) && forall x :: x in r <==> x in order || x == k
  {
    assert order == order[..p] + order[p..];
  }

  lemma SmallerIndex(ids: seq<Id>, rows: seq<Id>, p: nat, q: nat)
    requires p < |rows| && q < |rows|
    requires forall j :: 0 <= j < |rows| ==> rows[j] in ids
    requires forall i, j :: 0 <= i < j < |rows| ==> IndexOf(ids, rows[i]) < IndexOf(ids, rows[j])
    requires IndexOf(ids, rows[p]) < IndexOf(ids, rows[q])
    ensures p < q
  {
  }

  lemma Filled(ids: seq<Id>, was: Column, sort: Column, rows: seq<Id>, start: int)
    requires TableOf(ids, was) && TableOf(ids, sort)
    requires forall k :: k in was && was[k].Val? ==> sort[k] == was[k] && was[k].n <= start
    requires forall k :: k in rows <==> k in ids && was[k].Null?
    requires forall i, j :: 0 <= i < j < |rows| ==> IndexOf(ids, rows[i]) < IndexOf(ids, rows[j])
    requires forall j :: 0 <= j < |rows| ==> sort[rows[j]] == Val(start + 1 + j)
    ensures Full(sort)
    ensures forall a, b :: a in ids && b in ids && Before(ids, was, a, b) ==> sort[a].n < sort[b].n
  {
    forall k | k in sort ensures sort[k].Val? {
      if was[k].Null? {
        assert k in rows;
      }
    }
    forall a, b | a in ids && b in ids && Before(ids, was, a, b) ensures sort[a].n < sort[b].n {
      if was[b].Null? {
        assert b in rows;
        var q :| 0 <= q < |rows| && rows[q] == b;
        if was[a].Null? {
          assert a in rows;
          var p :| 0 <= p < |rows| && rows[p] == a;
          SmallerIndex(ids, rows, p, q);
        }
      }
    }
  }

  lemma Numbered(ids: seq<Id>, was: Column, sort: Column, order: seq<Id>)
    requires TableOf(ids, was) && TableOf(ids, sort) && Full(was) && Full(sort)
    requires forall k :: k in order <==> k in ids
    requires forall i, j :: 0 <= i < j < |order| ==> was[order[i]].n <= was[order[j]].n
    requires forall j :: 0 <= j < |order| ==> sort[order[j]] == Val(j + 1)
    ensures DistinctValues(sort)
    ensures forall a, b :: a in sort && b in sort && was[a].n < was[b].n ==> sort[a].n < sort[b].n
  {
    forall a, b | a in sort && b in sort && a != b ensures sort[a] != sort[b] && (was[a].n < was[b].n ==> sort[a].n < sort[b].n) {
      assert a in order && b in order;
      var p :| 0 <= p < |order| && order[p] == a;
      var q :| 0 <= q < |order| && order[q] == b;
    }
  }

  /** Put together: the new order of the table is a list move of the normalised order. */
  lemma SortRefinesListMove(ids: seq<Id>, was: Column, normal: Column, order: seq<Id>, item: Id, to: Id)
    requires Normalises(ids, was, normal) && IsOrder(ids, normal, order) && item in ids && to in ids
    ensures IsOrder(ids, Shifted(normal, item, to), Moved(order, item, to))
    ensures forall a, b :: a in ids && b in ids && a != item && b != item && Before(ids, was, a, b) ==>
              Shifted(normal, item, to)[a].n < Shifted(normal, item, to)[b].n
  {
    ShiftIsMove(ids, normal, order, item, to);
  }
}
