/**
 The batch loop of a one-to-many node: each batch is appended to the children a parent has, cut
 to the window of the query and sorted.  Done batch by batch this is doing it once, exactly when
 the window skips nothing or keeps nothing.
 */
module Batches {
  import opened Rows
  import opened QueryModel
  import opened Unstripped
  import opened Merging

  // ----- one batch -----

  /** The children a parent has so far. */
  function Existing(parent: Item, key: string): seq<Value> {
    if key in parent && parent[key].Arr? then parent[key].items else []
  }

  function MatchingIn(w: World, c: string, node: Node, batch: seq<Value>, parent: Item): seq<Value>
    requires node.O2M?
  {
    Keep(batch, MatchesParent(node.field, w.Primary(c), Cell(parent, w.Primary(c))))
  }

  /** A parent's children after one batch is merged into them: appended, cut and sorted. */
  function ChildrenAfter(w: World, c: string, node: Node, batch: seq<Value>, parent: Item): seq<Value>
    requires node.O2M? && node.query.sort != []
  {
    var limit := LimitOf(w, node.query);
    var all := Existing(parent, node.key) + MatchingIn(w, c, node, batch, parent);
    Sort(Take(Drop(all, SkipOf(node.query, limit)), limit), ValuesLeq(node.query.sort[0]))
  }

  function AfterBatch(w: World, c: string, node: Node, batch: seq<Value>, parent: Item): Item
    requires node.O2M? && node.query.sort != []
  {
    parent[node.key := Arr(ChildrenAfter(w, c, node, batch, parent))]
  }

  // ----- all batches -----

  /** All the children in batches of `size`; the last batch is the first that is not full. */
  function AfterBatches(w: World, c: string, node: Node, raw: seq<Value>, size: nat, parent: Item): Item
    requires node.O2M? && node.query.sort != [] && size > 0
    decreases |raw|
  {
    if |raw| < size then AfterBatch(w, c, node, raw, parent)
    else AfterBatches(w, c, node, raw[size..], size, AfterBatch(w, c, node, raw[..size], parent))
  }

  /** The first `limit` matching children, sorted. */
  function Merged(w: World, c: string, node: Node, raw: seq<Value>, key: Value): seq<Value>
    requires node.O2M? && node.query.sort != []
  {
    Sort(Take(Keep(raw, MatchesParent(node.field, w.Primary(c), key)), LimitOf(w, node.query)),
         ValuesLeq(node.query.sort[0]))
  }

  lemma OneMoreBatch(w: World, c: string, node: Node, done: seq<Value>, batch: seq<Value>, parent: Item)
    requires node.O2M? && node.query.sort != [] && NothingSkipped(w, node.query)
    requires Existing(parent, node.key) == Merged(w, c, node, done, Cell(parent, w.Primary(c)))
    ensures ChildrenAfter(w, c, node, batch, parent) == Merged(w, c, node, done + batch, Cell(parent, w.Primary(c)))
  {
    var key := Cell(parent, w.Primary(c));
    var p := MatchesParent(node.field, w.Primary(c), key);
    var limit := LimitOf(w, node.query);
    if limit == 0 {
      assert Take(Keep(done + batch, p), 0) == [];
    } else {
      ValuesOrder(node.query.sort[0]);
      MergeOfMerged(Keep(done, p), Keep(batch, p), limit, ValuesLeq(node.query.sort[0]));
      KeepAppend(done, batch, p);
    }
  }

  lemma {:induction false} BatchesMergeFrom(w: World, c: string, node: Node, done: seq<Value>, raw: seq<Value>, size: nat, parent: Item)
    requires node.O2M? && node.query.sort != [] && NothingSkipped(w, node.query) && size > 0
    requires node.key != w.Primary(c)
    requires Existing(parent, node.key) == Merged(w, c, node, done, Cell(parent, w.Primary(c)))
    ensures AfterBatches(w, c, node, raw, size, parent)
            == parent[node.key := Arr(Merged(w, c, node, done + raw, Cell(parent, w.Primary(c))))]
    decreases |raw|
  {
    hide Merged, ChildrenAfter, NothingSkipped;
    if |raw| < size {
      OneMoreBatch(w, c, node, done, raw, parent);
    } else {
      OneMoreBatch(w, c, node, done, raw[..size], parent);
      var next := AfterBatch(w, c, node, raw[..size], parent);
      BatchesMergeFrom(w, c, node, done + raw[..size], raw[size..], size, next);
      assert done + raw[..size] + raw[size..] == done + raw;
    }
  }

  /** Batch by batch, a parent ends up with the first `limit` of its children, sorted. */
  lemma BatchesMerge(w: World, c: string, node: Node, raw: seq<Value>, size: nat, parent: Item)
    requires node.O2M? && node.query.sort != [] && NothingSkipped(w, node.query) && size > 0
    requires node.key != w.Primary(c) && node.key !in parent
    ensures AfterBatches(w, c, node, raw, size, parent)
            == parent[node.key := Arr(Merged(w, c, node, raw, Cell(parent, w.Primary(c))))]
  {
    BatchesMergeFrom(w, c, node, [], raw, size, parent);
    assert [] + raw == raw;
  }

  // ----- when the batch size shows -----

  /** Whatever the children, their batches and the parent, it is as if all came in one batch. */
  ghost predicate BatchSizeInvisible(w: World, c: string, node: Node)
    requires node.O2M? && node.query.sort != []
  {
    forall raw: seq<Value>, size: nat, parent: Item :: size > 0 && node.key !in parent ==>
      AfterBatches(w, c, node, raw, size, parent) == AfterBatch(w, c, node, raw, parent)
  }

  /** The batch size is invisible exactly when nothing is skipped, or nothing is kept anyway: a page
      or an offset is applied again to what earlier batches left. */
  lemma BatchSizeInvisibleIff(w: World, c: string, node: Node)
    requires node.O2M? && node.query.sort != [] && node.key != w.Primary(c)
    ensures BatchSizeInvisible(w, c, node) <==> NothingSkipped(w, node.query)
  {
    if NothingSkipped(w, node.query) {
      forall raw: seq<Value>, size: nat, parent: Item | size > 0 && node.key !in parent
        ensures AfterBatches(w, c, node, raw, size, parent) == AfterBatch(w, c, node, raw, parent)
      {
        BatchesMerge(w, c, node, raw, size, parent);
        OneMoreBatch(w, c, node, [], raw, parent);
        assert [] + raw == raw;
      }
    } else {
      var raw, parent := SkippingShows(w, c, node);
    }
  }

  /** One more matching child than is skipped: all at once the last one stays, one at a time none. */
  lemma SkippingShows(w: World, c: string, node: Node) returns (raw: seq<Value>, parent: Item)
    requires node.O2M? && node.query.sort != [] && node.key != w.Primary(c) && !NothingSkipped(w, node.query)
    ensures node.key !in parent
    ensures AfterBatches(w, c, node, raw, 1, parent) != AfterBatch(w, c, node, raw, parent)
  {
    var skip := SkipOf(node.query, LimitOf(w, node.query));
    var child := Obj(map[node.field := Num(1)]);
    parent := map[w.Primary(c) := Num(1)];
    raw := seq(skip + 1, _ => child);
    SingleBatchesVanish(w, c, node, raw, parent);
    KeepAll(raw, MatchesParent(node.field, w.Primary(c), Num(1)));
    hide AfterBatches, NothingSkipped, MatchesParent;
    assert [] + raw == raw && Drop(raw, skip) == [child];
    assert ChildrenAfter(w, c, node, raw, parent) == Sort([child], ValuesLeq(node.query.sort[0]));
    SortMembers([child], ValuesLeq(node.query.sort[0]));
  }

  /** Child by child, each is skipped before the next one comes. */
  lemma {:induction false} SingleBatchesVanish(w: World, c: string, node: Node, raw: seq<Value>, parent: Item)
    requires node.O2M? && node.query.sort != [] && node.key != w.Primary(c)
    requires SkipOf(node.query, LimitOf(w, node.query)) > 0
    requires Existing(parent, node.key) == []
    ensures var r := AfterBatches(w, c, node, raw, 1, parent); node.key in r && r[node.key] == Arr([])
    decreases |raw|
  {
    var batch := if raw == [] then [] else raw[..1];
    KeepFew(batch, MatchesParent(node.field, w.Primary(c), Cell(parent, w.Primary(c))));
    assert ChildrenAfter(w, c, node, batch, parent) == [];
    if raw != [] {
      SingleBatchesVanish(w, c, node, raw[1..], AfterBatch(w, c, node, batch, parent));
    }
  }
}
