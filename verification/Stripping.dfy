/**
 `removeTemporaryFields`: the keys and sort columns a nested read selects for its own use are
 taken out again, level by level, so that what is left of an intact row is what was requested.
 Of any item nothing is left but what the children of its level are picked by.
 */
module Stripping {
  import opened QueryModel
  import opened NestedJoin
  import opened Unstripped
  import opened Merging

  // ----- what is picked -----

  function Pick(item: Item, keys: set<string>): Item {
    map k | k in item && k in keys :: item[k]
  }

  // ----- the specification -----

  /** A level's value without what it did not request; a level that requests nothing is read under
      the name `pk`. */
  function StripValue(w: World, c: string, pk: string, inBranch: bool, children: seq<Node>, v: Value): Value
    decreases children, 3
  {
    match v
    case Null => Null
    case Arr(items) => if Null in items then Null else Arr(StripEach(w, c, pk, inBranch, children, items))
    case _ => StripItem(w, c, pk, inBranch, children, FieldsOf(v))
  }

  function StripEach(w: World, c: string, pk: string, inBranch: bool, children: seq<Node>, items: seq<Value>): (r: seq<Value>)
    ensures |r| == |items|
    ensures forall i :: 0 <= i < |items| ==> r[i] == StripItem(w, c, pk, inBranch, children, FieldsOf(items[i]))
    decreases children, 2, |items|
  {
    if items == [] then []
    else [StripItem(w, c, pk, inBranch, children, FieldsOf(items[0]))]
         + StripEach(w, c, pk, inBranch, children, items[1..])
  }

  function StripItem(w: World, c: string, pk: string, inBranch: bool, children: seq<Node>, item: Item): Value
    decreases children, 1
  {
    if children == [] then Cell(item, pk)
    else Obj(Pick(StripNested(w, c, inBranch, children, item), PickedKeys(inBranch, children)))
  }

  /** The nested values of an item stripped in turn, in place. */
  function StripNested(w: World, c: string, inBranch: bool, children: seq<Node>, item: Item): Item
    decreases children, 0
  {
    if children == [] then item
    else
      var last := children[|children| - 1];
      var before := StripNested(w, c, inBranch, children[..|children| - 1], item);
      if last.IsNested() then before[last.key := StripNode(w, c, inBranch, last, before)] else before
  }

  function StripNode(w: World, c: string, inBranch: bool, node: Node, parent: Item): Value
    requires node.IsNested()
    decreases node, 1
  {
    var v := Cell(parent, node.key);
    match node
    case M2O(_, _, related, children, _) =>
      StripValue(w, related, if inBranch then w.Primary(c) else w.Primary(related), false, children, v)
    case O2M(_, _, related, _, children, _) =>
      StripValue(w, related, w.Primary(related), false, children, v)
    case A2O(_, _, collectionField, branches) =>
      var b := BranchFor(branches, Cell(parent, collectionField));
      if b.None? then Null
      else StripValue(w, b.value.collection, w.Primary(c), true, b.value.children, v)
  }

  // ----- the procedure -----

  method RemoveTemporaryFields(w: World, c: string, pk: string, inBranch: bool, children: seq<Node>, raw: Value)
    returns (r: Value)
    ensures r == StripValue(w, c, pk, inBranch, children, raw)
    decreases children, 3
  {
    if raw == Null {
      return Null;
    } else if !raw.Arr? {
      r := StripOne(w, c, pk, inBranch, children, FieldsOf(raw));
      return;
    }
    var items: seq<Value> := [];
    for i := 0 to |raw.items|
      invariant |items| == i
      invariant forall j :: 0 <= j < i ==> raw.items[j] != Null
      invariant forall j :: 0 <= j < i ==> items[j] == StripItem(w, c, pk, inBranch, children, FieldsOf(raw.items[j]))
    {
      if raw.items[i] == Null {
        return Null;
      }
      var item := StripOne(w, c, pk, inBranch, children, FieldsOf(raw.items[i]));
      items := items + [item];
    }
    assert items == StripEach(w, c, pk, inBranch, children, raw.items);
    r := Arr(items);
  }

  method StripOne(w: World, c: string, pk: string, inBranch: bool, children: seq<Node>, raw: Item) returns (r: Value)
    ensures r == StripItem(w, c, pk, inBranch, children, raw)
    decreases children, 1
  {
    var item := raw;
    for i := 0 to |children|
      invariant item == StripNested(w, c, inBranch, children[..i], raw)
    {
      var node := children[i];
      assert children[..i + 1][..i] == children[..i];
      if node.IsNested() {
        var v := StripOneNode(w, c, inBranch, node, item);
        item := item[node.key := v];
      }
    }
    assert children[..|children|] == children;
    if children == [] {
      r := Cell(raw, pk);
    } else {
      r := Obj(Pick(item, PickedKeys(inBranch, children)));
    }
  }

  method StripOneNode(w: World, c: string, inBranch: bool, node: Node, parent: Item) returns (r: Value)
    requires node.IsNested()
    ensures r == StripNode(w, c, inBranch, node, parent)
    decreases node, 1
  {
    var v := Cell(parent, node.key);
    match node {
      case M2O(_, _, related, children, _) =>
        var pk := if inBranch then w.Primary(c) else w.Primary(related);
        r := RemoveTemporaryFields(w, related, pk, false, children, v);
      case O2M(_, _, related, _, children, _) =>
        r := RemoveTemporaryFields(w, related, w.Primary(related), false, children, v);
      case A2O(_, _, collectionField, branches) =>
        var b := BranchFor(branches, Cell(parent, collectionField));
        if b.None? {
          r := Null;
        } else {
          r := RemoveTemporaryFields(w, b.value.collection, w.Primary(c), true, b.value.children, v);
        }
    }
  }

  // ----- what is requested, key by key -----

  lemma {:induction false} RequestedOnly(w: World, c: string, children: seq<Node>, row: Row, k: string)
    requires SortsFilled(children) && k in RequestedFields(w, c, children, row)
    ensures exists i :: 0 <= i < |children| && children[i].key == k
  {
    var last := children[|children| - 1];
    var front := children[..|children| - 1];
    if k != last.key {
      assert k in RequestedFields(w, c, front, row);
      RequestedOnly(w, c, front, row, k);
      var i :| 0 <= i < |front| && front[i].key == k;
      assert children[i].key == k;
    }
  }

  /** What the request says about one key. */
  ghost predicate RequestedAs(w: World, c: string, child: Node, row: Row, fields: Item)
    requires SortFilled(child)
  {
    match child
    case Field(name, key) =>
      (key in fields <==> name in w.Fields(c)) && (key in fields ==> fields[key] == Cell(row, name))
    case Count(key, _, _, _) => key in fields && fields[key] == CountOf(w, c, child, row)
    case _ => child.key in fields && fields[child.key] == RequestedNested(w, c, child, row)
  }

  lemma {:induction false} RequestedShows(w: World, c: string, children: seq<Node>, row: Row, i: nat)
    requires SortsFilled(children) && i < |children| && SortFilled(children[i])
    requires forall i, j :: 0 <= i < j < |children| ==> children[i].key != children[j].key
    ensures RequestedAs(w, c, children[i], row, RequestedFields(w, c, children, row))
  {
    var front := children[..|children| - 1];
    if i < |children| - 1 {
      assert children[i].key != children[|children| - 1].key;
      forall a, b | 0 <= a < b < |front| ensures front[a].key != front[b].key {
        assert children[a].key != children[b].key;
      }
      RequestedShows(w, c, front, row, i);
    } else if children[i].Field? && children[i].key in RequestedFields(w, c, front, row) {
      RequestedOnly(w, c, front, row, children[i].key);
    }
  }

  // ----- stripping a raw item -----

  predicate Writes(children: seq<Node>, n: nat, k: string)
    requires n <= |children|
  {
    exists i :: 0 <= i < n && children[i].IsNested() && children[i].key == k
  }

  /** What the strip makes of the raw value of one node. */
  function NodeStripped(w: World, c: string, inBranch: bool, node: Node, row: Row): Value
    requires SortFilled(node) && node.IsNested()
  {
    var v := RawNested(w, c, node, row);
    match node
    case M2O(_, _, related, children, _) =>
      StripValue(w, related, if inBranch then w.Primary(c) else w.Primary(related), false, children, v)
    case O2M(_, _, related, _, children, _) =>
      StripValue(w, related, w.Primary(related), false, children, v)
    case A2O(_, _, collectionField, branches) =>
      var b := BranchFor(branches, Cell(row, collectionField));
      if b.None? then Null
      else StripValue(w, b.value.collection, w.Primary(c), true, b.value.children, v)
  }

  function ChildStripped(w: World, c: string, inBranch: bool, children: seq<Node>, i: nat, row: Row): Value
    requires i < |children| && SortFilled(children[i]) && children[i].IsNested()
  {
    if FieldTaken(children, i) then Null else NodeStripped(w, c, inBranch, children[i], row)
  }

  /** After the first `n` nodes, their values are stripped and nothing else has changed. */
  ghost predicate StrippedTo(w: World, c: string, inBranch: bool, children: seq<Node>, row: Row, raw: Item, n: nat, item: Item)
    requires SortsFilled(children) && n <= |children|
  {
    && (forall k :: !Writes(children, n, k) ==> (k in item <==> k in raw) && (k in raw ==> item[k] == raw[k]))
    && (forall i :: 0 <= i < n && children[i].IsNested() ==>
          children[i].key in item && SortFilled(children[i])
          && item[children[i].key] == ChildStripped(w, c, inBranch, children, i, row))
  }

  lemma StrippedStep(w: World, c: string, inBranch: bool, children: seq<Node>, row: Row, raw: Item, n: nat, before: Item, after: Item)
    requires SortsFilled(children) && n < |children| && SortFilled(children[n])
    requires forall i :: 0 <= i < n ==> children[i].key != children[n].key
    requires StrippedTo(w, c, inBranch, children, row, raw, n, before)
    requires after == if children[n].IsNested() then before[children[n].key := ChildStripped(w, c, inBranch, children, n, row)]
                      else before
    ensures StrippedTo(w, c, inBranch, children, row, raw, n + 1, after)
  {
    hide ChildStripped, SortFilled, SortsFilled, RawNested, StripValue;
    forall i | 0 <= i < n + 1 && children[i].IsNested()
      ensures children[i].key in after && SortFilled(children[i])
      ensures after[children[i].key] == ChildStripped(w, c, inBranch, children, i, row)
    {
      assert i < n ==> children[i].key != children[n].key;
    }
    forall k | !Writes(children, n + 1, k)
      ensures (k in after <==> k in raw) && (k in raw ==> after[k] == raw[k])
    {
      assert !Writes(children, n, k);
      assert children[n].IsNested() ==> children[n].key != k;
    }
  }

  lemma {:induction false} StripRawNested(w: World, c: string, inBranch: bool, children: seq<Node>, extras: set<string>, row: Row, n: nat)
    requires SortsFilled(children) && KeysGood(w, c, children, extras) && n <= |children|
    ensures var raw := RawItem(w, c, children, extras, row);
            StrippedTo(w, c, inBranch, children, row, raw, n, StripNested(w, c, inBranch, children[..n], raw))
  {
    hide RawItem, ChildStripped;
    var raw := RawItem(w, c, children, extras, row);
    if n == 0 {
      assert StripNested(w, c, inBranch, children[..0], raw) == raw;
    } else {
      StripRawNested(w, c, inBranch, children, extras, row, n - 1);
      assert children[..n][..n - 1] == children[..n - 1];
      var before := StripNested(w, c, inBranch, children[..n - 1], raw);
      SortsFilledAt(children, n - 1);
      if children[n - 1].IsNested() {
        StripRawNode(w, c, inBranch, children, extras, row, n - 1, before);
      }
      hide StrippedTo, StripNode;
      StrippedStep(w, c, inBranch, children, row, raw, n - 1, before, StripNested(w, c, inBranch, children[..n], raw));
    }
  }

  /** One node's value, read from the item as the nodes before it left it: the item still has the
      raw value of the node and the collection it belongs to. */
  lemma StripRawNode(w: World, c: string, inBranch: bool, children: seq<Node>, extras: set<string>, row: Row, n: nat, item: Item)
    requires SortsFilled(children) && KeysGood(w, c, children, extras) && n < |children|
    requires children[n].IsNested() && SortFilled(children[n])
    requires StrippedTo(w, c, inBranch, children, row, RawItem(w, c, children, extras, row), n, item)
    ensures StripNode(w, c, inBranch, children[n], item) == ChildStripped(w, c, inBranch, children, n, row)
  {
    hide StripValue, RawNested, Selected;
    var node := children[n];
    var selected := Selected(w, c, children, extras, row);
    OverlayWrites(w, c, children, row, selected, n);
    assert !Writes(children, n, node.key);
    if node.M2O? && FieldTaken(children, n) {
      NullStaysNull(w, node.related, if inBranch then w.Primary(c) else w.Primary(node.related), node.children);
    }
    if node.A2O? {
      assert node.collectionField in Needed(w, c, children, extras);
      SelectedShows(w, c, children, extras, row, node.collectionField);
      OverlayKeeps(w, c, children, row, selected, node.collectionField);
      assert !Writes(children, n, node.collectionField);
    }
  }

  lemma NullStaysNull(w: World, c: string, pk: string, children: seq<Node>)
    ensures StripValue(w, c, pk, false, children, Null) == Null
  {
  }

  // ----- which keys are left -----

  lemma {:induction false} OverlayKeys(w: World, c: string, children: seq<Node>, row: Row, selected: Item)
    requires SortsFilled(children)
    ensures Overlay(w, c, children, row, selected).Keys == selected.Keys + NestedKeys(children)
  {
    hide RawNested;
    if children == [] {
      assert NestedKeys(children) == {};
    } else {
      var front, last := children[..|children| - 1], children[|children| - 1];
      OverlayKeys(w, c, front, row, selected);
      assert NestedKeys(children) == NestedKeys(front) + (if last.IsNested() then {last.key} else {}) by {
        assert children == front + [last];
      }
    }
  }

  /** A stripped item has the keys of the raw one. */
  lemma StrippedHasKeys(w: World, c: string, inBranch: bool, children: seq<Node>, extras: set<string>, row: Row, item: Item)
    requires SortsFilled(children)
    requires StrippedTo(w, c, inBranch, children, row, RawItem(w, c, children, extras, row), |children|, item)
    ensures Pick(item, PickedKeys(inBranch, children)).Keys == LeftKeys(w, c, inBranch, children, extras)
  {
    hide ChildStripped, SelectKeys;
    var selected := Selected(w, c, children, extras, row);
    assert selected.Keys == SelectKeys(w, c, children, extras);
    OverlayKeys(w, c, children, row, selected);
    forall k ensures k in item <==> k in SelectKeys(w, c, children, extras) + NestedKeys(children) {
      if Writes(children, |children|, k) {
        assert k in NestedKeys(children);
      }
    }
  }

  lemma {:induction false} RequestedHasKeys(w: World, c: string, children: seq<Node>, row: Row)
    requires SortsFilled(children)
    ensures RequestedFields(w, c, children, row).Keys == RequestedKeys(w, c, children)
  {
    hide RequestedNested, CountOf;
    if children == [] {
      assert RequestedKeys(w, c, children) == {};
    } else {
      var front, last := children[..|children| - 1], children[|children| - 1];
      RequestedHasKeys(w, c, front, row);
      assert RequestedKeys(w, c, children)
          == RequestedKeys(w, c, front) + (if IsRequested(w, c, last) then {last.key} else {}) by {
        assert children == front + [last];
      }
    }
  }

  /** A requested column is selected exactly when the collection has it. */
  lemma PickedColumn(w: World, c: string, children: seq<Node>, extras: set<string>, row: Row, i: nat)
    requires SortsFilled(children) && KeysGood(w, c, children, extras)
    requires i < |children| && children[i].IsColumn()
    ensures RequestedAs(w, c, children[i], row, RawItem(w, c, children, extras, row))
  {
    var k := children[i].key;
    var selected := Selected(w, c, children, extras, row);
    forall j | 0 <= j < |children| && j != i ensures children[j].key != k {
      assert children[i].key == k;
    }
    OverlayKeeps(w, c, children, row, selected, k);
    NeededAreSelected(w, c, children, i);
    CellForChild(w, c, children, row, i);
    if k in ColumnKeys(w, c, children) {
      ColumnKeysFrom(w, c, children, k);
      var j :| 0 <= j < |children| && ColumnOf(w, c, children[j], k);
    }
  }

  /** Picked under their own keys, exactly the requested ones are left. */
  lemma OwnKeysAreLeft(w: World, c: string, children: seq<Node>, extras: set<string>)
    requires SortsFilled(children) && KeysGood(w, c, children, extras)
    ensures LeftKeys(w, c, false, children, extras) == RequestedKeys(w, c, children)
  {
    var row: Row := map[];
    OverlayKeys(w, c, children, row, Selected(w, c, children, extras, row));
    forall i | 0 <= i < |children|
      ensures children[i].key in LeftKeys(w, c, false, children, extras) <==> IsRequested(w, c, children[i])
    {
      assert PickedKey(false, children[i]) == children[i].key;
      if children[i].IsColumn() {
        PickedColumn(w, c, children, extras, row, i);
      }
    }
    forall k | k in LeftKeys(w, c, false, children, extras) ensures k in RequestedKeys(w, c, children) {
      var i :| 0 <= i < |children| && PickedKey(false, children[i]) == k;
    }
  }

  /** A branch whose columns go by their own names keeps what was requested. */
  lemma OwnNamesAreLeft(w: World, c: string, children: seq<Node>)
    requires SortsFilled(children) && KeysGood(w, c, children, {})
    requires forall i :: 0 <= i < |children| && children[i].Field? ==> children[i].name == children[i].key
    ensures LeftKeys(w, c, true, children, {}) == RequestedKeys(w, c, children)
  {
    OwnKeysAreLeft(w, c, children, {});
    assert forall i :: 0 <= i < |children| ==> PickedKey(true, children[i]) == PickedKey(false, children[i]);
    assert PickedKeys(true, children) == PickedKeys(false, children);
  }

  // ----- what is left of an item -----

  ghost predicate NodesStripped(w: World, c: string, inBranch: bool, children: seq<Node>, row: Row)
    requires SortsFilled(children)
  {
    forall i :: 0 <= i < |children| && children[i].IsNested() && SortFilled(children[i]) ==>
      ChildStripped(w, c, inBranch, children, i, row) == RequestedNested(w, c, children[i], row)
  }

  /** What an item has for one child, picked or not, against what was requested. */
  ghost predicate PickedAsRequested(w: World, c: string, inBranch: bool, children: seq<Node>, row: Row, item: Item, i: nat)
    requires SortsFilled(children) && i < |children|
  {
    var requested := RequestedFields(w, c, children, row);
    var k := children[i].key;
    SortFilled(children[i])
    && if children[i].IsColumn() then
         k in requested ==> k in item && item[k] == requested[k]
       else
         && k in item && item[k] == ChildStripped(w, c, inBranch, children, i, row)
         && k in requested && requested[k] == RequestedNested(w, c, children[i], row)
  }

  lemma PickedChild(w: World, c: string, inBranch: bool, children: seq<Node>, extras: set<string>, row: Row, item: Item, i: nat)
    requires SortsFilled(children) && KeysGood(w, c, children, extras)
    requires StrippedTo(w, c, inBranch, children, row, RawItem(w, c, children, extras, row), |children|, item)
    requires i < |children|
    ensures PickedAsRequested(w, c, inBranch, children, row, item, i)
  {
    hide ChildStripped, RequestedNested, RawItem, RequestedFields;
    var k := children[i].key;
    SortsFilledAt(children, i);
    RequestedShows(w, c, children, row, i);
    if children[i].IsColumn() {
      PickedColumn(w, c, children, extras, row, i);
      forall j | 0 <= j < |children| && children[j].IsNested() ensures children[j].key != k {
        assert i != j;
      }
      assert !Writes(children, |children|, k);
    }
  }

  /** What is picked is what was requested exactly when the keys left are the keys requested and
      every nested value is. */
  lemma PickedIsRequestedIff(w: World, c: string, inBranch: bool, children: seq<Node>, extras: set<string>, row: Row, item: Item)
    requires SortsFilled(children) && KeysGood(w, c, children, extras)
    requires StrippedTo(w, c, inBranch, children, row, RawItem(w, c, children, extras, row), |children|, item)
    ensures Pick(item, PickedKeys(inBranch, children)) == RequestedFields(w, c, children, row)
            <==> LeftKeys(w, c, inBranch, children, extras) == RequestedKeys(w, c, children)
                 && NodesStripped(w, c, inBranch, children, row)
  {
    var picked := Pick(item, PickedKeys(inBranch, children));
    var requested := RequestedFields(w, c, children, row);
    StrippedHasKeys(w, c, inBranch, children, extras, row, item);
    RequestedHasKeys(w, c, children, row);
    forall i | 0 <= i < |children| ensures PickedAsRequested(w, c, inBranch, children, row, item, i) {
      PickedChild(w, c, inBranch, children, extras, row, item, i);
    }
    hide *;
    PickedAgree(w, c, inBranch, children, extras, row, item, picked, requested);
  }

  lemma PickedAgree(w: World, c: string, inBranch: bool, children: seq<Node>, extras: set<string>, row: Row,
                    item: Item, picked: Item, requested: Item)
    requires SortsFilled(children)
    requires picked == Pick(item, PickedKeys(inBranch, children)) && requested == RequestedFields(w, c, children, row)
    requires picked.Keys == LeftKeys(w, c, inBranch, children, extras) && requested.Keys == RequestedKeys(w, c, children)
    requires forall i :: 0 <= i < |children| ==> PickedAsRequested(w, c, inBranch, children, row, item, i)
    ensures picked == requested
            <==> LeftKeys(w, c, inBranch, children, extras) == RequestedKeys(w, c, children)
                 && NodesStripped(w, c, inBranch, children, row)
  {
    hide LeftKeys, RequestedFields, ChildStripped, RequestedNested, PickedKeys;
    if picked.Keys == requested.Keys {
      forall i | 0 <= i < |children| && children[i].IsNested()
        ensures SortFilled(children[i])
        ensures children[i].key in picked
        ensures picked[children[i].key] == ChildStripped(w, c, inBranch, children, i, row)
      {
        assert PickedAsRequested(w, c, inBranch, children, row, item, i);
      }
      if NodesStripped(w, c, inBranch, children, row) {
        forall k | k in requested ensures picked[k] == requested[k] {
          var i :| 0 <= i < |children| && IsRequested(w, c, children[i]) && children[i].key == k;
          assert PickedAsRequested(w, c, inBranch, children, row, item, i);
          assert k in picked;
        }
      } else {
        var i :| 0 <= i < |children| && children[i].IsNested() && SortFilled(children[i])
                 && ChildStripped(w, c, inBranch, children, i, row) != RequestedNested(w, c, children[i], row);
        assert PickedAsRequested(w, c, inBranch, children, row, item, i);
      }
    }
  }

  /** A raw value of one level, stripped, is the requested value exactly when the keys left are the
      keys requested and every nested value is. */
  lemma StripRawIff(w: World, c: string, pk: string, inBranch: bool, children: seq<Node>, extras: set<string>, row: Row)
    requires SortsFilled(children) && KeysGood(w, c, children, extras) && children != []
    ensures StripItem(w, c, pk, inBranch, children, RawItem(w, c, children, extras, row)) == Requested(w, c, children, row)
            <==> LeftKeys(w, c, inBranch, children, extras) == RequestedKeys(w, c, children)
                 && NodesStripped(w, c, inBranch, children, row)
  {
    hide RawItem, StrippedTo, LeftKeys, RequestedKeys, NodesStripped, StripNested, KeysGood, RequestedFields;
    StripRawNested(w, c, inBranch, children, extras, row, |children|);
    assert children[..|children|] == children;
    PickedIsRequestedIff(w, c, inBranch, children, extras, row,
                         StripNested(w, c, inBranch, children, RawItem(w, c, children, extras, row)));
  }

  // ----- at every depth -----

  /** A raw value of one level, stripped, is the requested value exactly when the row is intact. */
  lemma {:induction false} StrippedIffIntact(w: World, c: string, pk: string, inBranch: bool, children: seq<Node>, extras: set<string>, row: Row)
    requires Sound(w) && SortsFilled(children) && Good(w, c, children, extras)
    requires children != [] || (pk == w.Primary(c) && !inBranch)
    requires inBranch ==> extras == {}
    ensures StripItem(w, c, pk, inBranch, children, RawItem(w, c, children, extras, row)) == Requested(w, c, children, row)
            <==> Intact(w, c, inBranch, children, row)
    decreases children, 3
  {
    hide RawItem, StripNested, NodeStripped, RequestedNested, RelatedRow, LeftKeys, RequestedKeys, NodeGood, NodeIntact, Sound;
    if children == [] {
      RawShowsPrimary(w, c, children, extras, row);
    } else {
      if !inBranch {
        OwnKeysAreLeft(w, c, children, extras);
      }
      forall i | 0 <= i < |children| && children[i].IsNested() && SortFilled(children[i])
        ensures ChildStripped(w, c, inBranch, children, i, row) == RequestedNested(w, c, children[i], row)
                <==> if FieldTaken(children, i) then
                       RelatedRow(w, children[i].related, children[i].query, Cell(row, children[i].field)).None?
                     else NodeIntact(w, c, inBranch, children[i], row)
      {
        if FieldTaken(children, i) {
          NullIsRequestedIff(w, c, children[i], row);
        } else {
          NodeStrippedIffIntact(w, c, inBranch, children[i], row);
        }
      }
      StripRawIff(w, c, pk, inBranch, children, extras, row);
    }
  }

  /** A many-to-one node requests null exactly when there is no related row. */
  lemma NullIsRequestedIff(w: World, c: string, node: Node, row: Row)
    requires Sound(w) && node.M2O? && SortFilled(node)
    ensures RequestedNested(w, c, node, row) == Null
            <==> RelatedRow(w, node.related, node.query, Cell(row, node.field)).None?
  {
    var r := RelatedRow(w, node.related, node.query, Cell(row, node.field));
    if r.Some? && node.children == [] {
      hide RelatedRow;
      RelatedRowIsRelated(w, node.related, node.query, Cell(row, node.field));
      KeyIsScalar(w, node.related, r.value);
    }
  }

  /** The same for every item of a list. */
  lemma {:induction false} StrippedAllIffIntact(w: World, c: string, children: seq<Node>, extras: set<string>, rows: seq<Row>)
    requires Sound(w) && SortsFilled(children) && Good(w, c, children, extras)
    ensures Null !in RawAll(w, c, children, extras, rows)
    ensures forall i :: 0 <= i < |rows| ==>
              (StripEach(w, c, w.Primary(c), false, children, RawAll(w, c, children, extras, rows))[i]
               == RequestedAll(w, c, children, rows)[i]
               <==> Intact(w, c, false, children, rows[i]))
    decreases children, 4
  {
    hide RawItem, Requested, Intact, StripItem, Sound, Good;
    forall i | 0 <= i < |rows|
      ensures StripItem(w, c, w.Primary(c), false, children, RawItem(w, c, children, extras, rows[i]))
              == Requested(w, c, children, rows[i])
              <==> Intact(w, c, false, children, rows[i])
    {
      StrippedIffIntact(w, c, w.Primary(c), false, children, extras, rows[i]);
    }
  }

  /** A nested value, stripped, is what was requested exactly when the node is intact. */
  lemma {:induction false} NodeStrippedIffIntact(w: World, c: string, inBranch: bool, node: Node, row: Row)
    requires Sound(w) && node.IsNested() && SortFilled(node) && NodeGood(w, c, node)
    ensures NodeStripped(w, c, inBranch, node, row) == RequestedNested(w, c, node, row)
            <==> NodeIntact(w, c, inBranch, node, row)
    decreases node, 2
  {
    hide NodeStripped, RequestedNested, NodeIntact, NodeGood, Sound;
    match node {
      case M2O(_, _, _, _, _) =>
        M2OStrippedIffIntact(w, c, inBranch, node, row);
      case O2M(_, _, _, _, _, _) =>
        O2MStrippedIffIntact(w, c, inBranch, node, row);
      case A2O(_, _, _, _) =>
        A2OStrippedIffIntact(w, c, inBranch, node, row);
    }
  }

  lemma {:induction false} M2OStrippedIffIntact(w: World, c: string, inBranch: bool, node: Node, row: Row)
    requires Sound(w) && node.M2O? && SortFilled(node) && NodeGood(w, c, node)
    ensures NodeStripped(w, c, inBranch, node, row) == RequestedNested(w, c, node, row)
            <==> NodeIntact(w, c, inBranch, node, row)
    decreases node, 1
  {
    hide Good, RawItem, RelatedRow, RequestedFields, StripNested, Sound, Intact;
    var r := RelatedRow(w, node.related, node.query, Cell(row, node.field));
    var pk := if inBranch then w.Primary(c) else w.Primary(node.related);
    if r.Some? {
      if node.children == [] {
        BareIsReadBy(w, node.related, node.query, Cell(row, node.field), pk);
      } else {
        StrippedIffIntact(w, node.related, pk, false, node.children, {}, r.value);
      }
    }
  }

  /** An item of which nothing is requested, read under some name: its primary key is there under its
      own name only. */
  lemma BareIsReadBy(w: World, c: string, q: Query, v: Value, pk: string)
    requires Sound(w) && RelatedRow(w, c, q, v).Some?
    ensures var row := RelatedRow(w, c, q, v).value;
            StripItem(w, c, pk, false, [], RawItem(w, c, [], {}, row)) == StripItem(w, c, pk, true, [], RawItem(w, c, [], {}, row))
            && (StripItem(w, c, pk, false, [], RawItem(w, c, [], {}, row)) == Requested(w, c, [], row) <==> pk == w.Primary(c))
  {
    hide RelatedRow;
    var row := RelatedRow(w, c, q, v).value;
    RelatedRowIsRelated(w, c, q, v);
    KeyIsScalar(w, c, row);
    BareBranch(w, c, row);
  }

  lemma {:induction false} O2MStrippedIffIntact(w: World, c: string, inBranch: bool, node: Node, row: Row)
    requires Sound(w) && node.O2M? && SortFilled(node) && NodeGood(w, c, node)
    ensures NodeStripped(w, c, inBranch, node, row) == RequestedNested(w, c, node, row)
            <==> NodeIntact(w, c, inBranch, node, row)
    decreases node, 1
  {
    hide Good, RawItem, LinkedRows, WayBackShows, Requested, StripItem, Sound, Intact;
    var key := Cell(row, w.Primary(c));
    var merged := MergedRows(w, node, key);
    StrippedAllIffIntact(w, node.related, node.children, Extras(node), merged);
    var stripped := StripEach(w, node.related, w.Primary(node.related), false, node.children,
                              RawAll(w, node.related, node.children, Extras(node), merged));
    assert NodeStripped(w, c, inBranch, node, row) == Arr(stripped);
    if WayBackShows(w, node, key) {
      var requested := RequestedAll(w, node.related, node.children, merged);
      assert stripped == requested <==> forall i :: 0 <= i < |merged| ==> stripped[i] == requested[i];
    } else {
      assert stripped == [];
    }
  }

  lemma {:induction false} A2OStrippedIffIntact(w: World, c: string, inBranch: bool, node: Node, row: Row)
    requires Sound(w) && node.A2O? && SortFilled(node) && NodeGood(w, c, node)
    ensures NodeStripped(w, c, inBranch, node, row) == RequestedNested(w, c, node, row)
            <==> NodeIntact(w, c, inBranch, node, row)
    decreases node, 1
  {
    hide Good, RawItem, RelatedRow, RequestedFields, StripNested, Sound, Intact, NodeGood;
    var b := BranchFor(node.branches, Cell(row, node.collectionField));
    if b.Some? {
      BranchGood(w, c, node, Cell(row, node.collectionField));
      var r := RelatedRow(w, b.value.collection, b.value.query, Cell(row, node.field));
      if r.Some? && b.value.children == [] {
        BareIsReadBy(w, b.value.collection, b.value.query, Cell(row, node.field), w.Primary(c));
      } else if r.Some? {
        StrippedIffIntact(w, b.value.collection, w.Primary(c), true, b.value.children, {}, r.value);
      }
    }
  }

  lemma BranchGood(w: World, c: string, node: Node, v: Value)
    requires node.A2O? && SortFilled(node) && NodeGood(w, c, node)
    ensures var b := BranchFor(node.branches, v);
            b.Some? ==> b.value in node.branches && SortsFilled(b.value.children)
                        && Good(w, b.value.collection, b.value.children, {})
  {
    hide Good;
    var b := BranchFor(node.branches, v);
    if b.Some? {
      var i :| 0 <= i < |node.branches| && node.branches[i] == b.value;
    }
  }

  lemma BareBranch(w: World, c: string, row: Row)
    ensures RawItem(w, c, [], {}, row) == map[w.Primary(c) := Cell(row, w.Primary(c))]
  {
    assert SelectKeys(w, c, [], {}) == {w.Primary(c)};
  }

  // ----- what no strip lets through -----

  /** Whatever the item, nothing is left at a level but under the names its children are picked by:
      their keys, and in a branch the names of its columns. */
  lemma NothingElseIsLeft(w: World, c: string, pk: string, inBranch: bool, children: seq<Node>, item: Item)
    requires children != []
    ensures var r := StripItem(w, c, pk, inBranch, children, item);
            r.Obj? && r.fields.Keys <= PickedKeys(inBranch, children)
  {
  }
}
