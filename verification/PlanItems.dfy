/** Taking apart a built chunk gives back exactly the items it was built from. */
module PlanItems {
  import opened Basics
  import opened Errors
  import opened Messages
  import opened Batching

  predicate SameKind(a: Item, b: Item) {
    && a.KeyItem? == b.KeyItem? && a.OrderedKeyItem? == b.OrderedKeyItem?
    && a.ValueItem? == b.ValueItem? && a.OrderedValueItem? == b.OrderedValueItem?
    && a.MapItem? == b.MapItem?
  }

  /** The shape every list of items taken from a request has: one kind, or keys before values. */
  ghost predicate WellShaped(r: Request, items: seq<Item>) {
    && AcceptsAll(r, items)
    && (r.CreateContainer? || r.AddTo? ==> forall i, j :: 0 <= i < j < |items| ==> SameKind(items[i], items[j]))
    && (r.RemoveFrom? ==> forall i, j :: 0 <= i < j < |items| && items[j].KeyItem? ==> items[i].KeyItem?)
  }

  lemma ItemsWellShaped(r: Request)
    requires ItemsOf(r).Success?
    ensures WellShaped(Cleared(r), ItemsOf(r).value)
  {
  }

  lemma SliceWellShaped(r: Request, items: seq<Item>, s: nat, e: nat)
    requires WellShaped(r, items) && s <= e <= |items|
    ensures WellShaped(r, items[s..e])
  {
  }

  /** Appending to one list of a collection request appends one item. */
  lemma PushToLists(l: Lists, items: seq<Item>, item: Item)
    requires ListItems(l) == Success(items)
    requires forall i :: 0 <= i < |items| ==> SameKind(items[i], item)
    ensures ListItems(AppendToLists(l, item)) == Success(items + [item])
  {
    var l' := AppendToLists(l, item);
    if items == [] {
      assert l == NO_ITEMS;
    } else {
      assert SameKind(items[0], item);
    }
    assert ListItems(l').Success?;
    assert |ListItems(l').value| == |items| + 1;
    assert ListItems(l').value == items + [item];
  }

  lemma PushItem(r: Request, items: seq<Item>, item: Item)
    requires ItemsOf(r) == Success(items) && WellShaped(r, items + [item]) && Accepts(r, item)
    ensures ItemsOf(Append(r, item)) == Success(items + [item])
  {
    var all := items + [item];
    assert all[|items|] == item && all[..|items|] == items;
    match r
    case CreateContainer(_, _, _, _, lists) =>
      assert forall i :: 0 <= i < |items| ==> SameKind(all[i], all[|items|]);
      PushToLists(lists, items, item);
    case AddTo(_, _, _, _, lists) =>
      assert forall i :: 0 <= i < |items| ==> SameKind(all[i], all[|items|]);
      PushToLists(lists, items, item);
    case AddToVal(_, _, _, _, value) =>
      assert ValueItems(value + [item.value]) == all;
    case RemoveFrom(_, _, values, keys) =>
      if item.KeyItem? {
        if items != [] {
          assert items[|items| - 1].KeyItem? <==> values == [];
          assert SameKind(all[|items| - 1], items[|items| - 1]);
        }
        assert KeyItems(keys + [item.key]) + ValueItems(values) == all;
      } else {
        assert KeyItems(keys) + ValueItems(values + [item.value]) == all;
      }
  }

  lemma AppendAllStep(h: Request, items: seq<Item>)
    requires IsHeader(h) && WellShaped(h, items)
    ensures AcceptsAll(h, items) && Cleared(h) == h
    ensures items == [] ==> AppendAll(h, items) == h
    ensures items != [] ==>
              var n := |items| - 1;
              AcceptsAll(h, items[..n]) && Accepts(AppendAll(h, items[..n]), items[n])
              && AppendAll(h, items) == Append(AppendAll(h, items[..n]), items[n])
  {
  }

  lemma HeaderIsEmpty(h: Request)
    requires IsHeader(h)
    ensures ItemsOf(h) == Success([])
  {
    match h
    case CreateContainer(_, _, _, _, lists) => assert lists == NO_ITEMS;
    case AddTo(_, _, _, _, lists) => assert lists == NO_ITEMS;
    case AddToVal(_, _, _, _, value) => assert |ValueItems(value)| == 0;
    case RemoveFrom(_, _, values, keys) => assert |KeyItems(keys) + ValueItems(values)| == 0;
  }

  lemma {:induction false} BuiltItems(h: Request, items: seq<Item>)
    requires IsHeader(h) && WellShaped(h, items)
    ensures ItemsOf(AppendAll(h, items)) == Success(items)
    ensures Cleared(AppendAll(h, items)) == h
  {
    hide *;
    AppendAllStep(h, items);
    if items == [] {
      HeaderIsEmpty(h);
      return;
    }
    var n := |items| - 1;
    SliceWellShaped(h, items, 0, n);
    BuiltItems(h, items[..n]);
    var r := AppendAll(h, items[..n]);
    assert items[..n] + [items[n]] == items;
    SameShape(h, r, items);
    AppendKeepsHeader(r, items[n]);
    PushItem(r, items[..n], items[n]);
  }

  lemma AppendKeepsHeader(r: Request, item: Item)
    requires Accepts(r, item)
    ensures Cleared(Append(r, item)) == Cleared(r)
  {
  }

  lemma SameShape(h: Request, r: Request, items: seq<Item>)
    requires Cleared(r) == h && WellShaped(h, items)
    ensures WellShaped(r, items)
    ensures items != [] ==> Accepts(r, items[|items| - 1])
  {
    forall item <- items
      ensures Accepts(r, item)
    {
      assert Accepts(h, item);
    }
  }

  /** And the other way round: filling the cleared request with its own items restores it. */
  lemma Rebuilt(r: Request)
    requires ItemsOf(r).Success?
    ensures AcceptsAll(Cleared(r), ItemsOf(r).value)
    ensures AppendAll(Cleared(r), ItemsOf(r).value) == r
  {
    ItemsWellShaped(r);
    var items := ItemsOf(r).value;
    var a := AppendAll(Cleared(r), items);
    BuiltItems(Cleared(r), items);
    SameItemsSameRequest(a, r);
  }

  lemma SameListItems(a: Lists, b: Lists)
    requires ListItems(a).Success? && ListItems(a) == ListItems(b)
    ensures a == b
  {
    var items := ListItems(a).value;
    if items == [] {
      return;
    }
    match items[0] {
      case KeyItem(_) =>
        assert forall i :: 0 <= i < |items| ==>
                 items[i] == KeyItem(a.keyUnordered[i]) && items[i] == KeyItem(b.keyUnordered[i]);
      case OrderedKeyItem(_) =>
        assert forall i :: 0 <= i < |items| ==>
                 items[i] == OrderedKeyItem(a.keyOrdered[i]) && items[i] == OrderedKeyItem(b.keyOrdered[i]);
      case ValueItem(_) =>
        assert forall i :: 0 <= i < |items| ==>
                 items[i] == ValueItem(a.valueUnordered[i]) && items[i] == ValueItem(b.valueUnordered[i]);
      case OrderedValueItem(_) =>
        assert forall i :: 0 <= i < |items| ==>
                 items[i] == OrderedValueItem(a.valueOrdered[i]) && items[i] == OrderedValueItem(b.valueOrdered[i]);
      case MapItem(_, _) =>
        assert forall i :: 0 <= i < |items| ==>
                 items[i] == MapItem(a.keyUnordered[i], a.valueUnordered[i])
                 && items[i] == MapItem(b.keyUnordered[i], b.valueUnordered[i]);
      case OrderedMapItem(_, _) =>
        assert forall i :: 0 <= i < |items| ==>
                 items[i] == OrderedMapItem(a.keyOrdered[i], a.valueUnordered[i])
                 && items[i] == OrderedMapItem(b.keyOrdered[i], b.valueUnordered[i]);
    }
  }

  /** A request is determined by its header and its items. */
  lemma SameItemsSameRequest(a: Request, b: Request)
    requires Cleared(a) == Cleared(b)
    requires ItemsOf(a).Success? && ItemsOf(a) == ItemsOf(b)
    ensures a == b
  {
    match a
    case CreateContainer(_, _, _, _, lists) => SameListItems(lists, b.lists);
    case AddTo(_, _, _, _, lists) => SameListItems(lists, b.lists);
    case AddToVal(_, _, _, _, value) =>
      assert forall i :: 0 <= i < |value| ==>
               ValueItems(value)[i] == ValueItem(value[i]) && ValueItems(b.value)[i] == ValueItem(b.value[i]);
      assert value == b.value;
    case RemoveFrom(_, _, values, keys) =>
      SameRemovals(keys, values, b.keys, b.values);
  }

  lemma SameRemovals(ks: seq<Key>, vs: seq<Value>, ks': seq<Key>, vs': seq<Value>)
    requires KeyItems(ks) + ValueItems(vs) == KeyItems(ks') + ValueItems(vs')
    ensures ks == ks' && vs == vs'
  {
    var a, b := KeyItems(ks) + ValueItems(vs), KeyItems(ks') + ValueItems(vs');
    var m := if |ks| < |ks'| then |ks| else |ks'|;
    if m < |a| {
      assert a[m].KeyItem? <==> m < |ks|;
      assert b[m].KeyItem? <==> m < |ks'|;
    }
    assert forall i :: 0 <= i < |ks| ==> a[i] == KeyItem(ks[i]) && b[i] == KeyItem(ks'[i]);
    assert forall i :: 0 <= i < |vs| ==> a[|ks| + i] == ValueItem(vs[i]) && b[|ks| + i] == ValueItem(vs'[i]);
  }

  /** Exactly one list is used, or none, or keys of one kind are paired with unordered values. */
  predicate Itemizable(l: Lists) {
    || (l.keyOrdered == [] && l.valueUnordered == [] && l.valueOrdered == [])
    || (l.keyUnordered == [] && l.valueUnordered == [] && l.valueOrdered == [])
    || (l.keyUnordered == [] && l.keyOrdered == [] && l.valueOrdered == [])
    || (l.keyUnordered == [] && l.keyOrdered == [] && l.valueUnordered == [])
    || PairedUnordered(l) || PairedOrdered(l)
  }

  predicate PairedUnordered(l: Lists) {
    && l.keyUnordered != [] && l.valueUnordered != [] && l.keyOrdered == [] && l.valueOrdered == []
    && |l.keyUnordered| == |l.valueUnordered|
  }

  predicate PairedOrdered(l: Lists) {
    && l.keyOrdered != [] && l.valueUnordered != [] && l.keyUnordered == [] && l.valueOrdered == []
    && |l.keyOrdered| == |l.valueUnordered|
  }

  /** Item i of the lists: pair i, or element i of the one list that is used. */
  predicate IsListItem(l: Lists, i: nat, item: Item) {
    if PairedUnordered(l) then
      i < |l.keyUnordered| && item == MapItem(l.keyUnordered[i], l.valueUnordered[i])
    else if PairedOrdered(l) then
      i < |l.keyOrdered| && item == OrderedMapItem(l.keyOrdered[i], l.valueUnordered[i])
    else
      || (i < |l.keyUnordered| && item == KeyItem(l.keyUnordered[i]))
      || (i < |l.keyOrdered| && item == OrderedKeyItem(l.keyOrdered[i]))
      || (i < |l.valueUnordered| && item == ValueItem(l.valueUnordered[i]))
      || (i < |l.valueOrdered| && item == OrderedValueItem(l.valueOrdered[i]))
  }

  /** The items of a collection request, and exactly when there are any to speak of. */
  lemma ListItemsAre(l: Lists)
    ensures ListItems(l).Success? <==> Itemizable(l)
    ensures ListItems(l) == Failure(UnequalLengths) <==>
              && l.valueOrdered == [] && l.valueUnordered != []
              && ((l.keyUnordered != [] && l.keyOrdered == [] && |l.keyUnordered| != |l.valueUnordered|)
                  || (l.keyOrdered != [] && l.keyUnordered == [] && |l.keyOrdered| != |l.valueUnordered|))
    ensures Itemizable(l) ==>
              var items := ListItems(l).value;
              && (forall i :: 0 <= i < |items| ==> IsListItem(l, i, items[i]))
              && |items| == (if PairedUnordered(l) then |l.keyUnordered|
                             else if PairedOrdered(l) then |l.keyOrdered|
                             else |l.keyUnordered| + |l.keyOrdered| + |l.valueUnordered| + |l.valueOrdered|)
  {
  }

  /** The items of the other requests: the values in order, or first the removed keys and then the removed values. */
  lemma OtherItemsAre(r: Request)
    requires r.AddToVal? || r.RemoveFrom?
    ensures ItemsOf(r).Success?
    ensures var items := ItemsOf(r).value;
            if r.AddToVal? then
              |items| == |r.value| && forall i :: 0 <= i < |items| ==> items[i] == ValueItem(r.value[i])
            else
              && |items| == |r.keys| + |r.values|
              && forall i :: 0 <= i < |items| ==>
                   items[i] == if i < |r.keys| then KeyItem(r.keys[i]) else ValueItem(r.values[i - |r.keys|])
  {
  }
}
