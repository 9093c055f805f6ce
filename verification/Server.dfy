/**
 The assumed server, spelled out: what a request with one element does to a sequence, and what
 any number of items leaves in a set, a map or a weighted set. Together with the theorems that
 doing items in parts is doing them at once, this says what every request does.
 */
module Server {
  import opened Basics
  import opened Wire
  import opened Messages
  import opened Batching
  import opened Containers
  import opened Creations

  /** The request adds the one element to the sequence: at the end, at the front or where it says. */
  lemma OneElement(header: Request, v: Value, xs: seq<Bytes>)
    requires header.AddTo?
    ensures var item, b := ValueItem(v), v.value.bytes;
            && ApplyItems(AddElementToTail, header, [item], Sequence(xs)) == Sequence(xs + [b])
            && ApplyItems(AddElementToHead, header, [item], Sequence(xs)) == Sequence([b] + xs)
            && ApplyItems(AddElement, header, [item], Sequence(xs))
               == (if header.pos.None? || header.pos.value == 0xFFFF_FFFF then Sequence(xs + [b])
                   else if header.pos.value <= |xs| then
                     Sequence(xs[..header.pos.value] + [b] + xs[header.pos.value..])
                   else Sequence(xs))
  {
    OneValue(v);
    assert Reverse([v.value.bytes]) == [v.value.bytes];
    hide Elements;
  }

  lemma OneValue(v: Value)
    ensures Elements([ValueItem(v)]) == [v.value.bytes]
  {
    assert [ValueItem(v)][1..] == [] && Elements([ValueItem(v)][1..]) == [];
    assert Element([ValueItem(v)][0]) == [v.value.bytes];
  }

  /** Insertion by value acts beside the first occurrence of the pivot. */
  lemma BesidePivot(header: Request, v: Value, left: seq<Bytes>, right: seq<Bytes>)
    requires header.AddToVal? && header.pivot.value.bytes !in left
    ensures var item, b, p := ValueItem(v), v.value.bytes, header.pivot.value.bytes;
            && ApplyItems(AddByValue, header, [item], Sequence(left)) == Sequence(left)
            && ApplyItems(AddByValue, header, [item], Sequence(left + [p] + right))
               == Sequence(if header.isBefore then left + [b] + [p] + right else left + [p] + [b] + right)
  {
    var p := header.pivot.value.bytes;
    OneValue(v);
    var xs := left + [p] + right;
    assert xs[..|left|] == left && xs[|left|] == p;
    assert xs[..|left| + 1] == left + [p] && xs[|left|..] == [p] + right && xs[|left| + 1..] == right;
    IndexOfIs(xs, p, |left|);
    assert left[..|left|] == left;
    IndexOfIs(left, p, |left|);
    hide IndexOf, Elements;
    assert left + [v.value.bytes] + ([p] + right) == left + [v.value.bytes] + [p] + right;
  }

  // ---------- sets and maps ----------

  lemma AddLast(c: Container, items: seq<Item>)
    requires items != []
    ensures AddEach(c, items) == AddOne(AddEach(c, items[..|items| - 1]), items[|items| - 1])
  {
    var n := |items| - 1;
    AddEachAppend(c, items[..n], items[n..]);
    assert items == items[..n] + items[n..] && items[n..] == [items[n]];
    AddSingle(AddEach(c, items[..n]), items[n]);
  }

  lemma AddSingle(c: Container, item: Item)
    ensures AddEach(c, [item]) == AddOne(c, item)
  {
    assert [item][1..] == [] && AddEach(AddOne(c, item), [item][1..]) == AddOne(c, item);
  }

  function Get<K, V>(m: map<K, V>, key: K): Option<V> {
    if key in m then Some(m[key]) else None
  }

  /** What the last pair with this key writes, if there is one. */
  function Written(items: seq<Item>, key: Bytes): Option<Bytes> {
    if items == [] then None
    else
      var last := items[|items| - 1];
      if last.MapItem? && last.key.payload.bytes == key then Some(last.value.value.bytes)
      else Written(items[..|items| - 1], key)
  }

  /** In a map the last pair written for a key counts, and other keys are left alone. */
  lemma {:induction false} MapHolds(m: map<Bytes, Bytes>, items: seq<Item>, key: Bytes)
    ensures var c, written := AddEach(Mapping(m), items), Written(items, key);
            c.Mapping? && Get(c.entries, key) == if written.Some? then written else Get(m, key)
    decreases |items|
  {
    hide AddEach;
    if items != [] {
      AddLast(Mapping(m), items);
      MapHolds(m, items[..|items| - 1], key);
    } else {
      AddNothing(Mapping(m));
    }
  }

  lemma AddNothing(c: Container)
    ensures AddEach(c, []) == c
  {
  }

  /** What the last pair with this key and weight writes; the weight is zero when it is not sent. */
  function WrittenOrdered(items: seq<Item>, key: Bytes, weight: nat): Option<Bytes> {
    if items == [] then None
    else
      var last := items[|items| - 1];
      if && last.OrderedMapItem? && last.orderedKey.payload.bytes == key
         && (if last.orderedKey.order.Some? then last.orderedKey.order.value else 0) == weight
      then Some(last.value.value.bytes)
      else WrittenOrdered(items[..|items| - 1], key, weight)
  }

  /** The same for an ordered map, whose keys are told apart by their weight too. */
  lemma {:induction false} OrderedMapHolds(m: map<(Bytes, nat), Bytes>, items: seq<Item>, key: Bytes, weight: nat)
    ensures var c, written := AddEach(OrderedMapping(m), items), WrittenOrdered(items, key, weight);
            && c.OrderedMapping?
            && Get(c.sorted, (key, weight)) == if written.Some? then written else Get(m, (key, weight))
    decreases |items|
  {
    hide AddEach;
    if items != [] {
      AddLast(OrderedMapping(m), items);
      OrderedMapHolds(m, items[..|items| - 1], key, weight);
    } else {
      AddNothing(OrderedMapping(m));
    }
  }

  predicate Adds(item: Item, b: Bytes) {
    item.ValueItem? && item.value.value.bytes == b
  }

  /** A set holds what it held and what was added. */
  lemma {:induction false} SetHolds(s: set<Bytes>, items: seq<Item>, b: Bytes)
    ensures var c := AddEach(Members(s), items);
            c.Members? && (b in c.elements <==> b in s || exists i :: 0 <= i < |items| && Adds(items[i], b))
    decreases |items|
  {
    if items != [] {
      var n := |items| - 1;
      AddLast(Members(s), items);
      SetHolds(s, items[..n], b);
      hide AddEach;
      assert items[..n] + [items[n]] == items;
      assert (exists i :: 0 <= i < |items| && Adds(items[i], b)) <==>
               (exists i :: 0 <= i < n && Adds(items[..n][i], b)) || Adds(items[n], b) by {
        if i :| 0 <= i < n && Adds(items[..n][i], b) {
          assert Adds(items[i], b);
        }
        if i :| 0 <= i < |items| && Adds(items[i], b) {
          assert i < n ==> Adds(items[..n][i], b);
        }
      }
    }
  }

  /** The last weight given to this element, if there is one; it is zero when it is not sent. */
  function Weighed(items: seq<Item>, b: Bytes): Option<nat> {
    if items == [] then None
    else
      var last := items[|items| - 1];
      if last.OrderedValueItem? && last.orderedValue.value.bytes == b then
        Some(if last.orderedValue.order.Some? then last.orderedValue.order.value else 0)
      else Weighed(items[..|items| - 1], b)
  }

  /** In a weighted set the last weight given to an element counts. */
  lemma {:induction false} WeightsHold(w: map<Bytes, nat>, items: seq<Item>, b: Bytes)
    ensures var c, weighed := AddEach(Weighted(w), items), Weighed(items, b);
            c.Weighted? && Get(c.weights, b) == if weighed.Some? then weighed else Get(w, b)
    decreases |items|
  {
    hide AddEach;
    if items != [] {
      AddLast(Weighted(w), items);
      WeightsHold(w, items[..|items| - 1], b);
    } else {
      AddNothing(Weighted(w));
    }
  }

  // ---------- removal ----------

  /** One removal: the first occurrence in a sequence, the element of a set, the entry of a map. */
  lemma RemovesOne(left: seq<Bytes>, right: seq<Bytes>, v: Value, k: Key, s: set<Bytes>, m: map<Bytes, Bytes>,
                   w: map<Bytes, nat>, key: (Bytes, nat), o: map<(Bytes, nat), Bytes>)
    requires v.value.bytes !in left
    ensures RemoveOne(Sequence(left + [v.value.bytes] + right), ValueItem(v)) == Sequence(left + right)
    ensures RemoveOne(Sequence(left), ValueItem(v)) == Sequence(left)
    ensures RemoveOne(Members(s), ValueItem(v)) == Members(s - {v.value.bytes})
    ensures RemoveOne(Weighted(w), ValueItem(v)) == Weighted(w - {v.value.bytes})
    ensures RemoveOne(Mapping(m), KeyItem(k)) == Mapping(m - {k.payload.bytes})
    ensures var c := RemoveOne(OrderedMapping(o), KeyItem(k));
            c.OrderedMapping? && (key in c.sorted <==> key in o && key.0 != k.payload.bytes)
            && (key in c.sorted ==> c.sorted[key] == o[key])
  {
    var xs := left + [v.value.bytes] + right;
    assert xs[..|left|] == left && xs[|left|] == v.value.bytes && xs[|left| + 1..] == right;
    IndexOfIs(xs, v.value.bytes, |left|);
    assert left[..|left|] == left;
    IndexOfIs(left, v.value.bytes, |left|);
    hide IndexOf;
  }

  // ---------- containers by type ----------

  /** The type numbers of the interface, and the container each of them creates. */
  lemma ContainerOfType(kind: nat)
    requires 1 <= kind <= 7
    ensures VECTOR == 1 && LIST == 2 && QUEUE == 3 && SET == 4 && MAP == 5 && ORDERED_MAP == 6 && ORDERED_SET == 7
    ensures kind <= 3 ==> EmptyContainer(kind) == Sequence([]) && ContinuationRpc(kind) == AddElementToTail
    ensures kind > 3 ==> ContinuationRpc(kind) == AddElement
    ensures kind == 4 ==> EmptyContainer(kind) == Members({})
    ensures kind == 5 ==> EmptyContainer(kind) == Mapping(map[])
    ensures kind == 6 ==> EmptyContainer(kind) == OrderedMapping(map[])
    ensures kind == 7 ==> EmptyContainer(kind) == Weighted(map[])
    ensures IsSequenceKind(kind) <==> kind <= 3
  {
  }
}
