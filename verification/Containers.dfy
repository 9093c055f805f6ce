/**
 The abstract server: what one insertion or removal request does to a container. This is an
 assumption about the service, taken from its interface description and its live parity test:
 tail appends, head pushes one element at a time, a position inserts before that index (the
 sentinel and an absent position append), and relative insertion acts on the first
 occurrence of the pivot. A request that does not apply leaves the container unchanged.
 */
module Containers {
  import opened Basics
  import opened Wire
  import opened Messages
  import opened Batching

  datatype Container =
    | Sequence(xs: seq<Bytes>)                           // LIST, VECTOR, QUEUE
    | Members(elements: set<Bytes>)                      // SET
    | Mapping(entries: map<Bytes, Bytes>)                // MAP
    | OrderedMapping(sorted: map<(Bytes, nat), Bytes>)   // ORDERED_MAP
    | Weighted(weights: map<Bytes, nat>)                 // ORDERED_SET

  datatype Rpc = AddElement | AddElementToTail | AddElementToHead | AddByValue | RemoveByKeyValue

  // ---------- sequences ----------

  function IndexOf<T(==)>(xs: seq<T>, x: T): (i: nat)
    ensures i <= |xs| && x !in xs[..i] && (i < |xs| ==> xs[i] == x)
  {
    if xs == [] || xs[0] == x then 0 else 1 + IndexOf(xs[1..], x)
  }

  function InsertAt<T>(xs: seq<T>, pos: nat, vs: seq<T>): seq<T> {
    if pos == UINT32_MAX then xs + vs
    else if pos <= |xs| then xs[..pos] + vs + xs[pos..]
    else xs
  }

  function InsertBefore<T(==)>(xs: seq<T>, pivot: T, vs: seq<T>): seq<T> {
    var i := IndexOf(xs, pivot);
    if i < |xs| then xs[..i] + vs + xs[i..] else xs
  }

  function InsertAfter<T(==)>(xs: seq<T>, pivot: T, vs: seq<T>): seq<T> {
    var i := IndexOf(xs, pivot);
    if i < |xs| then xs[..i + 1] + vs + xs[i + 1..] else xs
  }

  // ---------- items ----------

  /** What an item contributes to a sequence. */
  function Element(item: Item): seq<Bytes> {
    if item.ValueItem? then [item.value.value.bytes] else []
  }

  function Elements(items: seq<Item>): seq<Bytes> {
    if items == [] then [] else Element(items[0]) + Elements(items[1..])
  }

  function Weight(order: Option<nat>): nat {
    if order.None? then 0 else order.value
  }

  function AddOne(c: Container, item: Item): Container {
    match (c, item)
    case (Members(s), ValueItem(v)) => Members(s + {v.value.bytes})
    case (Mapping(m), MapItem(k, v)) => Mapping(m[k.payload.bytes := v.value.bytes])
    case (OrderedMapping(m), OrderedMapItem(k, v)) =>
      OrderedMapping(m[(k.payload.bytes, Weight(k.order)) := v.value.bytes])
    case (Weighted(w), OrderedValueItem(v)) => Weighted(w[v.value.bytes := Weight(v.order)])
    case _ => c
  }

  function AddEach(c: Container, items: seq<Item>): Container
    decreases |items|
  {
    if items == [] then c else AddEach(AddOne(c, items[0]), items[1..])
  }

  function RemoveOne(c: Container, item: Item): Container {
    match (c, item)
    case (Sequence(xs), ValueItem(v)) =>
      var i := IndexOf(xs, v.value.bytes);
      if i < |xs| then Sequence(xs[..i] + xs[i + 1..]) else c
    case (Members(s), ValueItem(v)) => Members(s - {v.value.bytes})
    case (Weighted(w), ValueItem(v)) => Weighted(w - {v.value.bytes})
    case (Mapping(m), KeyItem(k)) => Mapping(m - {k.payload.bytes})
    case (OrderedMapping(m), KeyItem(k)) =>
      OrderedMapping(map key <- m | key.0 != k.payload.bytes :: m[key])
    case _ => c
  }

  function RemoveEach(c: Container, items: seq<Item>): Container
    decreases |items|
  {
    if items == [] then c else RemoveEach(RemoveOne(c, items[0]), items[1..])
  }

  // ---------- one request ----------

  /** The effect of a request with this header and these items. */
  function ApplyItems(rpc: Rpc, header: Request, items: seq<Item>, c: Container): Container {
    match rpc
    case AddElementToTail => if header.AddTo? && c.Sequence? then Sequence(c.xs + Elements(items)) else c
    case AddElementToHead => if header.AddTo? && c.Sequence? then Sequence(Reverse(Elements(items)) + c.xs) else c
    case AddElement =>
      if !header.AddTo? then c
      else if c.Sequence? then
        Sequence(InsertAt(c.xs, if header.pos.Some? then header.pos.value else UINT32_MAX, Elements(items)))
      else AddEach(c, items)
    case AddByValue =>
      if !header.AddToVal? || !c.Sequence? then c
      else
        var pivot := header.pivot.value.bytes;
        Sequence(if header.isBefore then InsertBefore(c.xs, pivot, Elements(items))
                 else InsertAfter(c.xs, pivot, Elements(items)))
    case RemoveByKeyValue => if header.RemoveFrom? then RemoveEach(c, items) else c
  }

  function Apply(rpc: Rpc, request: Request, c: Container): Container {
    if ItemsOf(request).Failure? then c else ApplyItems(rpc, Cleared(request), ItemsOf(request).value, c)
  }

  /** Running planned requests one after the other. */
  function RunAll(rpc: Rpc, chunks: seq<Planned>, c: Container): Container {
    if chunks == [] then c else RunAll(rpc, chunks[1..], Apply(rpc, chunks[0].request, c))
  }

  lemma {:induction false} RunAllAppend(rpc: Rpc, a: seq<Planned>, b: seq<Planned>, c: Container)
    ensures RunAll(rpc, a + b, c) == RunAll(rpc, b, RunAll(rpc, a, c))
    decreases |a|
  {
    if a == [] {
      assert a + b == b;
    } else {
      assert (a + b)[1..] == a[1..] + b;
      RunAllAppend(rpc, a[1..], b, Apply(rpc, a[0].request, c));
    }
  }

  // ---------- items may be added in two steps ----------

  lemma {:induction false} ElementsAppend(a: seq<Item>, b: seq<Item>)
    ensures Elements(a + b) == Elements(a) + Elements(b)
  {
    if a == [] {
      assert a + b == b;
    } else {
      assert (a + b)[1..] == a[1..] + b;
      ElementsAppend(a[1..], b);
    }
  }

  lemma {:induction false} AddEachAppend(c: Container, a: seq<Item>, b: seq<Item>)
    ensures AddEach(c, a + b) == AddEach(AddEach(c, a), b)
    ensures AddEach(c, a).Sequence? == c.Sequence?
    decreases |a|
  {
    if a == [] {
      assert a + b == b;
    } else {
      assert (a + b)[1..] == a[1..] + b;
      AddEachAppend(AddOne(c, a[0]), a[1..], b);
    }
  }

  lemma {:induction false} RemoveEachAppend(c: Container, a: seq<Item>, b: seq<Item>)
    ensures RemoveEach(c, a + b) == RemoveEach(RemoveEach(c, a), b)
    decreases |a|
  {
    if a == [] {
      assert a + b == b;
    } else {
      assert (a + b)[1..] == a[1..] + b;
      RemoveEachAppend(RemoveOne(c, a[0]), a[1..], b);
    }
  }

  lemma {:induction false} ReverseAppend<T>(a: seq<T>, b: seq<T>)
    ensures Reverse(a + b) == Reverse(b) + Reverse(a)
  {
    assert forall i :: 0 <= i < |a + b| ==> Reverse(a + b)[i] == (Reverse(b) + Reverse(a))[i];
  }

  /** Inserting at consecutive positions is inserting once; a rejected position is rejected again. */
  lemma InsertAtSplit<T>(xs: seq<T>, pos: nat, a: seq<T>, b: seq<T>)
    requires pos == UINT32_MAX || pos + |a| < UINT32_MAX
    ensures InsertAt(InsertAt(xs, pos, a), if pos == UINT32_MAX then pos else pos + |a|, b) == InsertAt(xs, pos, a + b)
  {
    var ys := InsertAt(xs, pos, a);
    if pos != UINT32_MAX && pos <= |xs| {
      assert ys[..pos + |a|] == xs[..pos] + a && ys[pos + |a|..] == xs[pos..];
    }
  }

  lemma {:induction false} IndexOfIs<T>(xs: seq<T>, x: T, i: nat)
    requires i <= |xs| && x !in xs[..i] && (i < |xs| ==> xs[i] == x)
    ensures IndexOf(xs, x) == i
  {
    if i > 0 {
      assert xs[0] == xs[..i][0];
      assert xs[1..][..i - 1] == xs[..i][1..];
      IndexOfIs(xs[1..], x, i - 1);
    }
  }

  lemma InsertAfterAt<T>(left: seq<T>, right: seq<T>, pivot: T, vs: seq<T>)
    requires left != [] && left[|left| - 1] == pivot && pivot !in left[..|left| - 1]
    ensures InsertAfter(left + right, pivot, vs) == left + vs + right
  {
    var xs, i := left + right, |left| - 1;
    assert xs[..i] == left[..i] && xs[i] == pivot;
    IndexOfIs(xs, pivot, i);
    hide IndexOf;
    assert xs[..i + 1] == left && xs[i + 1..] == right;
  }

  lemma SplitAfterPivot<T>(xs: seq<T>, pivot: T) returns (left: seq<T>, right: seq<T>)
    requires pivot in xs
    ensures xs == left + right && left != [] && left[|left| - 1] == pivot && pivot !in left[..|left| - 1]
  {
    var i := IndexOf(xs, pivot);
    hide IndexOf;
    left, right := xs[..i + 1], xs[i + 1..];
    assert left[..i] == xs[..i];
  }

  lemma InsertAfterMissing<T>(xs: seq<T>, pivot: T, vs: seq<T>)
    requires pivot !in xs
    ensures InsertAfter(xs, pivot, vs) == xs
  {
    hide IndexOf;
  }

  lemma Regrouped<T>(l: seq<T>, a: seq<T>, b: seq<T>, r: seq<T>)
    ensures l + b + r == l + (b + r) && l + a + (b + r) == l + (a + b) + r
  {
  }

  /** Inserting after the pivot pushes earlier insertions to the right, so the parts go in last first. */
  lemma InsertAfterSplit<T>(xs: seq<T>, pivot: T, a: seq<T>, b: seq<T>)
    ensures InsertAfter(InsertAfter(xs, pivot, b), pivot, a) == InsertAfter(xs, pivot, a + b)
  {
    hide *;
    if pivot in xs {
      var left, right := SplitAfterPivot(xs, pivot);
      InsertAfterAt(left, right, pivot, b);
      InsertAfterAt(left, b + right, pivot, a);
      InsertAfterAt(left, right, pivot, a + b);
      Regrouped(left, a, b, right);
    } else {
      InsertAfterMissing(xs, pivot, b);
      InsertAfterMissing(xs, pivot, a);
      InsertAfterMissing(xs, pivot, a + b);
    }
  }
}
