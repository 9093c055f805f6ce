/** A creation sent as one create request and continuations creates the container that was asked for. */
module Creations {
  import opened Basics
  import opened Messages
  import opened Greedy
  import opened Chunker
  import opened Batching
  import opened PlanItems
  import opened PlanTheorems
  import opened Containers
  import opened Meaning

  predicate IsSequenceKind(kind: nat) {
    kind == LIST || kind == VECTOR || kind == QUEUE
  }

  /** The kinds whose elements take over the ttl of the container. */
  predicate SharesTtl(kind: nat) {
    kind == MAP || kind == ORDERED_MAP || kind == ORDERED_SET
  }

  function EmptyContainer(kind: nat): Container
    requires VECTOR <= kind <= ORDERED_SET
  {
    if IsSequenceKind(kind) then Sequence([])
    else if kind == SET then Members({})
    else if kind == MAP then Mapping(map[])
    else if kind == ORDERED_MAP then OrderedMapping(map[])
    else Weighted(map[])
  }

  function Fill(c: Container, items: seq<Item>): Container {
    if c.Sequence? then Sequence(c.xs + Elements(items)) else AddEach(c, items)
  }

  /** The server's createContainer. */
  function Create(request: Request): Container
    requires request.CreateContainer? && VECTOR <= request.kind <= ORDERED_SET
  {
    if ItemsOf(request).Failure? then EmptyContainer(request.kind)
    else Fill(EmptyContainer(request.kind), ItemsOf(request).value)
  }

  /** Continuations append to sequences and add to everything else. */
  function ContinuationRpc(kind: nat): Rpc {
    if IsSequenceKind(kind) then AddElementToTail else AddElement
  }

  function Continue(kind: nat, chunks: seq<Planned>, hint: Option<KeyHint>, c: Container): Container
    requires forall chunk <- chunks :: chunk.request.CreateContainer?
    decreases |chunks|
  {
    if chunks == [] then c
    else Continue(kind, chunks[1..], hint, Apply(ContinuationRpc(kind), Continuation(chunks[0].request, hint), c))
  }

  lemma ContinuationFills(kind: nat, chunk: Request, hint: Option<KeyHint>, c: Container)
    requires chunk.CreateContainer? && ItemsOf(chunk).Success?
    requires IsSequenceKind(kind) == c.Sequence?
    ensures Apply(ContinuationRpc(kind), Continuation(chunk, hint), c) == Fill(c, ItemsOf(chunk).value)
    ensures Fill(c, ItemsOf(chunk).value).Sequence? == c.Sequence?
  {
    assert ItemsOf(Continuation(chunk, hint)) == ItemsOf(chunk);
    AddEachAppend(c, ItemsOf(chunk).value, []);
  }

  lemma FillAppend(c: Container, a: seq<Item>, b: seq<Item>)
    ensures Fill(Fill(c, a), b) == Fill(c, a + b)
  {
    hide Elements, AddEach, AddOne;
    if c.Sequence? {
      ElementsAppend(a, b);
      assert c.xs + Elements(a) + Elements(b) == c.xs + (Elements(a) + Elements(b));
    } else {
      AddEachAppend(c, a, b);
    }
  }

  ghost predicate AreCreates(chunks: seq<Planned>) {
    forall chunk <- chunks :: chunk.request.CreateContainer? && ItemsOf(chunk.request).Success?
  }

  lemma {:induction false} ContinueFills(kind: nat, chunks: seq<Planned>, hint: Option<KeyHint>, c: Container)
    requires AreCreates(chunks) && IsSequenceKind(kind) == c.Sequence?
    ensures Continue(kind, chunks, hint, c) == Fill(c, Flatten(ItemLists(chunks)))
    decreases |chunks|
  {
    if chunks == [] {
      FillNothing(c);
    } else {
      var items := ItemsOf(chunks[0].request).value;
      var lists := ItemLists(chunks);
      assert lists[1..] == ItemLists(chunks[1..]) && lists[0] == items;
      assert Flatten(lists) == items + Flatten(lists[1..]);
      ContinuationFills(kind, chunks[0].request, hint, c);
      hide ItemsOf, Apply, Continuation, Fill, ItemLists, IsSequenceKind;
      ContinueFills(kind, chunks[1..], hint, Fill(c, items));
      FillAppend(c, items, Flatten(lists[1..]));
    }
  }

  lemma FillNothing(c: Container)
    ensures Fill(c, []) == c
  {
    if c.Sequence? {
      assert c.xs + [] == c.xs;
    }
  }

  /** The chunks of a creation plan are creates of the same kind that list the items in order. */
  lemma CreationLists(request: Request)
    requires request.CreateContainer? && PlanOf(request, true).Success?
    ensures var chunks := PlanOf(request, true).value;
            && AreCreates(chunks) && chunks != [] && ItemsOf(request).Success?
            && (forall chunk <- chunks :: chunk.request.CreateContainer? && Cleared(chunk.request) == Cleared(request))
            && Flatten(ItemLists(chunks)) == ItemsOf(request).value
  {
    hide *;
    PlanReversal(request, true);
    CreateIsPlain(request);
    var chunks := Chunks(request, true);
    var items, base, reserve := PlanParts(request, true);
    forall i | 0 <= i < |chunks|
      ensures ItemsOf(chunks[i].request).Success? && Cleared(chunks[i].request) == base
      ensures chunks[i].request.CreateContainer?
    {
      ChunksCoverExactly(request, true, i);
      CreateIsUnshifted(base, Offset(chunks, i), chunks[i].request);
    }
    AllCreates(base, chunks);
    if items == [] {
      HeaderIsEmpty(base);
      EmptyItemLists(chunks);
    } else {
      LinearCuts(request, true);
      var j := LinearJob(HeaderSize(reserve), SizesOf(items, ItemSize));
      CuttableMeans(base, reserve, items);
      UniformJob(reserve, items);
      GreedyChunkAt(base, reserve, items, 0);
      EndsAreGreedy(j, 0);
      SlicesCover(items, j, 0, j.Ends(0));
    }
  }

  lemma CreateIsPlain(request: Request)
    requires request.CreateContainer?
    ensures !ReversesChunks(request) && !Positional(request) && Cleared(request).CreateContainer?
    ensures !Positional(Reserve(Cleared(request), true))
  {
  }

  lemma CreateIsUnshifted(base: Request, s: nat, chunk: Request)
    requires base.CreateContainer?
    ensures Shifted(base, s) == base
    ensures Cleared(chunk) == base ==> chunk.CreateContainer?
  {
  }

  lemma AllCreates(base: Request, chunks: seq<Planned>)
    requires forall i :: 0 <= i < |chunks| ==>
               ItemsOf(chunks[i].request).Success? && Cleared(chunks[i].request) == base
    requires forall i :: 0 <= i < |chunks| ==> chunks[i].request.CreateContainer?
    ensures AreCreates(chunks)
    ensures forall chunk <- chunks :: chunk.request.CreateContainer? && Cleared(chunk.request) == base
  {
    hide ItemsOf, Cleared;
  }

  /** Creating from the first of these chunks and continuing with the others gives this container. */
  ghost predicate CreatesInChunks(kind: nat, chunks: seq<Planned>, hint: Option<KeyHint>, made: Container)
    requires VECTOR <= kind <= ORDERED_SET
  {
    && chunks != []
    && (forall chunk <- chunks :: chunk.request.CreateContainer? && chunk.request.kind == kind)
    && Continue(kind, chunks[1..], hint, Create(chunks[0].request)) == made
  }

  /** Creating from the first chunk and continuing with the rest is creating from the whole request. */
  lemma CreationPreservesMeaning(request: Request, hint: Option<KeyHint>)
    requires request.CreateContainer? && VECTOR <= request.kind <= ORDERED_SET
    requires PlanOf(request, true).Success?
    ensures CreatesInChunks(request.kind, PlanOf(request, true).value, hint, Create(request))
  {
    hide *;
    CreationLists(request);
    CreateIsFill(request);
    ChunksCreate(request.kind, PlanOf(request, true).value, hint, Cleared(request), ItemsOf(request).value);
  }

  lemma CreateIsFill(request: Request)
    requires request.CreateContainer? && VECTOR <= request.kind <= ORDERED_SET && ItemsOf(request).Success?
    ensures Create(request) == Fill(EmptyContainer(request.kind), ItemsOf(request).value)
    ensures Cleared(request).CreateContainer? && Cleared(request).kind == request.kind
  {
  }

  lemma ChunksCreate(kind: nat, chunks: seq<Planned>, hint: Option<KeyHint>, base: Request, items: seq<Item>)
    requires base.CreateContainer? && base.kind == kind && VECTOR <= kind <= ORDERED_SET
    requires AreCreates(chunks) && chunks != [] && Flatten(ItemLists(chunks)) == items
    requires forall chunk <- chunks :: Cleared(chunk.request) == base
    ensures CreatesInChunks(kind, chunks, hint, Fill(EmptyContainer(kind), items))
  {
    assert forall chunk <- chunks :: chunk.request.kind == Cleared(chunk.request).kind;
    hide ItemsOf, Cleared, Apply, ItemLists, Continue, Fill;
    var empty := EmptyContainer(kind);
    var first := ItemsOf(chunks[0].request).value;
    CreateIsFill(chunks[0].request);
    CreationSplit(chunks);
    FillKind(empty, first);
    ContinueFills(kind, chunks[1..], hint, Fill(empty, first));
    FillAppend(empty, first, Flatten(ItemLists(chunks[1..])));
  }

  lemma CreationSplit(chunks: seq<Planned>)
    requires AreCreates(chunks) && chunks != []
    ensures Flatten(ItemLists(chunks)) == ItemsOf(chunks[0].request).value + Flatten(ItemLists(chunks[1..]))
  {
    hide ItemsOf;
    assert ItemLists(chunks)[1..] == ItemLists(chunks[1..]);
  }

  lemma FillKind(c: Container, items: seq<Item>)
    ensures Fill(c, items).Sequence? == c.Sequence?
  {
    AddEachAppend(c, items, []);
  }

  // ---------- one expiration ----------

  /** Before planning, a container's ttl is copied to the elements of the kinds that share it. */
  function WithSharedTtl(request: Request): (r: Request)
    requires request.CreateContainer?
    ensures r.CreateContainer? && r.kind == request.kind && r.ttl == request.ttl
  {
    if request.ttl.None? || !SharesTtl(request.kind) then request
    else
      var l := request.lists;
      var values := seq(|l.valueUnordered|, i requires 0 <= i < |l.valueUnordered| =>
                        l.valueUnordered[i].(ttl := request.ttl));
      var ordered := seq(|l.valueOrdered|, i requires 0 <= i < |l.valueOrdered| =>
                         l.valueOrdered[i].(ttl := request.ttl));
      CreateContainer(request.key, request.kind, request.ttl, request.lock,
                      Lists(l.keyUnordered, values, l.keyOrdered, ordered))
  }

  /** The expiration a value is created with: the container's own for the three kinds that share it. */
  function SharedExpiration(request: Request, own: Option<uint64>): Option<uint64>
    requires request.CreateContainer?
  {
    if request.ttl.Some? && request.kind in {MAP, ORDERED_MAP, ORDERED_SET} then request.ttl else own
  }

  /** Nothing else changes: every value keeps its place, its payload and its order. */
  lemma SharedTtlKeeps(request: Request)
    requires request.CreateContainer?
    ensures var w := WithSharedTtl(request);
            && w == CreateContainer(request.key, request.kind, request.ttl, request.lock, w.lists)
            && w.lists.keyUnordered == request.lists.keyUnordered && w.lists.keyOrdered == request.lists.keyOrdered
            && |w.lists.valueUnordered| == |request.lists.valueUnordered|
            && |w.lists.valueOrdered| == |request.lists.valueOrdered|
            && (forall i :: 0 <= i < |w.lists.valueUnordered| ==>
                  var v := request.lists.valueUnordered[i];
                  w.lists.valueUnordered[i] == Value(v.value, v.compression, SharedExpiration(request, v.ttl), v.lock))
            && (forall i :: 0 <= i < |w.lists.valueOrdered| ==>
                  var v := request.lists.valueOrdered[i];
                  w.lists.valueOrdered[i]
                  == OrderedValue(v.value, v.order, v.compression, SharedExpiration(request, v.ttl), v.lock))
  {
  }

  /** Items that differ in their expiration alone. */
  predicate SameButTtl(a: Item, b: Item) {
    match (a, b)
    case (ValueItem(v), ValueItem(w)) => v.value == w.value
    case (OrderedValueItem(v), OrderedValueItem(w)) => v.value == w.value && v.order == w.order
    case (MapItem(k, v), MapItem(l, w)) => k == l && v.value == w.value
    case (OrderedMapItem(k, v), OrderedMapItem(l, w)) => k == l && v.value == w.value
    case _ => a == b
  }

  ghost predicate AllSameButTtl(a: seq<Item>, b: seq<Item>) {
    |a| == |b| && forall i :: 0 <= i < |a| ==> SameButTtl(a[i], b[i])
  }

  lemma SharedTtlItemwise(request: Request)
    requires request.CreateContainer?
    ensures ItemsOf(WithSharedTtl(request)).Success? <==> ItemsOf(request).Success?
    ensures ItemsOf(request).Success? ==>
              AllSameButTtl(ItemsOf(WithSharedTtl(request)).value, ItemsOf(request).value)
  {
    SharedTtlKeeps(request);
    hide WithSharedTtl;
  }

  lemma SameElement(a: Item, b: Item, c: Container)
    requires SameButTtl(a, b)
    ensures Element(a) == Element(b) && AddOne(c, a) == AddOne(c, b)
  {
  }

  lemma {:induction false} SameFill(a: seq<Item>, b: seq<Item>, c: Container)
    requires AllSameButTtl(a, b)
    ensures Elements(a) == Elements(b) && AddEach(c, a) == AddEach(c, b)
    decreases |a|
  {
    if a != [] {
      SameElement(a[0], b[0], c);
      hide SameButTtl, AddOne, Element;
      SameFill(a[1..], b[1..], AddOne(c, a[0]));
    }
  }

  /** Sharing the ttl creates the same container, with other expirations. */
  lemma SharedTtlCreates(request: Request)
    requires request.CreateContainer? && VECTOR <= request.kind <= ORDERED_SET
    ensures Create(WithSharedTtl(request)) == Create(request)
  {
    SharedTtlItemwise(request);
    hide ItemsOf, WithSharedTtl, AllSameButTtl, Elements, AddEach;
    if ItemsOf(request).Success? {
      SameFill(ItemsOf(WithSharedTtl(request)).value, ItemsOf(request).value, EmptyContainer(request.kind));
    }
  }

  /** What is really planned and sent creates the container the caller asked for. */
  lemma SentCreationPreservesMeaning(request: Request, hint: Option<KeyHint>)
    requires request.CreateContainer? && VECTOR <= request.kind <= ORDERED_SET
    requires PlanOf(WithSharedTtl(request), true).Success?
    ensures CreatesInChunks(request.kind, PlanOf(WithSharedTtl(request), true).value, hint, Create(request))
  {
    hide *;
    SharedTtlCreates(request);
    CreationPreservesMeaning(WithSharedTtl(request), hint);
  }

  /** The expiration an item carries, if it carries a value. */
  predicate ExpiresAt(item: Item, ttl: Option<uint64>) {
    match item
    case ValueItem(v) => v.ttl == ttl
    case OrderedValueItem(v) => v.ttl == ttl
    case MapItem(_, v) => v.ttl == ttl
    case OrderedMapItem(_, v) => v.ttl == ttl
    case _ => true
  }

  lemma SharedTtlItems(request: Request)
    requires request.CreateContainer? && request.ttl.Some? && SharesTtl(request.kind)
    requires ItemsOf(WithSharedTtl(request)).Success?
    ensures forall item <- ItemsOf(WithSharedTtl(request)).value :: ExpiresAt(item, request.ttl)
  {
    var l := WithSharedTtl(request).lists;
    assert forall v <- l.valueUnordered :: v.ttl == request.ttl;
    assert forall v <- l.valueOrdered :: v.ttl == request.ttl;
    hide WithSharedTtl;
  }

  /** In every create chunk and every continuation, all values expire when the container does. */
  lemma OneExpiration(request: Request, i: nat, hint: Option<KeyHint>)
    requires request.CreateContainer? && request.ttl.Some? && request.kind in {MAP, ORDERED_MAP, ORDERED_SET}
    requires PlanOf(WithSharedTtl(request), true).Success?
    requires i < |PlanOf(WithSharedTtl(request), true).value|
    ensures var chunk := PlanOf(WithSharedTtl(request), true).value[i].request;
            && chunk.CreateContainer? && chunk.ttl == request.ttl
            && ItemsOf(chunk).Success? && ItemsOf(Continuation(chunk, hint)) == ItemsOf(chunk)
            && forall item <- ItemsOf(chunk).value :: ExpiresAt(item, request.ttl)
  {
    var whole := WithSharedTtl(request);
    var chunks := PlanOf(whole, true).value;
    var chunk := chunks[i].request;
    CreationLists(whole);
    SharedTtlItems(request);
    assert chunks[i] in chunks && chunk.ttl == Cleared(chunk).ttl;
    assert ItemsOf(Continuation(chunk, hint)) == ItemsOf(chunk);
    hide PlanOf, ItemsOf, Cleared, ExpiresAt, WithSharedTtl, Continuation;
    ListInFlatten(chunks, i);
  }

  lemma {:induction false} ListInFlatten(chunks: seq<Planned>, i: nat)
    requires AreCreates(chunks) && i < |chunks|
    ensures forall item <- ItemsOf(chunks[i].request).value :: item in Flatten(ItemLists(chunks))
    decreases i
  {
    CreationSplit(chunks);
    hide ItemsOf, ItemLists;
    if i > 0 {
      ListInFlatten(chunks[1..], i - 1);
    }
  }
}
