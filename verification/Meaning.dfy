/** Running the planned chunks has the effect of the one request they were planned from. */
module Meaning {
  import opened Basics
  import opened Wire
  import opened Messages
  import opened Greedy
  import opened Batching
  import opened PlanItems
  import opened PlanTheorems
  import opened Containers

  /** Requests whose chunks may run in item order, unless they insert before a pivot. */
  predicate InsertsBefore(r: Request) {
    r.AddToVal? && r.isBefore
  }

  /** Items of a sequence request all contribute one element, or none does. */
  lemma {:induction false} ElementCount(r: Request, items: seq<Item>)
    requires WellShaped(r, items) && (r.AddTo? || r.CreateContainer?)
    ensures |Elements(items)| == if items != [] && items[0].ValueItem? then |items| else 0
    decreases |items|
  {
    if items != [] {
      SliceWellShaped(r, items, 1, |items|);
      ElementCount(r, items[1..]);
      if |items| > 1 {
        assert SameKind(items[0], items[1]);
      }
    }
  }

  lemma HeadSplit(a: seq<Item>, b: seq<Item>)
    ensures Reverse(Elements(a + b)) == Reverse(Elements(b)) + Reverse(Elements(a))
  {
    ElementsAppend(a, b);
    ReverseAppend(Elements(a), Elements(b));
  }

  /** The position rule for one cut: the second part goes in right behind the first. */
  lemma PositionSplit(base: Request, a: seq<Item>, b: seq<Item>, s: nat, xs: seq<Bytes>)
    requires base.AddTo? && WellShaped(base, a + b)
    requires !Overflows(base, s + |a + b|) && a != [] && b != []
    ensures ApplyItems(AddElement, Shifted(base, s + |a|), b, ApplyItems(AddElement, Shifted(base, s), a, Sequence(xs)))
            == ApplyItems(AddElement, Shifted(base, s), a + b, Sequence(xs))
  {
    ElementsAppend(a, b);
    SliceWellShaped(base, a + b, 0, |a|);
    assert (a + b)[..|a|] == a;
    ElementCount(base, a);
    ElementCount(base, a + b);
    var pos := if Shifted(base, s).pos.Some? then Shifted(base, s).pos.value else UINT32_MAX;
    if a[0].ValueItem? {
      hide Elements;
      InsertAtSplit(xs, pos, Elements(a), Elements(b));
    } else {
      hide Elements;
      assert Elements(a) == [] && Elements(b) == [];
      NothingInserted(xs, pos);
      NothingInserted(xs, if pos == UINT32_MAX then pos else pos + |a|);
    }
  }

  lemma NothingInserted<T>(xs: seq<T>, pos: nat)
    ensures InsertAt(xs, pos, []) == xs
  {
  }

  /** For every request but an insert-before: doing the items in two parts is doing them at once. */
  lemma SplitInOrder(rpc: Rpc, base: Request, a: seq<Item>, b: seq<Item>, s: nat, c: Container)
    requires WellShaped(base, a + b) && !Overflows(base, s + |a + b|) && a != [] && b != []
    requires !base.AddToVal?
    ensures ApplyItems(rpc, Shifted(base, s + |a|), b, ApplyItems(rpc, Shifted(base, s), a, c))
            == ApplyItems(rpc, Shifted(base, s), a + b, c)
  {
    hide WellShaped, Elements, AddEach, RemoveEach, InsertAt, Reverse, Overflows;
    match rpc
    case AddElementToTail => ElementsAppend(a, b);
    case AddElementToHead => HeadSplit(a, b);
    case AddElement =>
      if base.AddTo? && c.Sequence? {
        PositionSplit(base, a, b, s, c.xs);
      } else {
        AddEachAppend(c, a, b);
      }
    case AddByValue =>
    case RemoveByKeyValue => RemoveEachAppend(c, a, b);
  }

  /** For an insert-after, doing the second part first is doing both at once. */
  lemma SplitReversed(rpc: Rpc, base: Request, a: seq<Item>, b: seq<Item>, c: Container)
    requires ReversesChunks(base) && rpc == AddByValue
    ensures ApplyItems(rpc, base, a, ApplyItems(rpc, base, b, c)) == ApplyItems(rpc, base, a + b, c)
  {
    ElementsAppend(a, b);
    if c.Sequence? {
      InsertAfterSplit(c.xs, base.pivot.value.bytes, Elements(a), Elements(b));
    }
  }

  /** A built chunk is applied like its header and items. */
  lemma ApplyBuilt(rpc: Rpc, base: Request, s: nat, e: nat, items: seq<Item>, o: nat, c: Container)
    requires IsHeader(base) && WellShaped(base, items) && s <= e <= |items|
    ensures AcceptsAll(Shifted(base, o), items[s..e])
    ensures Apply(rpc, AppendAll(Shifted(base, o), items[s..e]), c) == ApplyItems(rpc, Shifted(base, o), items[s..e], c)
  {
    hide ApplyItems, ItemsOf, AppendAll, Cleared, Shifted;
    ShiftedWellShaped(base, items, s, e);
    ShapeUnderShift(base, items[s..e], s, o);
    BuiltItems(Shifted(base, o), items[s..e]);
  }

  lemma ShapeUnderShift(base: Request, items: seq<Item>, s: nat, o: nat)
    requires IsHeader(base) && WellShaped(Shifted(base, s), items)
    ensures WellShaped(Shifted(base, o), items) && IsHeader(Shifted(base, o))
  {
  }

  /** Any covering cutting, run in order, has the effect of all its items at once. */
  lemma {:induction false} RunInOrder(rpc: Rpc, base: Request, items: seq<Item>, j: Job, s: nat, cuts: seq<nat>,
                                      c: Container)
    requires IsHeader(base) && WellShaped(base, items) && !Overflows(base, |items|) && !base.AddToVal?
    requires j.Valid() && |j.sizes| == |items| && s < |items| && j.Covers(s, cuts)
    ensures RunAll(rpc, ChunksOf(base, items, s, cuts), c) == ApplyItems(rpc, Shifted(base, s), items[s..], c)
    decreases |cuts|
  {
    hide *;
    RunFirst(rpc, base, items, j, s, cuts, c);
    var e := cuts[0];
    var a, b := items[s..e], items[e..];
    var first := ApplyItems(rpc, Shifted(base, s), a, c);
    if e == |items| {
      assert a == items[s..];
      RunNone(rpc, first);
    } else {
      RunInOrder(rpc, base, items, j, e, cuts[1..], first);
      assert a + b == items[s..] == items[s..|items|];
      assert s + |a + b| == |items|;
      SliceWellShaped(base, items, s, |items|);
      SplitInOrder(rpc, base, a, b, s, c);
    }
  }

  lemma RunFirst(rpc: Rpc, base: Request, items: seq<Item>, j: Job, s: nat, cuts: seq<nat>, c: Container)
    requires IsHeader(base) && WellShaped(base, items)
    requires j.Valid() && |j.sizes| == |items| && s < |items| && j.Covers(s, cuts)
    ensures cuts != [] && s < cuts[0] <= |items| && j.Covers(cuts[0], cuts[1..])
    ensures cuts[0] == |items| ==> ChunksOf(base, items, cuts[0], cuts[1..]) == []
    ensures RunAll(rpc, ChunksOf(base, items, s, cuts), c)
            == RunAll(rpc, ChunksOf(base, items, cuts[0], cuts[1..]),
                      ApplyItems(rpc, Shifted(base, s), items[s..cuts[0]], c))
  {
    assert cuts != [];
    hide *;
    var e := cuts[0];
    FirstChunk(base, items, j, s, cuts);
    var chunk := Planned(AppendAll(Shifted(base, s), items[s..e]), e - s);
    ApplyBuilt(rpc, base, s, e, items, s, c);
    RunAllAppend(rpc, [chunk], ChunksOf(base, items, e, cuts[1..]), c);
    RunSingle(rpc, chunk, c);
  }

  lemma FirstChunk(base: Request, items: seq<Item>, j: Job, s: nat, cuts: seq<nat>)
    requires IsHeader(base) && WellShaped(base, items)
    requires j.Valid() && |j.sizes| == |items| && s <= |items| && j.Covers(s, cuts) && cuts != []
    ensures s < cuts[0] <= |items| && j.Covers(cuts[0], cuts[1..])
    ensures cuts[0] == |items| ==> ChunksOf(base, items, cuts[0], cuts[1..]) == []
    ensures AcceptsAll(base, items) && AcceptsAll(Shifted(base, s), items[s..cuts[0]])
    ensures ChunksOf(base, items, s, cuts)
            == [Planned(AppendAll(Shifted(base, s), items[s..cuts[0]]), cuts[0] - s)]
               + ChunksOf(base, items, cuts[0], cuts[1..])
  {
    if cuts[0] == |items| {
      assert cuts[1..] == [];
    }
  }

  lemma RunNone(rpc: Rpc, c: Container)
    ensures RunAll(rpc, [], c) == c
  {
  }

  /** Any covering cutting of an insert-after, run last chunk first, has the effect of all items at once. */
  lemma {:induction false} RunReversed(base: Request, items: seq<Item>, j: Job, s: nat, cuts: seq<nat>, c: Container)
    requires IsHeader(base) && WellShaped(base, items) && base.AddToVal? && ReversesChunks(base)
    requires j.Valid() && |j.sizes| == |items| && s <= |items| && j.Covers(s, cuts)
    ensures RunAll(AddByValue, Reverse(ChunksOf(base, items, s, cuts)), c)
            == ApplyItems(AddByValue, base, items[s..], c)
    decreases |cuts|
  {
    hide *;
    if cuts == [] {
      NothingToReverse(base, items, j, s, c);
    } else {
      LastRunFirst(base, items, j, s, cuts, c);
      var e := cuts[0];
      RunReversed(base, items, j, e, cuts[1..], c);
      assert items[s..] == items[s..e] + items[e..];
      SplitReversed(AddByValue, base, items[s..e], items[e..], c);
    }
  }

  /** Reversed, the first chunk is applied to what all later chunks have made. */
  lemma LastRunFirst(base: Request, items: seq<Item>, j: Job, s: nat, cuts: seq<nat>, c: Container)
    requires IsHeader(base) && WellShaped(base, items) && base.AddToVal?
    requires j.Valid() && |j.sizes| == |items| && s <= |items| && j.Covers(s, cuts) && cuts != []
    ensures s < cuts[0] <= |items| && j.Covers(cuts[0], cuts[1..])
    ensures RunAll(AddByValue, Reverse(ChunksOf(base, items, s, cuts)), c)
            == ApplyItems(AddByValue, base, items[s..cuts[0]],
                          RunAll(AddByValue, Reverse(ChunksOf(base, items, cuts[0], cuts[1..])), c))
  {
    hide *;
    var e := cuts[0];
    FirstChunk(base, items, j, s, cuts);
    UnshiftedByValue(base, s);
    var chunk := Planned(AppendAll(Shifted(base, s), items[s..e]), e - s);
    var rest := ChunksOf(base, items, e, cuts[1..]);
    ReversePush(chunk, rest);
    RunAllAppend(AddByValue, Reverse(rest), [chunk], c);
    var later := RunAll(AddByValue, Reverse(rest), c);
    ApplyBuilt(AddByValue, base, s, e, items, s, later);
    RunSingle(AddByValue, chunk, later);
  }

  lemma ReversePush<T>(x: T, xs: seq<T>)
    ensures Reverse([x] + xs) == Reverse(xs) + [x]
  {
  }

  lemma UnshiftedByValue(base: Request, s: nat)
    requires base.AddToVal?
    ensures Shifted(base, s) == base
  {
  }

  lemma NothingToReverse(base: Request, items: seq<Item>, j: Job, s: nat, c: Container)
    requires WellShaped(base, items) && ReversesChunks(base)
    requires j.Valid() && |j.sizes| == |items| && s <= |items| && j.Covers(s, [])
    ensures RunAll(AddByValue, Reverse(ChunksOf(base, items, s, [])), c)
            == ApplyItems(AddByValue, base, items[s..], c)
  {
    assert items[s..] == [];
    AfterNothing(base, c);
  }

  lemma RunSingle(rpc: Rpc, chunk: Planned, c: Container)
    ensures RunAll(rpc, [chunk], c) == Apply(rpc, chunk.request, c)
  {
    assert RunAll(rpc, [chunk], c) == RunAll(rpc, [], Apply(rpc, chunk.request, c));
  }

  lemma AfterNothing(base: Request, c: Container)
    requires ReversesChunks(base)
    ensures ApplyItems(AddByValue, base, [], c) == c
  {
    if c.Sequence? {
      assert InsertAfter(c.xs, base.pivot.value.bytes, []) == c.xs;
    }
  }

  // ---------- chunking preserves meaning ----------

  /** A request without items has no effect, which is why its empty chunk need not be sent. */
  lemma NoItemsNoEffect(rpc: Rpc, header: Request, c: Container)
    ensures ApplyItems(rpc, header, [], c) == c
  {
    hide InsertAt, InsertBefore, InsertAfter, IndexOf, Reverse;
    if c.Sequence? {
      if header.AddToVal? {
        NothingAtPivot(c.xs, header.pivot.value.bytes);
      }
      NothingInserted(c.xs, if header.AddTo? && header.pos.Some? then header.pos.value else UINT32_MAX);
      assert |Reverse<Bytes>([])| == 0;
      assert c.xs + [] == c.xs && Reverse<Bytes>([]) + c.xs == c.xs;
    }
  }

  lemma NothingAtPivot<T>(xs: seq<T>, pivot: T)
    ensures InsertBefore(xs, pivot, []) == xs && InsertAfter(xs, pivot, []) == xs
  {
    var i := IndexOf(xs, pivot);
    assert i < |xs| ==> xs[..i] + [] + xs[i..] == xs;
    assert i < |xs| ==> xs[..i + 1] + [] + xs[i + 1..] == xs;
  }

  /** The chunks a sender transmits: all of them, unless the request has no items. */
  function Live(chunks: seq<Planned>): (live: seq<Planned>)
    ensures |live| <= |chunks|
  {
    if chunks == [] then [] else (if chunks[0].count == 0 then [] else [chunks[0]]) + Live(chunks[1..])
  }

  lemma {:induction false} LiveIsAll(chunks: seq<Planned>)
    requires forall chunk <- chunks :: chunk.count > 0
    ensures Live(chunks) == chunks
  {
    if chunks != [] {
      LiveIsAll(chunks[1..]);
    }
  }

  /** Planned chunks are all transmitted, or there is a single empty one and none is. */
  lemma PlanIsLive(request: Request, creation: bool)
    requires PlanOf(request, creation).Success?
    ensures var chunks := PlanOf(request, creation).value;
            Live(chunks) == (if ItemsOf(request).value == [] then [] else chunks)
    ensures ItemsOf(request).value == [] ==>
              PlanOf(request, creation).value == [Planned(Cleared(request), 0)]
  {
    hide *;
    var items, base, reserve := PlanParts(request, creation);
    var chunks := Chunks(request, creation);
    PlanReversal(request, creation);
    if items == [] {
      SingleEmpty(base);
    } else {
      forall i | 0 <= i < |chunks|
        ensures chunks[i].count > 0
      {
        GreedyChunkAt(base, reserve, items, i);
      }
      LiveIsAll(PlanOf(request, creation).value);
    }
  }

  lemma PlanReversal(request: Request, creation: bool)
    requires PlanOf(request, creation).Success?
    ensures var plan := PlanOf(request, creation).value;
            plan == (if ReversesChunks(request) then Reverse(Chunks(request, creation)) else Chunks(request, creation))
            && |plan| == |Chunks(request, creation)|
            && (forall chunk <- plan :: chunk in Chunks(request, creation))
            && (|plan| == 1 ==> plan == Chunks(request, creation))
  {
    hide PlanOf;
    ReverseTwice(PlanOf(request, creation).value);
  }

  lemma SingleEmpty(base: Request)
    ensures Live([Planned(base, 0)]) == []
  {
    assert [Planned(base, 0)][1..] == [];
  }

  /**
   For every container and every planned request that does not insert before a pivot, running
   the transmitted chunks in the planned order has the effect of the one unbounded request.
   */
  lemma ChunkingPreservesMeaning(rpc: Rpc, request: Request, c: Container)
    requires PlanOf(request, false).Success? && !InsertsBefore(request)
    requires request.AddToVal? ==> rpc == AddByValue
    ensures RunAll(rpc, Live(PlanOf(request, false).value), c) == Apply(rpc, request, c)
  {
    hide *;
    var items, base, reserve := PlanParts(request, false);
    PlanIsLive(request, false);
    PlanReversal(request, false);
    ApplyIs(rpc, request, c);
    if items == [] {
      NoItemsNoEffect(rpc, base, c);
      RunNone(rpc, c);
    } else {
      CuttableMeans(base, reserve, items);
      var j := JobOf(reserve, items);
      EndsAreGreedy(j, 0);
      NoItemsChunk(base);
      assert items[0..] == items;
      ReversesKept(request);
      if ReversesChunks(request) {
        assert base.AddToVal?;
        RunReversed(base, items, j, 0, j.Ends(0), c);
      } else {
        RunInOrder(rpc, base, items, j, 0, j.Ends(0), c);
      }
    }
  }

  lemma ApplyIs(rpc: Rpc, request: Request, c: Container)
    requires ItemsOf(request).Success?
    ensures Apply(rpc, request, c) == ApplyItems(rpc, Cleared(request), ItemsOf(request).value, c)
  {
  }

  lemma ReversesKept(request: Request)
    ensures ReversesChunks(Cleared(request)) == ReversesChunks(request)
    ensures Cleared(request).AddToVal? == request.AddToVal?
    ensures request.AddToVal? && !ReversesChunks(request) ==> InsertsBefore(request)
    ensures ReversesChunks(request) ==> request.AddToVal?
  {
  }
}
