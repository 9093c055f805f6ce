/**
 Inserting before a pivot in several requests. Each request acts on the first occurrence of
 the pivot at that time, so an inserted element equal to the pivot captures later chunks.
 */
module InsertBefore {
  import opened Basics
  import opened Wire
  import opened Messages
  import opened Greedy
  import opened Chunker
  import opened Batching
  import opened PlanItems
  import opened PlanTheorems
  import opened Containers
  import opened Meaning

  function BeforeEach<T(==)>(xs: seq<T>, pivot: T, parts: seq<seq<T>>): seq<T>
    decreases |parts|
  {
    if parts == [] then xs else BeforeEach(InsertBefore(xs, pivot, parts[0]), pivot, parts[1..])
  }

  /** The part of a chunk before its own first pivot, and the part from it on. */
  function FreeHead<T(==)>(part: seq<T>, pivot: T): seq<T> {
    part[..IndexOf(part, pivot)]
  }

  function PivotTail<T(==)>(part: seq<T>, pivot: T): seq<T> {
    part[IndexOf(part, pivot)..]
  }

  function Heads<T(==)>(parts: seq<seq<T>>, pivot: T): seq<T> {
    if parts == [] then [] else FreeHead(parts[0], pivot) + Heads(parts[1..], pivot)
  }

  /** The pivot tails, last chunk first. */
  function Tails<T(==)>(parts: seq<seq<T>>, pivot: T): seq<T> {
    if parts == [] then [] else Tails(parts[1..], pivot) + PivotTail(parts[0], pivot)
  }

  lemma SplitAtPivot<T>(part: seq<T>, pivot: T)
    ensures part == FreeHead(part, pivot) + PivotTail(part, pivot) && pivot !in FreeHead(part, pivot)
    ensures PivotTail(part, pivot) == [] || PivotTail(part, pivot)[0] == pivot
  {
  }

  lemma InsertBetween<T>(left: seq<T>, right: seq<T>, pivot: T, part: seq<T>)
    requires pivot !in left && right != [] && right[0] == pivot
    ensures InsertBefore(left + right, pivot, part) == left + part + right
  {
    var xs := left + right;
    assert xs[..|left|] == left && xs[|left|..] == right;
    IndexOfIs(xs, pivot, |left|);
  }

  /** In closed form: all pivot-free heads in order, then the pivot tails in reverse order. */
  lemma {:induction false} BeforeEachIs<T>(left: seq<T>, right: seq<T>, pivot: T, parts: seq<seq<T>>)
    requires pivot !in left && right != [] && right[0] == pivot
    ensures BeforeEach(left + right, pivot, parts) == left + Heads(parts, pivot) + Tails(parts, pivot) + right
    decreases |parts|
  {
    if parts != [] {
      hide InsertBefore, FreeHead, PivotTail;
      var p, q := FreeHead(parts[0], pivot), PivotTail(parts[0], pivot);
      var h, t := Heads(parts[1..], pivot), Tails(parts[1..], pivot);
      SplitAtPivot(parts[0], pivot);
      InsertBetween(left, right, pivot, parts[0]);
      Shuffle(left, p, h, t, q, right);
      BeforeEachIs(left + p, q + right, pivot, parts[1..]);
    } else {
      assert left + [] + [] + right == left + right;
    }
  }

  lemma Shuffle<T>(l: seq<T>, p: seq<T>, h: seq<T>, t: seq<T>, q: seq<T>, r: seq<T>)
    ensures l + (p + q) + r == (l + p) + (q + r)
    ensures (l + p) + h + t + (q + r) == l + (p + h) + (t + q) + r
  {
  }

  /** The chunks' elements, last chunk first. */
  function Backward<T>(parts: seq<seq<T>>): seq<T> {
    if parts == [] then [] else Backward(parts[1..]) + parts[0]
  }

  /**
   The condition, checkable on the chunks alone: if some chunk contains the pivot then every
   later chunk starts with it (or is empty), and the elements from that first pivot on read the
   same whether the chunks are taken forwards or backwards. In particular it holds when no
   chunk before the last contains the pivot.
   */
  predicate PivotSafe<T(==)>(parts: seq<seq<T>>, pivot: T) {
    if parts == [] then true
    else if pivot !in parts[0] then PivotSafe(parts[1..], pivot)
    else
      var tail := PivotTail(parts[0], pivot);
      && (forall part <- parts[1..] :: part == [] || part[0] == pivot)
      && tail + Flatten(parts[1..]) == Backward(parts[1..]) + tail
  }

  lemma {:induction false} HeadsAreFree<T>(parts: seq<seq<T>>, pivot: T)
    ensures pivot !in Heads(parts, pivot)
    ensures Heads(parts, pivot) == [] <==> forall part <- parts :: part == [] || part[0] == pivot
  {
    if parts != [] {
      HeadsAreFree(parts[1..], pivot);
      SplitAtPivot(parts[0], pivot);
      assert FreeHead(parts[0], pivot) == [] <==> parts[0] == [] || parts[0][0] == pivot;
      assert forall part :: part in parts <==> part == parts[0] || part in parts[1..];
    }
  }

  lemma {:induction false} HeadlessTails<T>(parts: seq<seq<T>>, pivot: T)
    requires forall part <- parts :: part == [] || part[0] == pivot
    ensures Tails(parts, pivot) == Backward(parts)
  {
    if parts != [] {
      HeadlessTails(parts[1..], pivot);
      assert PivotTail(parts[0], pivot) == parts[0];
    }
  }

  lemma CancelLeft<T>(a: seq<T>, x: seq<T>, y: seq<T>)
    ensures a + x == a + y <==> x == y
  {
    assert (a + x)[|a|..] == x && (a + y)[|a|..] == y;
  }

  /** The condition is exactly that heads followed by reversed tails are the chunks in order. */
  lemma {:induction false} SafeIsInOrder<T>(parts: seq<seq<T>>, pivot: T)
    ensures PivotSafe(parts, pivot) <==> Heads(parts, pivot) + Tails(parts, pivot) == Flatten(parts)
  {
    if parts == [] {
      return;
    }
    hide Heads, Tails, FreeHead, PivotTail, Flatten, Backward;
    var rest := parts[1..];
    var p, q := FreeHead(parts[0], pivot), PivotTail(parts[0], pivot);
    var h, t, f := Heads(rest, pivot), Tails(rest, pivot), Flatten(rest);
    FirstPart(parts, pivot);
    CancelFirst(p, q, h, t, f);
    if pivot !in parts[0] {
      assert h + t + q == h + t && q + f == f;
      SafeIsInOrder(rest, pivot);
    } else {
      HeadsAreFree(rest, pivot);
      if h == [] {
        HeadlessTails(rest, pivot);
        assert h + t + q == t + q;
      } else {
        assert (h + t + q)[0] == h[0] && (q + f)[0] == pivot;
      }
    }
  }

  lemma CancelFirst<T>(p: seq<T>, q: seq<T>, h: seq<T>, t: seq<T>, f: seq<T>)
    ensures (p + h) + (t + q) == (p + q) + f <==> h + t + q == q + f
  {
    assert (p + h) + (t + q) == p + (h + t + q) && (p + q) + f == p + (q + f);
    CancelLeft(p, h + t + q, q + f);
  }

  lemma FirstPart<T>(parts: seq<seq<T>>, pivot: T)
    requires parts != []
    ensures var p, q := FreeHead(parts[0], pivot), PivotTail(parts[0], pivot);
            && parts[0] == p + q
            && (pivot !in parts[0] ==> q == []) && (pivot in parts[0] ==> q != [] && q[0] == pivot)
            && Heads(parts, pivot) == p + Heads(parts[1..], pivot)
            && Tails(parts, pivot) == Tails(parts[1..], pivot) + q
            && Flatten(parts) == (p + q) + Flatten(parts[1..])
  {
    SplitAtPivot(parts[0], pivot);
  }

  /** Chunked insertion before a pivot equals one insertion exactly when the condition holds. */
  lemma InsertBeforeExact<T>(xs: seq<T>, pivot: T, parts: seq<seq<T>>)
    ensures BeforeEach(xs, pivot, parts) == InsertBefore(xs, pivot, Flatten(parts))
            <==> pivot !in xs || PivotSafe(parts, pivot)
  {
    hide *;
    PivotFound(xs, pivot);
    if pivot !in xs {
      MissingPivot(xs, pivot, parts);
    } else {
      var i := IndexOf(xs, pivot);
      var left, right := xs[..i], xs[i..];
      assert xs == left + right;
      BeforeEachIs(left, right, pivot, parts);
      InsertBetween(left, right, pivot, Flatten(parts));
      SafeIsInOrder(parts, pivot);
      CancelBoth(left, right, Heads(parts, pivot), Tails(parts, pivot), Flatten(parts));
    }
  }

  lemma CancelBoth<T>(left: seq<T>, right: seq<T>, h: seq<T>, t: seq<T>, y: seq<T>)
    ensures left + h + t + right == left + y + right <==> h + t == y
  {
    assert left + h + t + right == left + (h + t + right) && left + y + right == left + (y + right);
    CancelLeft(left, h + t + right, y + right);
    if h + t + right == y + right {
      assert |h + t| == |y|;
      assert (h + t + right)[..|y|] == h + t && (y + right)[..|y|] == y;
    }
  }

  lemma PivotFound<T>(xs: seq<T>, pivot: T)
    ensures pivot in xs <==> IndexOf(xs, pivot) < |xs|
  {
    assert xs[..|xs|] == xs;
  }

  lemma {:induction false} MissingPivot<T>(xs: seq<T>, pivot: T, parts: seq<seq<T>>)
    requires pivot !in xs
    ensures BeforeEach(xs, pivot, parts) == xs == InsertBefore(xs, pivot, Flatten(parts))
    decreases |parts|
  {
    PivotFound(xs, pivot);
    if parts != [] {
      MissingPivot(xs, pivot, parts[1..]);
    }
  }

  /** If no chunk before the last contains the pivot the condition holds. */
  lemma {:induction false} EarlierChunksFree<T>(parts: seq<seq<T>>, pivot: T)
    requires forall i :: 0 <= i < |parts| - 1 ==> pivot !in parts[i]
    ensures PivotSafe(parts, pivot)
  {
    if |parts| > 1 {
      assert pivot !in parts[0];
      EarlierChunksFree(parts[1..], pivot);
    } else if parts != [] {
      var q := PivotTail(parts[0], pivot);
      assert parts[1..] == [];
      assert q + [] == [] + q;
    }
  }

  // ---------- planned insert-before requests ----------

  function ElementLists(lists: seq<seq<Item>>): seq<seq<Bytes>> {
    if lists == [] then [] else [Elements(lists[0])] + ElementLists(lists[1..])
  }

  lemma {:induction false} ElementsFlatten(lists: seq<seq<Item>>)
    ensures Elements(Flatten(lists)) == Flatten(ElementLists(lists))
  {
    if lists != [] {
      ElementsFlatten(lists[1..]);
      ElementsAppend(lists[0], Flatten(lists[1..]));
    }
  }

  /** Chunks of one insert-before request, seen as lists of elements. */
  ghost predicate ChunksOfOne(base: Request, chunks: seq<Planned>) {
    forall chunk <- chunks :: ItemsOf(chunk.request).Success? && Cleared(chunk.request) == base
  }

  lemma {:induction false} RunBefore(base: Request, chunks: seq<Planned>, xs: seq<Bytes>)
    requires InsertsBefore(base) && ChunksOfOne(base, chunks)
    ensures RunAll(AddByValue, chunks, Sequence(xs))
            == Sequence(BeforeEach(xs, base.pivot.value.bytes, ElementLists(ItemLists(chunks))))
    decreases |chunks|
  {
    if chunks != [] {
      var lists := ItemLists(chunks);
      assert lists[1..] == ItemLists(chunks[1..]);
      assert lists[0] == ItemsOf(chunks[0].request).value;
      var ys := InsertBefore(xs, base.pivot.value.bytes, Elements(lists[0]));
      ApplyIs(AddByValue, chunks[0].request, Sequence(xs));
      hide ItemsOf, Cleared, Apply, InsertBefore, Elements, ItemLists;
      RunBefore(base, chunks[1..], ys);
    }
  }

  /** The items of a plan without a position, chunk by chunk, are the request's items in order. */
  lemma PlanLists(request: Request)
    requires PlanOf(request, false).Success? && InsertsBefore(request)
    ensures ChunksOfOne(Cleared(request), PlanOf(request, false).value)
    ensures Flatten(ItemLists(PlanOf(request, false).value)) == ItemsOf(request).value
  {
    hide *;
    PlanReversal(request, false);
    BeforeIsPlain(request);
    var chunks := Chunks(request, false);
    var items, base, reserve := PlanParts(request, false);
    forall i | 0 <= i < |chunks|
      ensures ItemsOf(chunks[i].request).Success? && Cleared(chunks[i].request) == base
    {
      ChunksCoverExactly(request, false, i);
      BeforeIsUnshifted(base, Offset(chunks, i));
    }
    AllOfOne(base, chunks);
    if items == [] {
      HeaderIsEmpty(base);
      EmptyItemLists(chunks);
    } else {
      LinearCuts(request, false);
      var j := LinearJob(HeaderSize(reserve), SizesOf(items, ItemSize));
      CuttableMeans(base, reserve, items);
      UniformJob(reserve, items);
      EndsAreGreedy(j, 0);
      SlicesCover(items, j, 0, j.Ends(0));
    }
  }

  lemma BeforeIsPlain(request: Request)
    requires InsertsBefore(request)
    ensures !ReversesChunks(request) && !Positional(request) && InsertsBefore(Cleared(request))
    ensures request.AddToVal? && request.isBefore && Cleared(request).AddToVal? && ItemsOf(request).Success?
    ensures !Positional(Reserve(Cleared(request), false))
    ensures Cleared(request).pivot == request.pivot
  {
  }

  lemma BeforeIsUnshifted(base: Request, s: nat)
    requires InsertsBefore(base)
    ensures Shifted(base, s) == base
  {
  }

  lemma AllOfOne(base: Request, chunks: seq<Planned>)
    requires forall i :: 0 <= i < |chunks| ==>
               ItemsOf(chunks[i].request).Success? && Cleared(chunks[i].request) == base
    ensures ChunksOfOne(base, chunks)
  {
  }

  /** The planned chunks, as the lists of elements they insert. */
  function PlannedElements(request: Request): seq<seq<Bytes>>
    requires PlanOf(request, false).Success? && InsertsBefore(request)
  {
    PlanLists(request);
    ElementLists(ItemLists(PlanOf(request, false).value))
  }

  /**
   Running the chunks of an insert-before has the effect of the single request exactly when the
   container lacks the pivot or the chunks are pivot-safe.
   */
  lemma ChunkedInsertBefore(request: Request, xs: seq<Bytes>)
    requires PlanOf(request, false).Success? && InsertsBefore(request)
    ensures var pivot := request.pivot.value.bytes;
            RunAll(AddByValue, PlanOf(request, false).value, Sequence(xs)) == Apply(AddByValue, request, Sequence(xs))
            <==> pivot !in xs || PivotSafe(PlannedElements(request), pivot)
  {
    hide *;
    PlanLists(request);
    PlannedElementsIs(request);
    BeforeIsPlain(request);
    ApplyBefore(request, xs);
    RunBefore(Cleared(request), PlanOf(request, false).value, xs);
    InsertBeforeExact(xs, request.pivot.value.bytes, PlannedElements(request));
  }

  lemma PlannedElementsIs(request: Request)
    requires PlanOf(request, false).Success? && InsertsBefore(request)
    ensures ChunksOfOne(Cleared(request), PlanOf(request, false).value)
    ensures PlannedElements(request) == ElementLists(ItemLists(PlanOf(request, false).value))
    ensures ItemsOf(request).Success? && Flatten(PlannedElements(request)) == Elements(ItemsOf(request).value)
  {
    PlanLists(request);
    hide PlanOf, ItemLists, ElementLists, Elements;
    ElementsFlatten(ItemLists(PlanOf(request, false).value));
  }

  lemma ApplyBefore(request: Request, xs: seq<Bytes>)
    requires request.AddToVal? && request.isBefore && ItemsOf(request).Success?
    ensures Apply(AddByValue, request, Sequence(xs))
            == Sequence(InsertBefore(xs, request.pivot.value.bytes, Elements(ItemsOf(request).value)))
  {
  }

  /** When no inserted value equals the pivot, chunking an insert-before preserves its meaning. */
  lemma ChunkedInsertBeforeFree(request: Request, c: Container)
    requires PlanOf(request, false).Success? && InsertsBefore(request)
    requires request.pivot.value.bytes !in Elements(ItemsOf(request).value)
    ensures RunAll(AddByValue, PlanOf(request, false).value, c) == Apply(AddByValue, request, c)
  {
    if c.Sequence? {
      var pivot := request.pivot.value.bytes;
      var parts := PlannedElements(request);
      PlannedElementsIs(request);
      hide PlanOf, PlannedElements, ItemsOf, Elements, Apply, RunAll, ItemLists;
      assert Flatten(parts) == Elements(ItemsOf(request).value);
      forall i | 0 <= i < |parts| - 1
        ensures pivot !in parts[i]
      {
        PartOfFlatten(parts, i);
      }
      EarlierChunksFree(parts, pivot);
      ChunkedInsertBefore(request, c.xs);
    } else {
      ApplyOther(request, c);
      RunOther(PlanOf(request, false).value, c);
    }
  }

  lemma {:induction false} PartOfFlatten<T>(parts: seq<seq<T>>, i: nat)
    requires i < |parts|
    ensures forall x <- parts[i] :: x in Flatten(parts)
  {
    if i > 0 {
      PartOfFlatten(parts[1..], i - 1);
    }
  }

  lemma ApplyOther(request: Request, c: Container)
    requires !c.Sequence?
    ensures Apply(AddByValue, request, c) == c
  {
  }

  lemma {:induction false} RunOther(chunks: seq<Planned>, c: Container)
    requires !c.Sequence?
    ensures RunAll(AddByValue, chunks, c) == c
    decreases |chunks|
  {
    if chunks != [] {
      ApplyOther(chunks[0].request, c);
      RunOther(chunks[1..], c);
    }
  }
}
