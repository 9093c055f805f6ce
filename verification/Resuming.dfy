/**
 What the container holds after part of a plan has been carried out, and that sending the
 items that were not reported, as one further request, completes the whole.
 */
module Resuming {
  import opened Basics
  import opened Wire
  import opened Messages
  import opened Batching
  import opened PlanItems
  import opened PlanTheorems
  import opened Containers
  import opened Meaning
  import opened InsertBefore
  import opened Sender
  import opened SenderTheorems
  import opened Chunker

  /** The facts about a plan that the steps below need. */
  ghost predicate IsPlan(request: Request, items: seq<Item>, base: Request, chunks: seq<Planned>) {
    && PlanOf(request, false).Success? && chunks == Chunks(request, false)
    && ItemsOf(request) == Success(items) && base == Cleared(request)
    && IsHeader(base) && WellShaped(base, items) && !Overflows(base, |items|)
    && Offset(chunks, |chunks|) == |items|
  }

  lemma PlannedParts(request: Request) returns (items: seq<Item>, base: Request)
    requires PlanOf(request, false).Success?
    ensures IsPlan(request, items, base, Chunks(request, false))
  {
    hide *;
    var reserve;
    items, base, reserve := PlanParts(request, false);
    WholeOffset(request, false);
    if items == [] {
      NotAtSentinel(base);
    } else {
      CuttableMeans(base, reserve, items);
    }
    MakesPlan(request, items, base, Chunks(request, false));
  }

  lemma MakesPlan(request: Request, items: seq<Item>, base: Request, chunks: seq<Planned>)
    requires PlanOf(request, false).Success? && chunks == Chunks(request, false)
    requires ItemsOf(request) == Success(items) && base == Cleared(request)
    requires IsHeader(base) && WellShaped(base, items) && !Overflows(base, |items|)
    requires Offset(chunks, |chunks|) == |items|
    ensures IsPlan(request, items, base, chunks)
  {
    hide PlanOf, ItemsOf, IsHeader, WellShaped, Overflows, Offset, Cleared;
  }

  lemma IsPlanMeans(request: Request, items: seq<Item>, base: Request, chunks: seq<Planned>)
    requires IsPlan(request, items, base, chunks)
    ensures PlanOf(request, false).Success? && chunks == Chunks(request, false)
    ensures ItemsOf(request) == Success(items) && base == Cleared(request)
    ensures IsHeader(base) && WellShaped(base, items) && !Overflows(base, |items|)
    ensures Offset(chunks, |chunks|) == |items|
  {
  }

  /** Running chunk i is applying its items under the header shifted past the earlier ones. */
  lemma RunOne(rpc: Rpc, request: Request, items: seq<Item>, base: Request, chunks: seq<Planned>, i: nat, c: Container)
    requires IsPlan(request, items, base, chunks) && i < |chunks|
    ensures var s, e := Offset(chunks, i), Offset(chunks, i + 1);
            s <= e <= |items| && (s == e ==> items == [])
            && Apply(rpc, chunks[i].request, c) == ApplyItems(rpc, Shifted(base, s), items[s..e], c)
  {
    hide *;
    IsPlanMeans(request, items, base, chunks);
    ChunksCoverExactly(request, false, i);
    OffsetStep(chunks, i);
    ApplyIs(rpc, chunks[i].request, c);
  }

  /** Nothing that is inserted before a pivot equals the pivot. */
  predicate PivotFree(base: Request, items: seq<Item>) {
    InsertsBefore(base) ==> base.pivot.value.bytes !in Elements(items)
  }

  lemma PivotFreePart(base: Request, items: seq<Item>, a: nat)
    requires PivotFree(base, items) && a <= |items|
    ensures PivotFree(base, items[..a]) && PivotFree(base, items[a..])
  {
    ElementsAppend(items[..a], items[a..]);
    assert items[..a] + items[a..] == items;
  }

  /** Inserting two parts before the pivot in turn, when the first does not contain it. */
  lemma InsertBeforeTwice<T>(xs: seq<T>, pivot: T, a: seq<T>, b: seq<T>)
    requires pivot !in a
    ensures Containers.InsertBefore(Containers.InsertBefore(xs, pivot, a), pivot, b)
            == Containers.InsertBefore(xs, pivot, a + b)
  {
    hide Containers.InsertBefore, IndexOf;
    PivotFound(xs, pivot);
    if pivot in xs {
      var i := IndexOf(xs, pivot);
      var left, right := xs[..i], xs[i..];
      assert xs == left + right;
      InsertBetween(left, right, pivot, a);
      InsertBetween(left, right, pivot, a + b);
      assert left + a + right == (left + a) + right;
      InsertBetween(left + a, right, pivot, b);
      assert left + a + b + right == left + (a + b) + right;
    } else {
      NoPivot(xs, pivot, a);
      NoPivot(xs, pivot, b);
      NoPivot(xs, pivot, a + b);
    }
  }

  lemma NoPivot<T>(xs: seq<T>, pivot: T, vs: seq<T>)
    requires pivot !in xs
    ensures Containers.InsertBefore(xs, pivot, vs) == xs
  {
    PivotFound(xs, pivot);
  }

  lemma SplitBefore(rpc: Rpc, base: Request, a: seq<Item>, b: seq<Item>, c: Container)
    requires InsertsBefore(base) && PivotFree(base, a)
    ensures ApplyItems(rpc, base, b, ApplyItems(rpc, base, a, c)) == ApplyItems(rpc, base, a + b, c)
  {
    ElementsAppend(a, b);
    if rpc.AddByValue? && c.Sequence? {
      InsertBeforeTwice(c.xs, base.pivot.value.bytes, Elements(a), Elements(b));
    }
    hide Containers.InsertBefore, Elements;
  }

  lemma BeforeUnshifted(base: Request, s: nat)
    requires base.AddToVal?
    ensures Shifted(base, s) == base && (InsertsBefore(base) <==> !ReversesChunks(base))
  {
  }

  /** Doing items a..b under the header shifted by a, after items ..a, is doing items ..b. */
  lemma DoneInOrder(rpc: Rpc, base: Request, items: seq<Item>, a: nat, b: nat, c: Container)
    requires WellShaped(base, items) && !Overflows(base, |items|) && a <= b <= |items|
    requires !ReversesChunks(base) && PivotFree(base, items)
    ensures ApplyItems(rpc, Shifted(base, a), items[a..b], ApplyItems(rpc, base, items[..a], c))
            == ApplyItems(rpc, base, items[..b], c)
  {
    hide *;
    Unshifted(base);
    assert items[..a] + items[a..b] == items[..b] == items[0..b];
    if a == 0 {
      assert items[..a] == [] && items[a..b] == items[..b];
      NoItemsNoEffect(rpc, base, c);
    } else if a == b {
      assert items[a..b] == [] && items[..a] == items[..b];
      NoItemsNoEffect(rpc, Shifted(base, a), ApplyItems(rpc, base, items[..a], c));
    } else if base.AddToVal? {
      BeforeUnshifted(base, a);
      PivotFreePart(base, items, a);
      SplitBefore(rpc, base, items[..a], items[a..b], c);
    } else {
      SliceWellShaped(base, items, 0, b);
      OverflowsLess(base, b, |items|);
      SplitInOrder(rpc, base, items[..a], items[a..b], 0, c);
    }
  }

  lemma Unshifted(base: Request)
    ensures Shifted(base, 0) == base
  {
  }

  /** The first k chunks have the effect of the first items of the request. */
  lemma {:induction false} PrefixMeaning(rpc: Rpc, request: Request, items: seq<Item>, base: Request,
                                         chunks: seq<Planned>, k: nat, c: Container)
    requires IsPlan(request, items, base, chunks) && k <= |chunks|
    requires !ReversesChunks(base) && PivotFree(base, items)
    ensures Offset(chunks, k) <= |items|
    ensures RunAll(rpc, chunks[..k], c) == ApplyItems(rpc, base, items[..Offset(chunks, k)], c)
    decreases k
  {
    hide *;
    IsPlanMeans(request, items, base, chunks);
    if k == 0 {
      NoneDone(chunks);
      assert chunks[..k] == [] && items[..0] == [];
      RunNone(rpc, c);
      NoItemsNoEffect(rpc, base, c);
    } else {
      var before := RunAll(rpc, chunks[..k - 1], c);
      PrefixMeaning(rpc, request, items, base, chunks, k - 1, c);
      assert chunks[..k] == chunks[..k - 1] + [chunks[k - 1]];
      RunAllAppend(rpc, chunks[..k - 1], [chunks[k - 1]], c);
      RunSingle(rpc, chunks[k - 1], before);
      RunOne(rpc, request, items, base, chunks, k - 1, before);
      DoneInOrder(rpc, base, items, Offset(chunks, k - 1), Offset(chunks, k), c);
    }
  }

  lemma NoneDone(chunks: seq<Planned>)
    ensures Offset(chunks, 0) == 0
  {
  }

  /** The last k chunks, last one first, have the effect of the last items of an insert-after. */
  lemma {:induction false} SuffixMeaning(request: Request, items: seq<Item>, base: Request, chunks: seq<Planned>,
                                         k: nat, c: Container)
    requires IsPlan(request, items, base, chunks) && k <= |chunks| && ReversesChunks(base)
    ensures Offset(chunks, |chunks| - k) <= |items|
    ensures RunAll(AddByValue, Reverse(chunks)[..k], c)
            == ApplyItems(AddByValue, base, items[Offset(chunks, |chunks| - k)..], c)
    decreases k
  {
    hide *;
    IsPlanMeans(request, items, base, chunks);
    var i := |chunks| - k;
    if k == 0 {
      NothingReversed(chunks, items);
      RunNone(AddByValue, c);
      NoItemsNoEffect(AddByValue, base, c);
    } else {
      var before := RunAll(AddByValue, Reverse(chunks)[..k - 1], c);
      SuffixMeaning(request, items, base, chunks, k - 1, c);
      ReversePrefix(chunks, k);
      RunAllAppend(AddByValue, Reverse(chunks)[..k - 1], [chunks[i]], c);
      RunSingle(AddByValue, chunks[i], before);
      RunOne(AddByValue, request, items, base, chunks, i, before);
      ByValueUnshifted(base, Offset(chunks, i));
      var s, e := Offset(chunks, i), Offset(chunks, i + 1);
      SuffixSplit(items, s, e);
      SplitReversed(AddByValue, base, items[s..e], items[e..], c);
    }
  }

  lemma ReversePrefix<T>(xs: seq<T>, k: nat)
    requires 0 < k <= |xs|
    ensures |Reverse(xs)| == |xs| && Reverse(xs)[..k] == Reverse(xs)[..k - 1] + [xs[|xs| - k]]
  {
    assert Reverse(xs)[k - 1] == xs[|xs| - k];
    hide Reverse;
  }

  lemma NothingReversed<T, U>(xs: seq<T>, ys: seq<U>)
    ensures Reverse(xs)[..0] == [] && ys[|ys|..] == []
  {
  }

  lemma SuffixSplit<T>(xs: seq<T>, s: nat, e: nat)
    requires s <= e <= |xs|
    ensures xs[s..] == xs[s..e] + xs[e..]
  {
  }

  lemma ByValueUnshifted(base: Request, s: nat)
    requires ReversesChunks(base)
    ensures Shifted(base, s) == base && base.AddToVal?
  {
  }

  // ---------- the items that are left ----------

  /** The items reported after k chunks, the others, and the header for a request of the others. */
  datatype Progress = Progress(done: seq<Item>, left: seq<Item>, header: Request)

  function ProgressAfter(request: Request, n: nat): Progress
    requires ItemsOf(request).Success? && n <= |ItemsOf(request).value|
  {
    var items := ItemsOf(request).value;
    var m := |items| - n;
    if ReversesChunks(request) then Progress(items[m..], items[..m], Cleared(request))
    else Progress(items[..n], items[n..], Shifted(Cleared(request), n))
  }

  lemma {:induction false} OffsetIsItemsIn(chunks: seq<Planned>, k: nat)
    requires k <= |chunks|
    ensures Offset(chunks, k) == ItemsIn(chunks[..k])
    decreases k
  {
    if k == 0 {
      assert chunks[..0] == [];
    } else {
      hide Offset, ItemsIn;
      OffsetIsItemsIn(chunks, k - 1);
      OffsetStep(chunks, k - 1);
      ItemsPush(chunks[..k - 1], chunks[k - 1]);
      assert chunks[..k] == chunks[..k - 1] + [chunks[k - 1]];
    }
  }

  /** The number of items reported for k chunks, in terms of the chunks in item order. */
  lemma ReportedCount(request: Request, k: nat)
    requires PlanOf(request, false).Success? && k <= |PlanOf(request, false).value|
    ensures var chunks, n := Chunks(request, false), ItemsIn(PlanOf(request, false).value[..k]);
            && |chunks| == |PlanOf(request, false).value|
            && if ReversesChunks(request) then n == Offset(chunks, |chunks|) - Offset(chunks, |chunks| - k)
               else n == Offset(chunks, k)
  {
    hide *;
    PlanReversal(request, false);
    var chunks := Chunks(request, false);
    OffsetIsItemsIn(chunks, k);
    if ReversesChunks(request) {
      var m := |chunks| - k;
      ReverseSlice(chunks, m);
      ItemsInReverse(chunks[m..]);
      ItemsInAppend(chunks[..m], chunks[m..]);
      OffsetIsItemsIn(chunks, m);
      OffsetIsItemsIn(chunks, |chunks|);
      assert chunks[..|chunks|] == chunks;
    }
  }

  /**
   After k chunks of a plan, of which the sender reports n items, the container is what the
   request restricted to those items makes of it; and one more request with the other items,
   after which all chunks are done, makes of it what the whole request would have made.
   */
  lemma ResumingCompletes(rpc: Rpc, request: Request, k: nat, c: Container)
    requires PlanOf(request, false).Success? && k <= |PlanOf(request, false).value|
    requires request.AddToVal? ==> rpc == AddByValue
    requires PivotFree(request, ItemsOf(request).value)
    ensures var n := ItemsIn(PlanOf(request, false).value[..k]);
            && ItemsOf(request).Success? && n <= |ItemsOf(request).value|
            && var p, partial := ProgressAfter(request, n), RunAll(rpc, PlanOf(request, false).value[..k], c);
            && partial == ApplyItems(rpc, Cleared(request), p.done, c)
            && AcceptsAll(p.header, p.left)
            && Apply(rpc, AppendAll(p.header, p.left), partial) == Apply(rpc, request, c)
  {
    hide *;
    var items, base := PlannedParts(request);
    var chunks := Chunks(request, false);
    IsPlanMeans(request, items, base, chunks);
    PlanReversal(request, false);
    ReportedCount(request, k);
    ReversesKept(request);
    PivotKept(request, items);
    ApplyIs(rpc, request, c);
    var n := ItemsIn(PlanOf(request, false).value[..k]);
    if ReversesChunks(request) {
      SuffixMeaning(request, items, base, chunks, k, c);
      ResumeReversed(request, items, base, n, c);
    } else {
      PrefixMeaning(rpc, request, items, base, chunks, k, c);
      ResumeInOrder(rpc, request, items, base, n, c);
    }
  }

  lemma PivotKept(request: Request, items: seq<Item>)
    ensures PivotFree(Cleared(request), items) <==> PivotFree(request, items)
    ensures InsertsBefore(Cleared(request)) <==> InsertsBefore(request)
  {
  }

  lemma ResumeInOrder(rpc: Rpc, request: Request, items: seq<Item>, base: Request, n: nat, c: Container)
    requires ItemsOf(request) == Success(items) && base == Cleared(request)
    requires !ReversesChunks(request) && !ReversesChunks(base) && PivotFree(base, items)
    requires IsHeader(base) && WellShaped(base, items) && !Overflows(base, |items|) && n <= |items|
    ensures var p := ProgressAfter(request, n);
            && p.done == items[..n] && AcceptsAll(p.header, p.left)
            && Apply(rpc, AppendAll(p.header, p.left), ApplyItems(rpc, base, p.done, c))
               == ApplyItems(rpc, base, items, c)
  {
    hide *;
    ProgressInOrder(request, items, n);
    assert items[n..|items|] == items[n..] && items[..|items|] == items;
    ApplyBuilt(rpc, base, n, |items|, items, n, ApplyItems(rpc, base, items[..n], c));
    DoneInOrder(rpc, base, items, n, |items|, c);
  }

  lemma ProgressInOrder(request: Request, items: seq<Item>, n: nat)
    requires ItemsOf(request) == Success(items) && !ReversesChunks(request) && n <= |items|
    ensures ProgressAfter(request, n) == Progress(items[..n], items[n..], Shifted(Cleared(request), n))
  {
  }

  lemma ResumeReversed(request: Request, items: seq<Item>, base: Request, n: nat, c: Container)
    requires ItemsOf(request) == Success(items) && base == Cleared(request)
    requires ReversesChunks(request) && ReversesChunks(base)
    requires IsHeader(base) && WellShaped(base, items) && n <= |items|
    ensures var p := ProgressAfter(request, n);
            && p.done == items[|items| - n..] && AcceptsAll(p.header, p.left)
            && Apply(AddByValue, AppendAll(p.header, p.left), ApplyItems(AddByValue, base, p.done, c))
               == ApplyItems(AddByValue, base, items, c)
  {
    hide *;
    var m := |items| - n;
    ProgressReversed(request, items, n);
    ByValueUnshifted(base, 0);
    assert items[0..m] == items[..m] && items[..m] + items[m..] == items;
    ApplyBuilt(AddByValue, base, 0, m, items, 0, ApplyItems(AddByValue, base, items[m..], c));
    SplitReversed(AddByValue, base, items[..m], items[m..], c);
  }

  lemma ProgressReversed(request: Request, items: seq<Item>, n: nat)
    requires ItemsOf(request) == Success(items) && ReversesChunks(request) && n <= |items|
    ensures ProgressAfter(request, n) == Progress(items[|items| - n..], items[..|items| - n], Cleared(request))
  {
  }

  // ---------- the items that are left can be sent ----------

  /** The request of items n..e of a planned request, with the position moved past the first n. */
  function PartRequest(base: Request, items: seq<Item>, n: nat, e: nat): Request
    requires n <= e <= |items| && AcceptsAll(Shifted(base, n), items[n..e])
  {
    AppendAll(Shifted(base, n), items[n..e])
  }

  lemma FitsAloneMeans(header: Request, items: seq<Item>, k: nat)
    requires k < |items| && AcceptsAll(header, items) && !Overflows(header, k + 1)
    ensures AcceptsAll(Shifted(header, k), items[k..k + 1])
    ensures FitsAlone(header, items, k) <==>
              ByteSize(AppendAll(Shifted(header, k), items[k..k + 1])) <= MAX_RPC_SIZE
  {
    BuildSucceeds(header, items, k, k + 1);
    hide Build, AcceptsAll, Overflows, Shifted, ByteSize, AppendAll;
  }

  lemma SliceOfSlice<T>(xs: seq<T>, n: nat, e: nat, a: nat, b: nat)
    requires a <= b && n + b <= e <= |xs|
    ensures xs[n..e][a..b] == xs[n + a..n + b]
  {
    var part := xs[n..e];
    assert |part[a..b]| == |xs[n + a..n + b]|;
    forall i | 0 <= i < b - a
      ensures part[a..b][i] == xs[n + a..n + b][i]
    {
      assert part[a + i] == xs[n + a + i];
    }
  }

  /** Item k of the part, built alone, is item n + k of the whole, built alone. */
  lemma SameAlone(base: Request, items: seq<Item>, n: nat, e: nat, k: nat)
    requires n + k < e <= |items| && !Overflows(base, |items|)
    requires AcceptsAll(base, items) && AcceptsAll(Shifted(base, n), items[n..e])
    requires FitsAlone(base, items, n + k)
    ensures FitsAlone(Shifted(base, n), items[n..e], k)
  {
    hide *;
    ShiftTwice(base, |items|, n, k);
    SliceOfSlice(items, n, e, k, k + 1);
    FitsAloneMeans(base, items, n + k);
    FitsAloneMeans(Shifted(base, n), items[n..e], k);
  }

  lemma ShiftTwice(base: Request, m: nat, n: nat, k: nat)
    requires !Overflows(base, m) && n + k < m
    ensures Shifted(Shifted(base, n), k) == Shifted(base, n + k)
    ensures !Overflows(base, n + k + 1) && !Overflows(Shifted(base, n), k + 1)
  {
  }

  /** A header is no larger than the same header further along with an item. */
  lemma FitsHeader(base: Request, items: seq<Item>, n: nat, i: nat)
    requires IsHeader(base) && AcceptsAll(base, items) && n <= i < |items| && !Overflows(base, i + 1)
    requires FitsAlone(base, items, i)
    ensures ByteSize(Shifted(base, n)) <= MAX_RPC_SIZE
  {
    hide *;
    AloneMeansPasses(base, items, i);
    PassesMeans(base, items, i);
    OverflowsLess(base, i, i + 1);
    ShiftedHeaderSize(base, n, i);
  }

  lemma PassesMeans(base: Request, items: seq<Item>, i: nat)
    requires i < |items| && ItemPasses(base, items, i)
    ensures HeaderSize(Shifted(base, i)) <= MAX_RPC_SIZE
  {
    JobHead(base, items, i);
    LoadOne(JobOf(base, items), i);
    hide JobOf, HeaderSize, Shifted;
  }

  lemma JobHead(base: Request, items: seq<Item>, i: nat)
    requires i < |items|
    ensures JobOf(base, items).head[i] == HeaderSize(Shifted(base, i))
  {
    hide HeaderSize, Shifted, ItemSize;
  }

  lemma ShiftedHeaderSize(base: Request, n: nat, i: nat)
    requires IsHeader(base) && n <= i && !Overflows(base, i)
    ensures ByteSize(Shifted(base, n)) == HeaderSize(Shifted(base, n)) <= HeaderSize(Shifted(base, i))
  {
    hide *;
    NoItemsSize(base, n);
    ByteSizeSplits(Shifted(base, n));
    ShiftedAdd(base, n);
    ShiftedAdd(base, i);
    if Positional(base) {
      OverflowsLess(base, n, i);
      AddHeaderSize(Shifted(base, n));
      AddHeaderSize(Shifted(base, i));
      PositionGrows(base, n, i);
    }
  }

  lemma NoItemsSize(base: Request, n: nat)
    requires IsHeader(base)
    ensures ItemsSize(Shifted(base, n)) == 0
  {
  }

  lemma ShiftedAdd(base: Request, n: nat)
    ensures !Positional(base) ==> Shifted(base, n) == base
    ensures Positional(base) ==> base.AddTo? && Shifted(base, n).AddTo?
  {
  }

  lemma PositionGrows(base: Request, n: nat, i: nat)
    requires Positional(base) && base.AddTo? && n <= i && !Overflows(base, n) && !Overflows(base, i)
    requires Shifted(base, n).AddTo? && Shifted(base, i).AddTo?
    ensures var a, b := Shifted(base, n), Shifted(base, i);
            && a.key == b.key && a.addKind == b.addKind && a.ttl == b.ttl
            && OptionalSize(a.pos) <= OptionalSize(b.pos)
  {
    VarintMonotone(base.pos.value + n, base.pos.value + i);
  }

  lemma PartItems(base: Request, items: seq<Item>, n: nat, e: nat)
    requires IsHeader(base) && WellShaped(base, items) && n < e <= |items| && !Overflows(base, |items|)
    ensures AcceptsAll(base, items) && AcceptsAll(Shifted(base, n), items[n..e])
    ensures var part := PartRequest(base, items, n, e);
            && ItemsOf(part) == Success(items[n..e]) && Cleared(part) == Shifted(base, n)
            && Reserve(Shifted(base, n), false) == Shifted(base, n)
            && !Overflows(part, |items[n..e]|)
  {
    hide *;
    SliceWellShaped(base, items, n, e);
    ShapeUnderShift0(base, items[n..e], n);
    BuiltItems(Shifted(base, n), items[n..e]);
    PartIs(base, items, n, e);
    ClearedHeader(PartRequest(base, items, n, e), e - n);
    PartOverflow(base, |items|, n, e);
    assert |items[n..e]| == e - n;
  }

  lemma ShapeUnderShift0(base: Request, items: seq<Item>, n: nat)
    requires IsHeader(base) && WellShaped(base, items)
    ensures WellShaped(Shifted(base, n), items) && IsHeader(Shifted(base, n))
    ensures AcceptsAll(Shifted(base, n), items)
  {
    Unshifted(base);
    ShapeUnderShift(base, items, 0, n);
  }

  lemma PartIs(base: Request, items: seq<Item>, n: nat, e: nat)
    requires n <= e <= |items| && AcceptsAll(Shifted(base, n), items[n..e]) && WellShaped(base, items)
    ensures PartRequest(base, items, n, e) == AppendAll(Shifted(base, n), items[n..e]) && AcceptsAll(base, items)
  {
    hide AcceptsAll, AppendAll;
  }

  lemma PartOverflow(base: Request, m: nat, n: nat, e: nat)
    requires !Overflows(base, m) && n < e <= m
    ensures !Overflows(Shifted(base, n), e - n)
  {
  }

  /** Any nonempty run of items of a planned request can be planned, where the whole request would put them. */
  lemma PartIsPlanned(request: Request, items: seq<Item>, base: Request, n: nat, e: nat)
    requires PlanOf(request, false).Success? && n < e <= |items|
    requires ItemsOf(request) == Success(items) && base == Cleared(request)
    requires IsHeader(base) && WellShaped(base, items) && !Overflows(base, |items|)
    ensures AcceptsAll(Shifted(base, n), items[n..e])
    ensures var part := PartRequest(base, items, n, e);
            PlanOf(part, false).Success? && ItemsOf(part) == Success(items[n..e]) && Cleared(part) == Shifted(base, n)
  {
    hide *;
    PartItems(base, items, n, e);
    PlanAccepts(request, false);
    var part, header := PartRequest(base, items, n, e), Shifted(base, n);
    Unreserved(base);
    forall k | 0 <= k < e - n
      ensures FitsAlone(header, items[n..e], k)
    {
      AloneAt(request, false, n + k);
      SameAlone(base, items, n, e, k);
    }
    AloneAt(request, false, n);
    OverflowsLess(base, n + 1, |items|);
    FitsHeader(base, items, n, n);
    AllAloneMeans(part, header, items[n..e]);
    PlanAccepts(part, false);
  }

  lemma Unreserved(base: Request)
    ensures Reserve(base, false) == base
  {
  }

  lemma AllAloneMeans(request: Request, header: Request, items: seq<Item>)
    requires ItemsOf(request) == Success(items) && Cleared(request) == header && Reserve(header, false) == header
    requires AcceptsAll(header, items) && forall k :: 0 <= k < |items| ==> FitsAlone(header, items, k)
    ensures AllFitAlone(request, false)
  {
    hide ItemsOf, Cleared, Reserve, AcceptsAll, FitsAlone;
  }

  /** Before the last chunk some items are left. */
  lemma SomeLeft(request: Request, k: nat)
    requires PlanOf(request, false).Success? && k < |PlanOf(request, false).value|
    requires ItemsOf(request).Success? && ItemsOf(request).value != []
    ensures ItemsIn(PlanOf(request, false).value[..k]) < |ItemsOf(request).value|
  {
    hide *;
    var chunks := Chunks(request, false);
    ReportedCount(request, k);
    WholeOffset(request, false);
    var i := if ReversesChunks(request) then 0 else k;
    ChunksCoverExactly(request, false, i);
    OffsetStep(chunks, i);
    NoneDone(chunks);
    if ReversesChunks(request) {
      OffsetGrows(chunks, 1, |chunks| - k);
    } else {
      OffsetGrows(chunks, k + 1, |chunks|);
    }
  }

  lemma {:induction false} OffsetGrows(chunks: seq<Planned>, i: nat, j: nat)
    requires i <= j <= |chunks|
    ensures Offset(chunks, i) <= Offset(chunks, j)
    decreases j
  {
    hide *;
    if i < j {
      OffsetGrows(chunks, i, j - 1);
      OffsetStep(chunks, j - 1);
    }
  }

  /** What the resuming caller sends. */
  function Remaining(request: Request, n: nat): Request
    requires ItemsOf(request).Success? && n <= |ItemsOf(request).value|
    requires AcceptsAll(ProgressAfter(request, n).header, ProgressAfter(request, n).left)
  {
    AppendAll(ProgressAfter(request, n).header, ProgressAfter(request, n).left)
  }

  lemma RemainingIsPart(request: Request, items: seq<Item>, n: nat)
    requires ItemsOf(request) == Success(items) && n < |items|
    requires AcceptsAll(ProgressAfter(request, n).header, ProgressAfter(request, n).left)
    ensures var base := Cleared(request);
            var from := if ReversesChunks(request) then 0 else n;
            var to := if ReversesChunks(request) then |items| - n else |items|;
            && from < to <= |items| && ProgressAfter(request, n).left == items[from..to]
            && AcceptsAll(Shifted(base, from), items[from..to])
            && Remaining(request, n) == PartRequest(base, items, from, to)
  {
    Unshifted(Cleared(request));
    hide AppendAll, AcceptsAll, ItemsOf, Cleared, Shifted;
    if ReversesChunks(request) {
      ProgressReversed(request, items, n);
      assert items[0..|items| - n] == items[..|items| - n];
    } else {
      ProgressInOrder(request, items, n);
      assert items[n..|items|] == items[n..];
    }
  }

  /**
   While a chunk is left, the request of the items left is accepted by the planner, and its own
   chunks complete what the first k chunks have begun.
   */
  lemma RemainingCanBeSent(rpc: Rpc, request: Request, k: nat, c: Container)
    requires PlanOf(request, false).Success? && k < |PlanOf(request, false).value|
    requires request.AddToVal? ==> rpc == AddByValue
    requires PivotFree(request, ItemsOf(request).value) && ItemsOf(request).value != []
    ensures var n := ItemsIn(PlanOf(request, false).value[..k]);
            && ItemsOf(request).Success? && n < |ItemsOf(request).value|
            && AcceptsAll(ProgressAfter(request, n).header, ProgressAfter(request, n).left)
            && var rest, partial := Remaining(request, n), RunAll(rpc, PlanOf(request, false).value[..k], c);
            && PlanOf(rest, false).Success?
            && RunAll(rpc, Live(PlanOf(rest, false).value), partial) == Apply(rpc, request, c)
  {
    hide *;
    var items, base := PlannedParts(request);
    IsPlanMeans(request, items, base, Chunks(request, false));
    SomeLeft(request, k);
    ResumingCompletes(rpc, request, k, c);
    var n := ItemsIn(PlanOf(request, false).value[..k]);
    RemainingIsPart(request, items, n);
    RemainingIs(request, n);
    var from, to := if ReversesChunks(request) then 0 else n, if ReversesChunks(request) then |items| - n else |items|;
    PartIsPlanned(request, items, base, from, to);
    KindOfPart(request, Remaining(request, n), from);
    PivotFreeSlice(request, items, from, to);
    SendRest(rpc, Remaining(request, n), items[from..to], RunAll(rpc, PlanOf(request, false).value[..k], c));
  }

  lemma RemainingIs(request: Request, n: nat)
    requires ItemsOf(request).Success? && n <= |ItemsOf(request).value|
    requires AcceptsAll(ProgressAfter(request, n).header, ProgressAfter(request, n).left)
    ensures Remaining(request, n) == AppendAll(ProgressAfter(request, n).header, ProgressAfter(request, n).left)
  {
  }

  /** A part is a request of the same kind, with the same pivot. */
  lemma KindOfPart(request: Request, part: Request, n: nat)
    requires Cleared(part) == Shifted(Cleared(request), n)
    ensures part.AddToVal? == request.AddToVal? && InsertsBefore(part) == InsertsBefore(request)
    ensures part.AddToVal? ==> part.pivot == request.pivot
    ensures InsertsBefore(part) ==> part.AddToVal?
  {
  }

  lemma PivotFreeSlice(request: Request, items: seq<Item>, from: nat, to: nat)
    requires PivotFree(request, items) && from <= to <= |items|
    ensures InsertsBefore(request) ==> request.pivot.value.bytes !in Elements(items[from..to])
  {
    hide Elements;
    PivotFreePart(request, items, to);
    PivotFreePart(request, items[..to], from);
    assert items[..to][from..] == items[from..to];
  }

  lemma SendRest(rpc: Rpc, rest: Request, left: seq<Item>, c: Container)
    requires PlanOf(rest, false).Success? && ItemsOf(rest) == Success(left) && left != []
    requires rest.AddToVal? ==> rpc == AddByValue
    requires InsertsBefore(rest) ==> rest.pivot.value.bytes !in Elements(left)
    ensures RunAll(rpc, Live(PlanOf(rest, false).value), c) == Apply(rpc, rest, c)
  {
    hide PlanOf, ItemsOf, Elements, RunAll, Apply, Live;
    if InsertsBefore(rest) {
      PlanIsLive(rest, false);
      ChunkedInsertBeforeFree(rest, c);
    } else {
      ChunkingPreservesMeaning(rpc, rest, c);
    }
  }

  // ---------- after a reported failure ----------

  lemma PartialMeans(live: seq<Planned>, boolean: bool, calls: seq<Call>, r: Outcome)
    requires Settled(live, boolean, calls, r) && r.Partial?
    ensures 0 < r.chunks <= |live| && r.items == ItemsIn(live[..r.chunks])
    ensures r.cause != CountOverflow ==> r.chunks < |live|
  {
    hide Replied, ItemsIn;
  }

  /**
   A chunked add that ends with partial progress has done exactly the items it reports, if the
   chunks it does not report had no effect. Unless they were all, the request of the items that
   are left is accepted by the planner, and sending its chunks completes the whole.
   */
  lemma ResumeAfterPartial(rpc: Rpc, request: Request, boolean: bool, calls: seq<Call>, r: Outcome, c: Container)
    requires AddOutcome(request, boolean, calls, r) && r.Partial?
    requires request.AddToVal? ==> rpc == AddByValue
    requires ItemsOf(request).Success? && PivotFree(request, ItemsOf(request).value)
    ensures PlanOf(request, false).Success? && r.items <= |ItemsOf(request).value|
    ensures var plan, p := PlanOf(request, false).value, ProgressAfter(request, r.items);
            && r.chunks <= |plan| && (r.cause != CountOverflow ==> r.chunks < |plan|)
            && var partial := RunAll(rpc, plan[..r.chunks], c);
            && partial == ApplyItems(rpc, Cleared(request), p.done, c)
            && (r.chunks == |plan| ==> partial == Apply(rpc, request, c))
            && (r.chunks < |plan| ==>
                  && AcceptsAll(p.header, p.left) && PlanOf(Remaining(request, r.items), false).Success?
                  && RunAll(rpc, Live(PlanOf(Remaining(request, r.items), false).value), partial)
                     == Apply(rpc, request, c))
  {
    hide *;
    AddPartial(request, boolean, calls, r);
    PlanIsLive(request, false);
    var plan := PlanOf(request, false).value;
    NotEmptyLive();
    PartialMeans(Live(plan), boolean, calls, r);
    ResumingCompletes(rpc, request, r.chunks, c);
    if r.chunks < |plan| {
      RemainingCanBeSent(rpc, request, r.chunks, c);
    } else {
      assert plan[..r.chunks] == plan;
      PivotFreeSlice(request, ItemsOf(request).value, 0, |ItemsOf(request).value|);
      assert ItemsOf(request).value[0..|ItemsOf(request).value|] == ItemsOf(request).value;
      SendRest(rpc, request, ItemsOf(request).value, c);
    }
  }

  lemma AddPartial(request: Request, boolean: bool, calls: seq<Call>, r: Outcome)
    requires AddOutcome(request, boolean, calls, r) && r.Partial?
    ensures PlanOf(request, false).Success? && Settled(Live(PlanOf(request, false).value), boolean, calls, r)
  {
    hide PlanOf, Settled;
  }

  lemma NotEmptyLive()
    ensures Live([]) == []
  {
  }
}
